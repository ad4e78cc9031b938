/**
 * The environment loader of app/env.server.ts. When `dotenv` reported an
 * error or left `MORESLEEP_BASIC_AUTH` unset, the `.env` file (when it
 * exists) is read again by hand: it is split into lines on `\n`, each line
 * matching `^([^=]+)=(.*)$` gives a trimmed key and value, and a pair with
 * both non-empty is written into `process.env` unless the variable already
 * holds a non-empty value. `ENV` then reads two variables with defaults.
 * The result of `dotenv` and the file's text are inputs.
 */
module EnvLoader {
  import opened Wrappers
  import opened Text

  type Env = map<string, string>

  /** The characters the regular expression's `.` does not match. */
  predicate IsLineTerminator(c: char) {
    c == '\n' || c == '\r' || c == '\U{2028}' || c == '\U{2029}'
  }

  /**
   * `line.match(/^([^=]+)=(.*)$/)`: the text before the first `=` (at least
   * one character) and everything after it, which may hold further `=` but
   * no line terminator.
   */
  function MatchEnvLine(line: string): (r: Option<(string, string)>)
    ensures r.Some? ==> && r.value.0 != [] && '=' !in r.value.0
                        && line == r.value.0 + "=" + r.value.1
                        && forall c :: c in r.value.1 ==> !IsLineTerminator(c)
    ensures r.None? <==> || '=' !in line
                         || IndexOf(line, '=') == Some(0)
                         || exists c :: c in line[IndexOf(line, '=').value + 1..] && IsLineTerminator(c)
  {
    match IndexOf(line, '=')
    case None => None
    case Some(k) =>
      if k == 0 then None
      else if exists c :: c in line[k + 1..] && IsLineTerminator(c) then None
      else
        assert line == line[..k] + "=" + line[k + 1..];
        Some((line[..k], line[k + 1..]))
  }

  /** The pair a line assigns: it matches, and its trimmed key and trimmed value are both non-empty. */
  function Assignment(line: string): (r: Option<(string, string)>)
    ensures r.Some? ==> r.value.0 != "" && r.value.1 != ""
  {
    match MatchEnvLine(line)
    case None => None
    case Some((k, v)) => if Trim(k) != "" && Trim(v) != "" then Some((Trim(k), Trim(v))) else None
  }

  /**
   * A line assigns exactly when it matches and both its trimmed key and its
   * trimmed value are non-empty, and then it assigns that trimmed pair.
   */
  lemma AssignmentIsTrimmedMatch(line: string)
    ensures Assignment(line).Some? <==> && MatchEnvLine(line).Some?
                                         && Trim(MatchEnvLine(line).value.0) != ""
                                         && Trim(MatchEnvLine(line).value.1) != ""
    ensures Assignment(line).Some? ==>
              Assignment(line).value == (Trim(MatchEnvLine(line).value.0), Trim(MatchEnvLine(line).value.1))
  {
  }

  /** What each line assigns, in order. */
  function Assignments(lines: seq<string>): (r: seq<Option<(string, string)>>)
    ensures |r| == |lines| && forall i :: 0 <= i < |lines| ==> r[i] == Assignment(lines[i])
    ensures NonEmptyPairs(r)
  {
    seq(|lines|, i requires 0 <= i < |lines| => Assignment(lines[i]))
  }

  /** Every assignment has a non-empty key and a non-empty value. */
  predicate NonEmptyPairs(pairs: seq<Option<(string, string)>>) {
    forall i :: 0 <= i < |pairs| && pairs[i].Some? ==> pairs[i].value.0 != "" && pairs[i].value.1 != ""
  }

  /** The assignment is one to `key`. */
  predicate AssignsKey(a: Option<(string, string)>, key: string) {
    a.Some? && a.value.0 == key
  }

  /** The body of the `forEach` callback for one line: write the pair unless the variable holds a non-empty value. */
  function ApplyOne(env: Env, a: Option<(string, string)>): Env {
    match a
    case None => env
    case Some((key, value)) => if !Truthy(Get(env, key)) then env[key := value] else env
  }

  /** The `forEach` over the lines' assignments, in order. */
  function ApplyAll(env: Env, pairs: seq<Option<(string, string)>>): Env
    decreases |pairs|
  {
    if pairs == [] then env else ApplyOne(ApplyAll(env, pairs[..|pairs| - 1]), pairs[|pairs| - 1])
  }

  /** The value the first assignment to `key` gives it, if there is one. */
  function FirstAssigned(pairs: seq<Option<(string, string)>>, key: string): Option<string>
    decreases |pairs|
  {
    if pairs == [] then None
    else match FirstAssigned(pairs[..|pairs| - 1], key)
      case Some(v) => Some(v)
      case None => if AssignsKey(pairs[|pairs| - 1], key) then Some(pairs[|pairs| - 1].value.1) else None
  }

  /** `FirstAssigned` finds the first assignment to the key, and none when there is none. */
  lemma {:induction false} FirstAssignedIsFirst(pairs: seq<Option<(string, string)>>, key: string)
    ensures FirstAssigned(pairs, key).Some? ==>
              exists i :: 0 <= i < |pairs| && pairs[i] == Some((key, FirstAssigned(pairs, key).value))
                          && forall j :: 0 <= j < i ==> !AssignsKey(pairs[j], key)
    ensures FirstAssigned(pairs, key).None? <==> forall i :: 0 <= i < |pairs| ==> !AssignsKey(pairs[i], key)
    decreases |pairs|
  {
    if pairs != [] {
      var prefix := pairs[..|pairs| - 1];
      var n := |pairs| - 1;
      FirstAssignedIsFirst(prefix, key);
      assert forall i :: 0 <= i < n ==> prefix[i] == pairs[i];
    }
  }

  /**
   * After the loop a variable that held a non-empty value keeps it; one that
   * did not gets the value of the first line assigning it, and keeps its old
   * (empty or absent) entry when no line does.
   */
  lemma {:induction false} ApplyAllOutcome(env: Env, pairs: seq<Option<(string, string)>>, key: string)
    requires NonEmptyPairs(pairs)
    ensures Truthy(Get(env, key)) ==> Get(ApplyAll(env, pairs), key) == Get(env, key)
    ensures !Truthy(Get(env, key)) && FirstAssigned(pairs, key).Some? ==>
              Get(ApplyAll(env, pairs), key) == FirstAssigned(pairs, key)
    ensures !Truthy(Get(env, key)) && FirstAssigned(pairs, key).None? ==>
              Get(ApplyAll(env, pairs), key) == Get(env, key)
    decreases |pairs|
  {
    if pairs != [] {
      var prefix := pairs[..|pairs| - 1];
      assert forall i :: 0 <= i < |prefix| ==> prefix[i] == pairs[i];
      ApplyAllOutcome(env, prefix, key);
      FirstAssignedIsFirst(prefix, key);
      var before := ApplyAll(env, prefix);
      var last := pairs[|pairs| - 1];
      if last.Some? && last.value.0 == key {
        assert ApplyAll(env, pairs) == ApplyOne(before, last);
      }
    }
  }

  /** A value may hold `=`; a line starting with `=` or holding a carriage return after its `=` is skipped. */
  lemma MatchEnvLineExamples()
    ensures MatchEnvLine("A=b=c") == Some(("A", "b=c"))
    ensures MatchEnvLine("=x") == None
    ensures MatchEnvLine("A=b\r") == None
    ensures MatchEnvLine("AB") == None
  {
    assert "A=b=c"[..1] == "A" && "A=b=c"[2..] == "b=c";
    assert IndexOf("=x", '=') == Some(0);
    assert IndexOf("A=b\r", '=') == Some(1) && IsLineTerminator("A=b\r"[3]);
  }

  /** Both sides are trimmed; a side that trims to nothing makes the line assign nothing. */
  lemma AssignmentExamples()
    ensures Assignment("K = v") == Some(("K", "v"))
    ensures Assignment("K= ") == None
  {
    MatchSpacedLine();
    TrimTrailing();
    TrimLeading();
    MatchBlankValue();
    TrimBlank();
  }

  /** The regular expression gives `K= ` the value ` `. */
  lemma MatchBlankValue()
    ensures MatchEnvLine("K= ") == Some(("K", " "))
  {
    assert "K= "[1..] == "= ";
    assert IndexOf("K= ", '=') == Some(1);
    assert "K= "[..1] == "K" && "K= "[2..] == " ";
  }

  /** The regular expression splits `K = v` at its `=`, keeping the spaces. */
  lemma MatchSpacedLine()
    ensures MatchEnvLine("K = v") == Some(("K ", " v"))
  {
    assert "K = v"[1..] == " = v" && " = v"[1..] == "= v";
    assert IndexOf("K = v", '=') == Some(2);
    assert "K = v"[..2] == "K " && "K = v"[3..] == " v";
  }

  /** `trim` drops a trailing space. */
  lemma TrimTrailing()
    ensures Trim("K ") == "K"
  {
    assert !IsJsSpace('K') && IsJsSpace(' ');
    assert TrimStart("K ") == "K ";
    assert "K "[..1] == "K";
    assert TrimEnd("K") == "K";
    assert TrimEnd("K ") == "K";
  }

  /** `trim` drops a leading space. */
  lemma TrimLeading()
    ensures Trim(" v") == "v"
  {
    assert " v"[1..] == "v";
  }

  /** `trim` of a lone space is empty. */
  lemma TrimBlank()
    ensures Trim(" ") == ""
  {
    assert " "[1..] == [];
  }

  /** The `ENV` record. */
  datatype EnvRecord = EnvRecord(nodeEnv: string, moresleepBasicAuth: string)

  /** `ENV`: `NODE_ENV` defaults to `development` and the credential to the empty string. */
  function EnvOf(env: Env): (r: EnvRecord)
    ensures Truthy(Get(env, "NODE_ENV")) ==> r.nodeEnv == env["NODE_ENV"]
    ensures !Truthy(Get(env, "NODE_ENV")) ==> r.nodeEnv == "development"
    ensures Truthy(Get(env, "MORESLEEP_BASIC_AUTH")) ==> r.moresleepBasicAuth == env["MORESLEEP_BASIC_AUTH"]
    ensures !Truthy(Get(env, "MORESLEEP_BASIC_AUTH")) ==> r.moresleepBasicAuth == ""
  {
    EnvRecord(Or(Get(env, "NODE_ENV"), "development"), Or(Get(env, "MORESLEEP_BASIC_AUTH"), ""))
  }

  /** Whether the by-hand fallback runs: `dotenv` failed or left the credential empty. */
  predicate FallbackRuns(env: Env, dotenvFailed: bool) {
    dotenvFailed || !Truthy(Get(env, "MORESLEEP_BASIC_AUTH"))
  }

  /** The environment after the module's top-level code; `file` is the text of `.env`, absent when the file does not exist. */
  function LoadSpec(env: Env, dotenvFailed: bool, file: Option<string>): Env {
    if FallbackRuns(env, dotenvFailed) && file.Some? then ApplyAll(env, Assignments(Split(file.value, '\n'))) else env
  }

  /**
   * A missing credential is filled from the first line of `.env` assigning
   * it, and then reaches `ENV`; with no such line, or no file, `ENV` carries
   * the empty default.
   */
  lemma FallbackFillsCredential(env: Env, dotenvFailed: bool, file: Option<string>)
    requires !Truthy(Get(env, "MORESLEEP_BASIC_AUTH"))
    ensures file.Some? && FirstAssigned(Assignments(Split(file.value, '\n')), "MORESLEEP_BASIC_AUTH").Some? ==>
              EnvOf(LoadSpec(env, dotenvFailed, file)).moresleepBasicAuth
              == FirstAssigned(Assignments(Split(file.value, '\n')), "MORESLEEP_BASIC_AUTH").value
    ensures (file.None? || FirstAssigned(Assignments(Split(file.value, '\n')), "MORESLEEP_BASIC_AUTH").None?) ==>
              EnvOf(LoadSpec(env, dotenvFailed, file)).moresleepBasicAuth == ""
  {
    if file.Some? {
      ApplyAllOutcome(env, Assignments(Split(file.value, '\n')), "MORESLEEP_BASIC_AUTH");
    }
  }

  /** When `dotenv` succeeded and set the credential, the file is not read again and nothing changes. */
  lemma NoFallbackWhenLoaded(env: Env, file: Option<string>)
    requires Truthy(Get(env, "MORESLEEP_BASIC_AUTH"))
    ensures LoadSpec(env, false, file) == env
  {
  }

  /** `process.env`. */
  class ProcessEnv {
    var vars: Env

    /** The environment pairs `dotenv` left it. */
    constructor (initial: Env)
      ensures vars == initial
    {
      vars := initial;
    }

    /** The fallback: split the file into lines and apply them in order. */
    method LoadFallback(dotenvFailed: bool, file: Option<string>)
      modifies this
      ensures vars == LoadSpec(old(vars), dotenvFailed, file)
    {
      if !FallbackRuns(vars, dotenvFailed) || file.None? {
        return;
      }
      var lines := Split(file.value, '\n');
      ApplyLines(lines);
    }

    /** The `forEach` over the lines. */
    method ApplyLines(lines: seq<string>)
      modifies this
      ensures vars == ApplyAll(old(vars), Assignments(lines))
    {
      ghost var pairs := Assignments(lines);
      var i := 0;
      while i < |lines|
        invariant 0 <= i <= |lines|
        invariant vars == ApplyAll(old(vars), pairs[..i])
      {
        assert pairs[..i + 1][..i] == pairs[..i];
        ApplyLine(lines[i]);
        i := i + 1;
      }
      assert pairs[..|lines|] == pairs;
    }

    /** The callback for one line: match, trim, and write when both sides are non-empty and the variable is unset. */
    method ApplyLine(line: string)
      modifies this
      ensures vars == ApplyOne(old(vars), Assignment(line))
    {
      var m := MatchEnvLine(line);
      if m.Some? {
        var key := Trim(m.value.0);
        var value := Trim(m.value.1);
        if key != "" && value != "" && !Truthy(Get(vars, key)) {
          vars := vars[key := value];
        }
      }
    }

    /** The exported `ENV`, read from the current environment. */
    method ReadEnv() returns (r: EnvRecord)
      ensures r.nodeEnv == (if Truthy(Get(vars, "NODE_ENV")) then vars["NODE_ENV"] else "development")
      ensures r.moresleepBasicAuth == (if Truthy(Get(vars, "MORESLEEP_BASIC_AUTH")) then vars["MORESLEEP_BASIC_AUTH"] else "")
    {
      r := EnvOf(vars);
    }
  }
}
