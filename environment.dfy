/** Loading secrets into the process environment: every non-blank line of the
    secrets file is a KEY=VALUE assignment, applied in order to the
    environment, after which the environment is ready when it holds the API
    key. */
module Environment {
  import opened Wrappers
  import opened Builtins

  const ApiKeyName := "OPENAI_API_KEY"

  /** The message Python gives when `key, value = parts` meets one part. */
  const UnpackError := ValueError("not enough values to unpack (expected 2, got 1)")

  /** What the loop makes of one line of the secrets file. */
  datatype Line = Blank | Assignment(key: string, value: string) | Malformed

  /** One line, read as the loop reads it: a line that is empty once stripped
      is skipped; otherwise the stripped line is cut at its first '=' into key
      and value, so the key holds no '=' while the value may, and spaces
      inside the stripped line stay in key and value. A non-blank line with no
      '=' cannot be unpacked into two parts. */
  function ParseLine(line: string): Line {
    var stripped := Strip(line);
    if stripped == [] then Blank
    else
      var parts := SplitOnce(stripped, '=');
      if |parts| == 2 then Assignment(parts[0], parts[1]) else Malformed
  }

  /** The three kinds of line: blank exactly when all whitespace, malformed
      exactly when the stripped line holds no '=', and an assignment splits
      the stripped line at an '=' its key does not hold. */
  lemma ParseLineCases(line: string)
    ensures ParseLine(line).Blank? <==> AllSpace(line)
    ensures ParseLine(line).Malformed? <==> !AllSpace(line) && '=' !in Strip(line)
    ensures ParseLine(line).Assignment? ==>
      Strip(line) == ParseLine(line).key + "=" + ParseLine(line).value && '=' !in ParseLine(line).key
  {
    StripMeaning(line);
  }

  /** A stripped line determines its key and value: they are the text before
      its first '=' and the text after it. */
  lemma AssignmentIsUnique(line: string, key: string, value: string)
    requires Strip(line) == key + "=" + value && '=' !in key
    ensures ParseLine(line) == Assignment(key, value)
  {
    var stripped := Strip(line);
    assert stripped[|key|] == '=';
    ParseLineCases(line);
    var l := ParseLine(line);
    assert l.Assignment?;
    var k := |l.key|;
    assert stripped[k] == '=';
    assert forall j :: 0 <= j < |key| ==> stripped[j] == key[j];
    assert forall j :: 0 <= j < k ==> stripped[j] == l.key[j];
    assert k == |key|;
    assert key == stripped[..k] == l.key;
    assert value == stripped[k + 1..] == l.value;
  }

  /** Every line of the file, read as the loop reads it. */
  function ParseLines(lines: seq<string>): seq<Line> {
    seq(|lines|, i requires 0 <= i < |lines| => ParseLine(lines[i]))
  }

  /** The state of the environment after the loop has read some lines: the
      variables, and the index of the line that raised, if one did. */
  datatype Loaded = Loaded(vars: map<string, string>, failedAt: Option<nat>)

  /** The loop over the lines, once each has been read, as a function of the
      environment before it. Blank lines are skipped, each assignment
      overwrites its key, and the first malformed line raises: the
      assignments before it stay in the environment and no later line is
      read. */
  function Apply(vars: map<string, string>, parsed: seq<Line>): (r: Loaded)
    ensures r.failedAt.None? <==> forall j :: 0 <= j < |parsed| ==> !parsed[j].Malformed?
    ensures r.failedAt.Some? ==> r.failedAt.value < |parsed| && parsed[r.failedAt.value].Malformed?
    decreases |parsed|
  {
    if parsed == [] then Loaded(vars, None)
    else
      var n := |parsed| - 1;
      var before := Apply(vars, parsed[..n]);
      assert forall j :: 0 <= j < n ==> parsed[..n][j] == parsed[j];
      if before.failedAt.Some? then before
      else
        match parsed[n]
        case Blank => before
        case Assignment(key, value) => Loaded(before.vars[key := value], None)
        case Malformed => Loaded(before.vars, Some(n))
  }

  /** The loop over the lines of the secrets file. */
  function Load(vars: map<string, string>, lines: seq<string>): (r: Loaded)
    ensures r.failedAt.None? <==> forall j :: 0 <= j < |lines| ==> !ParseLine(lines[j]).Malformed?
    ensures r.failedAt.Some? ==> r.failedAt.value < |lines| && ParseLine(lines[r.failedAt.value]).Malformed?
  {
    assert forall j :: 0 <= j < |lines| ==> ParseLines(lines)[j] == ParseLine(lines[j]);
    Apply(vars, ParseLines(lines))
  }

  /** The line that raised is the first malformed one, and the environment is
      left as the lines before it made it. */
  lemma {:induction false} StopsAtFirstMalformed(vars: map<string, string>, parsed: seq<Line>)
    requires Apply(vars, parsed).failedAt.Some?
    ensures var i := Apply(vars, parsed).failedAt.value;
      && (forall j :: 0 <= j < i ==> !parsed[j].Malformed?)
      && Apply(vars, parsed[..i]) == Loaded(Apply(vars, parsed).vars, None)
    decreases |parsed|
  {
    var n := |parsed| - 1;
    var before := Apply(vars, parsed[..n]);
    if before.failedAt.Some? {
      StopsAtFirstMalformed(vars, parsed[..n]);
      assert parsed[..n][..before.failedAt.value] == parsed[..before.failedAt.value];
      assert forall j :: 0 <= j < n ==> parsed[..n][j] == parsed[j];
    } else {
      assert forall j :: 0 <= j < n ==> parsed[..n][j] == parsed[j];
    }
  }

  /** The value the last assignment to `key` among the lines gives it, if any. */
  function LastAssigned(parsed: seq<Line>, key: string): Option<string>
    decreases |parsed|
  {
    if parsed == [] then None
    else match parsed[|parsed| - 1]
      case Assignment(k, v) =>
        if k == key then Some(v) else LastAssigned(parsed[..|parsed| - 1], key)
      case _ => LastAssigned(parsed[..|parsed| - 1], key)
  }

  function Lookup(vars: map<string, string>, key: string): Option<string> {
    if key in vars then Some(vars[key]) else None
  }

  /** The last write wins: when no line is malformed, each key ends up with
      the value of its last assignment in the file, and a key the file does
      not assign keeps what it had (or stays absent). */
  lemma {:induction false} LastWriteWins(vars: map<string, string>, parsed: seq<Line>, key: string)
    requires Apply(vars, parsed).failedAt.None?
    ensures Lookup(Apply(vars, parsed).vars, key) ==
      if LastAssigned(parsed, key).Some? then LastAssigned(parsed, key) else Lookup(vars, key)
    decreases |parsed|
  {
    if parsed != [] {
      var n := |parsed| - 1;
      assert Apply(vars, parsed[..n]).failedAt.None?;
      LastWriteWins(vars, parsed[..n], key);
    }
  }

  /** A blank line anywhere in the file changes nothing. */
  lemma {:induction false} BlankLineChangesNothing(vars: map<string, string>, front: seq<Line>, back: seq<Line>)
    ensures Apply(vars, front + [Blank] + back).vars == Apply(vars, front + back).vars
    ensures Apply(vars, front + [Blank] + back).failedAt.None? == Apply(vars, front + back).failedAt.None?
    decreases |back|
  {
    var with, without := front + [Blank] + back, front + back;
    if back == [] {
      assert with[..|with| - 1] == front;
      assert without == front;
    } else {
      var n := |back| - 1;
      assert with[..|with| - 1] == front + [Blank] + back[..n];
      assert without[..|without| - 1] == front + back[..n];
      assert with[|with| - 1] == back[n] == without[|without| - 1];
      BlankLineChangesNothing(vars, front, back[..n]);
    }
  }

  /** A line of whitespace anywhere in the secrets file changes nothing. */
  lemma WhitespaceLineIsSkipped(vars: map<string, string>, front: seq<string>, blank: string, back: seq<string>)
    requires AllSpace(blank)
    ensures Load(vars, front + [blank] + back).vars == Load(vars, front + back).vars
    ensures Load(vars, front + [blank] + back).failedAt.None? == Load(vars, front + back).failedAt.None?
  {
    ParseLineCases(blank);
    assert ParseLines(front + [blank] + back) == ParseLines(front) + [Blank] + ParseLines(back);
    assert ParseLines(front + back) == ParseLines(front) + ParseLines(back);
    BlankLineChangesNothing(vars, ParseLines(front), ParseLines(back));
  }

  /** Once a line has raised, the lines after it are never read. */
  lemma {:induction false} FailureIsFinal(vars: map<string, string>, parsed: seq<Line>, i: nat)
    requires i < |parsed|
    requires Apply(vars, parsed[..i + 1]).failedAt == Some(i)
    ensures Apply(vars, parsed) == Apply(vars, parsed[..i + 1])
    decreases |parsed|
  {
    if |parsed| > i + 1 {
      var n := |parsed| - 1;
      assert parsed[..n][..i + 1] == parsed[..i + 1];
      FailureIsFinal(vars, parsed[..n], i);
    } else {
      assert parsed[..i + 1] == parsed;
    }
  }

  /** The process environment, which the loader updates in place. */
  class Environ {
    var vars: map<string, string>

    constructor (vars: map<string, string>)
      ensures this.vars == vars
    {
      this.vars := vars;
    }

    /** os.environ[key] = value */
    method Set(key: string, value: string)
      modifies this
      ensures vars == old(vars)[key := value]
    {
      vars := vars[key := value];
    }

    /** os.getenv(key) */
    function Get(key: string): Option<string>
      reads this
    {
      Lookup(vars, key)
    }
  }

  /** read_secrets_into_environment, with the file seen as whether it exists
      and, if it does, its lines. A missing file changes nothing. Otherwise
      the environment ends as Load says, and the call raises ValueError
      exactly when some line is malformed. */
  method ReadSecretsIntoEnvironment(environ: Environ, fileExists: bool, lines: seq<string>)
    returns (outcome: Outcome<Exception>)
    modifies environ
    ensures !fileExists ==> environ.vars == old(environ.vars) && outcome == Pass
    ensures fileExists ==> environ.vars == Load(old(environ.vars), lines).vars
    ensures fileExists ==> (outcome.Fail? <==> Load(old(environ.vars), lines).failedAt.Some?)
    ensures outcome.Fail? ==> outcome.error == UnpackError
  {
    if !fileExists {
      return Pass;
    }
    ghost var start := environ.vars;
    ghost var parsed := ParseLines(lines);
    for i := 0 to |lines|
      invariant Apply(start, parsed[..i]) == Loaded(environ.vars, None)
    {
      assert parsed[..i + 1][..i] == parsed[..i];
      assert parsed[i] == ParseLine(lines[i]);
      match ParseLine(lines[i])
      case Blank =>
      case Assignment(key, value) =>
        environ.Set(key, value);
      case Malformed =>
        FailureIsFinal(start, parsed, i);
        return Fail(UnpackError);
    }
    assert parsed[..|lines|] == parsed;
    outcome := Pass;
  }

  /** is_environment_ready: the API key is set. */
  function IsEnvironmentReady(environ: Environ): (ready: bool)
    reads environ
    ensures ready <==> ApiKeyName in environ.vars
  {
    environ.Get(ApiKeyName).Some?
  }

  /** What importing the module does: load the secrets, then decide whether
      the environment is ready. When no line is malformed it is ready exactly
      when the file assigns the API key or the environment already had it. */
  method SetUpEnvironment(environ: Environ, fileExists: bool, lines: seq<string>)
    returns (ready: Result<bool, Exception>)
    modifies environ
    ensures !fileExists ==> environ.vars == old(environ.vars)
    ensures fileExists ==> environ.vars == Load(old(environ.vars), lines).vars
    ensures ready.Err? <==> fileExists && Load(old(environ.vars), lines).failedAt.Some?
    ensures ready.Ok? ==>
      (ready.value <==> ApiKeyName in old(environ.vars) || (fileExists && LastAssigned(ParseLines(lines), ApiKeyName).Some?))
  {
    ghost var start := environ.vars;
    var loaded := ReadSecretsIntoEnvironment(environ, fileExists, lines);
    if loaded.Fail? {
      return Err(loaded.error);
    }
    if fileExists {
      LastWriteWins(start, ParseLines(lines), ApiKeyName);
    }
    ready := Ok(IsEnvironmentReady(environ));
  }
}
