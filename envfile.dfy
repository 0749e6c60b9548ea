/**
 * Loading the `.env` file of the process manager: the inherited environment overlaid with
 * every `KEY=VALUE` line, comments and blank lines skipped.
 */
module EnvFile {
  import opened Wrappers
  import opened Text

  type Env = map<string, string>

  /** What one line of the file does once stripped. */
  datatype Line = Skip | Assign(key: string, value: string) | Bad

  /**
   * Blank lines and `#` comments are skipped; any other line splits at its first `=` into
   * name and value (further `=` stay in the value); one without `=` cannot be unpacked.
   */
  function Classify(line: string): (c: Line)
    ensures c == Skip <==> Strip(line) == [] || StartsWith(Strip(line), "#")
    ensures c == Bad <==> c != Skip && '=' !in Strip(line)
    ensures c.Assign? ==> Strip(line) == c.key + "=" + c.value && '=' !in c.key
  {
    var s := Strip(line);
    if s == [] || StartsWith(s, "#") then Skip
    else if '=' !in s then Bad
    else Assign(Before(s, '='), After(s, '='))
  }

  /** The file's lines, each classified. */
  function Parsed(lines: seq<string>): (ls: seq<Line>)
    ensures |ls| == |lines| && forall k :: 0 <= k < |lines| ==> ls[k] == Classify(lines[k])
  {
    seq(|lines|, k requires 0 <= k < |lines| => Classify(lines[k]))
  }

  /** One line applied to the environment so far; an earlier error stands. */
  function ApplyLine(prev: Result<Env, string>, line: Line): Result<Env, string> {
    if prev.Err? then prev
    else
      match line
      case Skip => prev
      case Bad => Err(UnpackError)
      case Assign(k, v) => Ok(prev.value[k := v])
  }

  /** The environment after applying the classified lines in order; the first bad line raises. */
  function Apply(inherited: Env, ls: seq<Line>): Result<Env, string> {
    if ls == [] then Ok(inherited)
    else ApplyLine(Apply(inherited, ls[..|ls| - 1]), ls[|ls| - 1])
  }

  /** Applying one more line of the file. */
  lemma ApplyNext(inherited: Env, ls: seq<Line>, i: nat)
    requires i < |ls|
    ensures Apply(inherited, ls[..i + 1]) == ApplyLine(Apply(inherited, ls[..i]), ls[i])
  {
    assert ls[..i + 1][..i] == ls[..i];
  }

  /** The environment after reading the file's lines. */
  function Loaded(inherited: Env, lines: seq<string>): Result<Env, string> {
    Apply(inherited, Parsed(lines))
  }

  /** `_load_env`: without a `.env` file the inherited environment comes back as it is. */
  method LoadEnv(inherited: Env, file: Option<seq<string>>) returns (r: Result<Env, string>)
    ensures file.None? ==> r == Ok(inherited)
    ensures file.Some? ==> r == Loaded(inherited, file.value)
  {
    if file.None? {
      return Ok(inherited);
    }
    var lines := file.value;
    ghost var ls := Parsed(lines);
    var env := inherited;
    var i := 0;
    while i < |lines|
      invariant i <= |lines|
      invariant Apply(inherited, ls[..i]) == Ok(env)
    {
      var line := Classify(lines[i]);
      ApplyNext(inherited, ls, i);
      match line {
        case Skip =>
        case Bad =>
          ErrorPersists(inherited, ls, i + 1);
          return Err(UnpackError);
        case Assign(key, value) =>
          env := env[key := value];
      }
      i := i + 1;
    }
    assert ls[..i] == ls;
    return Ok(env);
  }

  /** Once a prefix raises, all the lines raise with the same message. */
  lemma {:induction false} ErrorPersists(inherited: Env, ls: seq<Line>, n: nat)
    requires n <= |ls|
    requires Apply(inherited, ls[..n]).Err?
    ensures Apply(inherited, ls) == Apply(inherited, ls[..n])
    decreases |ls| - n
  {
    if n < |ls| {
      assert ls[..n + 1][..n] == ls[..n];
      ErrorPersists(inherited, ls, n + 1);
    } else {
      assert ls[..n] == ls;
    }
  }

  /** Loading fails, with the unpacking message, exactly when some line cannot be unpacked. */
  lemma {:induction false} LoadFailsIff(inherited: Env, ls: seq<Line>)
    ensures Apply(inherited, ls).Err? <==> Bad in ls
    ensures Apply(inherited, ls).Err? ==> Apply(inherited, ls).error == UnpackError
  {
    if ls != [] {
      var init := ls[..|ls| - 1];
      LoadFailsIff(inherited, init);
      assert ls == init + [ls[|ls| - 1]];
    }
  }

  /**
   * After a successful load, a key some line assigns holds the value of the last such line,
   * whatever was inherited or assigned before.
   */
  lemma {:induction false} LastAssignmentWins(inherited: Env, ls: seq<Line>, key: string, j: nat)
    requires Apply(inherited, ls).Ok?
    requires j < |ls| && ls[j].Assign? && ls[j].key == key
    requires forall m :: j < m < |ls| ==> !(ls[m].Assign? && ls[m].key == key)
    ensures key in Apply(inherited, ls).value
    ensures Apply(inherited, ls).value[key] == ls[j].value
  {
    var init := ls[..|ls| - 1];
    assert Apply(inherited, init).Ok?;
    if j < |ls| - 1 {
      assert init[j] == ls[j];
      assert forall m :: j < m < |init| ==> init[m] == ls[m];
      LastAssignmentWins(inherited, init, key, j);
    }
  }

  /** A key no line assigns is present, and valued, exactly as inherited. */
  lemma {:induction false} UnassignedKeyInherited(inherited: Env, ls: seq<Line>, key: string)
    requires Apply(inherited, ls).Ok?
    requires forall k :: 0 <= k < |ls| ==> !(ls[k].Assign? && ls[k].key == key)
    ensures key in Apply(inherited, ls).value <==> key in inherited
    ensures key in inherited ==> Apply(inherited, ls).value[key] == inherited[key]
  {
    if ls != [] {
      var init := ls[..|ls| - 1];
      assert Apply(inherited, init).Ok?;
      assert forall k :: 0 <= k < |init| ==> init[k] == ls[k];
      UnassignedKeyInherited(inherited, init, key);
    }
  }

  /** The loaded keys are the inherited ones and the assigned ones, nothing else. */
  lemma {:induction false} LoadedKeys(inherited: Env, ls: seq<Line>)
    requires Apply(inherited, ls).Ok?
    ensures Apply(inherited, ls).value.Keys
            == inherited.Keys + set k | 0 <= k < |ls| && ls[k].Assign? :: ls[k].key
  {
    if ls != [] {
      var init := ls[..|ls| - 1];
      assert Apply(inherited, init).Ok?;
      LoadedKeys(inherited, init);
      assert forall k :: 0 <= k < |init| ==> init[k] == ls[k];
      assert (set k | 0 <= k < |ls| && ls[k].Assign? :: ls[k].key)
          == (set k | 0 <= k < |init| && init[k].Assign? :: init[k].key)
             + (if ls[|ls| - 1].Assign? then {ls[|ls| - 1].key} else {});
    }
  }
}
