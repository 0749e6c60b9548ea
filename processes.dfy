/**
 * The process manager's bookkeeping: the fixed table of servers, their PID files, which of
 * them run, and the outcome of starting and stopping them. Process liveness, spawning and
 * signalling are answers of the operating system, passed in.
 */
module Processes {
  import opened Wrappers
  import opened Text
  import opened EnvFile

  /** The configured servers, in the order the manager walks them. */
  const ServerNames: seq<string> := ["weixin", "weather", "math", "write", "greeter"]

  function Script(name: string): string {
    if name == "weixin" then "weixin_server.py"
    else if name == "weather" then "weather_server.py"
    else if name == "math" then "math_server.py"
    else if name == "write" then "write_server.py"
    else "greeter_server.py"
  }

  /** Only the weather server is started with the environment loaded from `.env`. */
  predicate EnvRequired(name: string) {
    name == "weather"
  }

  /** No name occurs twice. */
  predicate Distinct(names: seq<string>) {
    forall a, b :: 0 <= a < b < |names| ==> names[a] != names[b]
  }

  lemma ServerNamesDistinct()
    ensures Distinct(ServerNames)
  {
    assert ServerNames[0][2] != ServerNames[1][2];
    assert ServerNames[0][0] != ServerNames[2][0] && ServerNames[0][1] != ServerNames[3][1]
        && ServerNames[0][0] != ServerNames[4][0];
    assert ServerNames[1][0] != ServerNames[2][0] && ServerNames[1][1] != ServerNames[3][1]
        && ServerNames[1][0] != ServerNames[4][0];
    assert ServerNames[2][0] != ServerNames[3][0] && ServerNames[2][0] != ServerNames[4][0];
    assert ServerNames[3][0] != ServerNames[4][0];
  }

  /** Walking one more name of a list: the prefix grows by that name, which it did not hold yet. */
  lemma PrefixNext(names: seq<string>, i: nat)
    requires Distinct(names) && i < |names|
    ensures names[..i + 1] == names[..i] + [names[i]]
    ensures names[i] !in names[..i]
  {
    assert names[..i + 1] == names[..i] + [names[i]];
  }

  /** The last name of a distinct list is not among the others, which are distinct too. */
  lemma DistinctInit(names: seq<string>)
    requires Distinct(names) && names != []
    ensures names == names[..|names| - 1] + [names[|names| - 1]]
    ensures names[|names| - 1] !in names[..|names| - 1]
    ensures Distinct(names[..|names| - 1])
  {
    assert names == names[..|names| - 1] + [names[|names| - 1]];
  }

  /** The configured table walked one more name: its prefix grows by a name it did not hold. */
  lemma ServerNamesNext(i: nat)
    requires i < |ServerNames|
    ensures ServerNames[..i + 1] == ServerNames[..i] + [ServerNames[i]]
    ensures ServerNames[i] !in ServerNames[..i]
  {
    ServerNamesDistinct();
    PrefixNext(ServerNames, i);
  }

  predicate AllDigits(s: string) {
    forall i :: 0 <= i < |s| ==> '0' <= s[i] <= '9'
  }

  /** The value of a string of decimal digits. */
  function DigitsValue(s: string): nat
    requires AllDigits(s)
  {
    if s == [] then 0 else DigitsValue(s[..|s| - 1]) * 10 + (s[|s| - 1] as int - '0' as int)
  }

  /** What `int` accepts once the text is stripped: an optional sign, then decimal digits. */
  predicate IsIntLiteral(t: string) {
    var digits := if t != [] && (t[0] == '-' || t[0] == '+') then t[1..] else t;
    digits != [] && AllDigits(digits)
  }

  /** `int(text.strip())`; None when it raises. */
  function ParsePid(text: string): (r: Option<int>)
    ensures r.Some? <==> IsIntLiteral(Strip(text))
    ensures r.Some? && r.value < 0 ==> Strip(text)[0] == '-'
  {
    var t := Strip(text);
    if t != [] && (t[0] == '-' || t[0] == '+') then
      if |t| > 1 && AllDigits(t[1..]) then
        Some(if t[0] == '-' then 0 - DigitsValue(t[1..]) else DigitsValue(t[1..]) as int)
      else None
    else if t != [] && AllDigits(t) then Some(DigitsValue(t))
    else None
  }

  lemma {:induction false} DigitsOfWritten(n: nat)
    ensures DigitsValue(NatToString(n)) == n
  {
    if n >= 10 {
      DigitsOfWritten(n / 10);
      assert NatToString(n)[..|NatToString(n)| - 1] == NatToString(n / 10);
    }
    var d := n % 10;
    assert Digit(d) as int - '0' as int == d by {
      assert 0 <= d < 10;
      if d == 0 {} else if d == 1 {} else if d == 2 {} else if d == 3 {} else if d == 4 {}
      else if d == 5 {} else if d == 6 {} else if d == 7 {} else if d == 8 {} else {}
    }
  }

  /** A PID file the manager wrote reads back as the PID it wrote. */
  lemma ParsePidOfWritten(pid: nat)
    ensures ParsePid(NatToString(pid)) == Some(pid)
  {
    var s := NatToString(pid);
    assert '0' <= s[0] <= '9' && '0' <= s[|s| - 1] <= '9';
    StripUnpadded(s);
    assert AllDigits(s);
    assert s[0] != '-' && s[0] != '+';
    DigitsOfWritten(pid);
    assert ParsePid(s) == Some(DigitsValue(s));
  }

  /** The PID files, by server name. */
  type Files = map<string, string>

  /** The server's PID file exists, parses, and names a live process. */
  predicate Live(files: Files, name: string, alive: int -> bool) {
    name in files && ParsePid(files[name]).Some? && alive(ParsePid(files[name]).value)
  }

  /** The servers among `names` whose PID file names a live process, with that PID. */
  function RunningAmong(names: seq<string>, files: Files, alive: int -> bool): map<string, int> {
    if names == [] then map[]
    else
      var prev := RunningAmong(names[..|names| - 1], files, alive);
      var name := names[|names| - 1];
      if Live(files, name, alive) then prev[name := ParsePid(files[name]).value] else prev
  }

  /** The PID files left once those of the `names` not running are deleted. */
  function PrunedAmong(names: seq<string>, files: Files, alive: int -> bool): Files {
    if names == [] then files
    else
      var prev := PrunedAmong(names[..|names| - 1], files, alive);
      var name := names[|names| - 1];
      if name in files && !Live(files, name, alive) then prev - {name} else prev
  }

  lemma {:induction false} RunningAmongIs(names: seq<string>, files: Files, alive: int -> bool)
    ensures forall n :: n in RunningAmong(names, files, alive) <==> n in names && Live(files, n, alive)
    ensures forall n :: n in RunningAmong(names, files, alive) ==>
              Live(files, n, alive) && RunningAmong(names, files, alive)[n] == ParsePid(files[n]).value
  {
    if names != [] {
      assert names == names[..|names| - 1] + [names[|names| - 1]];
      RunningAmongIs(names[..|names| - 1], files, alive);
    }
  }

  lemma {:induction false} PrunedAmongIs(names: seq<string>, files: Files, alive: int -> bool)
    ensures forall n :: n in PrunedAmong(names, files, alive) <==> n in files && (n in names ==> Live(files, n, alive))
    ensures forall n :: n in PrunedAmong(names, files, alive) ==> PrunedAmong(names, files, alive)[n] == files[n]
  {
    if names != [] {
      assert names == names[..|names| - 1] + [names[|names| - 1]];
      PrunedAmongIs(names[..|names| - 1], files, alive);
    }
  }

  /** Looking at one more name: it is added when it runs and its file deleted when it does not; a name not looked at yet still has its file. */
  lemma AmongNext(names: seq<string>, i: nat, files: Files, alive: int -> bool)
    requires i < |names| && names[i] !in names[..i]
    ensures RunningAmong(names[..i + 1], files, alive)
            == if Live(files, names[i], alive) then RunningAmong(names[..i], files, alive)[names[i] := ParsePid(files[names[i]]).value]
               else RunningAmong(names[..i], files, alive)
    ensures PrunedAmong(names[..i + 1], files, alive)
            == if names[i] in files && !Live(files, names[i], alive) then PrunedAmong(names[..i], files, alive) - {names[i]}
               else PrunedAmong(names[..i], files, alive)
    ensures names[i] in PrunedAmong(names[..i], files, alive) <==> names[i] in files
    ensures names[i] in files ==> PrunedAmong(names[..i], files, alive)[names[i]] == files[names[i]]
  {
    assert names[..i + 1][..i] == names[..i];
    PrunedAmongIs(names[..i], files, alive);
  }

  /** What `_get_running_servers` answers. */
  function Running(files: Files, alive: int -> bool): (r: map<string, int>)
    ensures forall n :: n in r <==> n in ServerNames && Live(files, n, alive)
    ensures forall n :: n in r ==> Live(files, n, alive) && r[n] == ParsePid(files[n]).value
  {
    RunningAmongIs(ServerNames, files, alive);
    RunningAmong(ServerNames, files, alive)
  }

  /** The PID files `_get_running_servers` leaves behind. */
  function Pruned(files: Files, alive: int -> bool): (r: Files)
    ensures forall n :: n in r <==> n in files && (n in ServerNames ==> Live(files, n, alive))
    ensures forall n :: n in r ==> r[n] == files[n]
  {
    PrunedAmongIs(ServerNames, files, alive);
    PrunedAmong(ServerNames, files, alive)
  }

  /** Pruning keeps exactly the running servers' files and changes nobody's liveness. */
  lemma PruneKeepsRunning(files: Files, alive: int -> bool)
    ensures forall n :: Live(Pruned(files, alive), n, alive) <==> Live(files, n, alive)
    ensures Running(Pruned(files, alive), alive) == Running(files, alive)
    ensures Pruned(Pruned(files, alive), alive) == Pruned(files, alive)
  {
  }

  /** A spawn attempt: it raised before a process existed, or it gave a PID. */
  datatype Spawn = SpawnFailed | Spawned(pid: nat, survives: bool)

  /**
   * The operating system's answers: whether a PID is alive, which scripts exist, what
   * spawning a server gives (`survives` is the liveness check a second later), and whether
   * signalling a process raises.
   */
  datatype Os = Os(alive: int -> bool, scripts: set<string>, spawn: string -> Spawn, signalFails: int -> bool)

  /** A process started: for which server, with which script and which environment. */
  datatype Launch = Launch(name: string, script: string, env: Env)

  datatype State = State(files: Files, launched: seq<Launch>)

  datatype Step = Step(ok: bool, state: State)

  /** The server already runs, or its script exists and the process it spawns stays up. */
  predicate Startable(files: Files, name: string, os: Os) {
    Live(files, name, os.alive) || (Script(name) in os.scripts && os.spawn(name).Spawned? && os.spawn(name).survives)
  }

  /**
   * `start_server`: refuses an unknown name; otherwise prunes the PID files, reports a
   * running server as started, and else spawns its script, recording the PID.
   */
  function StartStep(name: string, st: State, env: Env, inherited: Env, os: Os): (s: Step)
    ensures s.ok <==> name in ServerNames && Startable(st.files, name, os)
    ensures name !in ServerNames ==> s.state == st
    ensures name in ServerNames && Live(st.files, name, os.alive) ==>
              s.ok && s.state == State(Pruned(st.files, os.alive), st.launched)
    ensures name in ServerNames && !Live(st.files, name, os.alive)
            && !(Script(name) in os.scripts && os.spawn(name).Spawned?) ==>
              !s.ok && s.state == State(Pruned(st.files, os.alive), st.launched)
    ensures name in ServerNames && !Live(st.files, name, os.alive)
            && Script(name) in os.scripts && os.spawn(name).Spawned? ==>
              && s.ok == os.spawn(name).survives
              && s.state == State(Pruned(st.files, os.alive)[name := NatToString(os.spawn(name).pid)],
                                  st.launched + [Launch(name, Script(name), if EnvRequired(name) then env else inherited)])
  {
    if name !in ServerNames then Step(false, st)
    else
      var files := Pruned(st.files, os.alive);
      if Live(st.files, name, os.alive) then Step(true, State(files, st.launched))
      else if Script(name) !in os.scripts then Step(false, State(files, st.launched))
      else match os.spawn(name)
        case SpawnFailed => Step(false, State(files, st.launched))
        case Spawned(pid, survives) =>
          Step(survives, State(files[name := NatToString(pid)],
                               st.launched + [Launch(name, Script(name), if EnvRequired(name) then env else inherited)]))
  }

  /** After a successful start the server has a PID file naming a process. */
  lemma StartedHasPidFile(name: string, st: State, env: Env, inherited: Env, os: Os)
    requires StartStep(name, st, env, inherited, os).ok
    ensures var files := StartStep(name, st, env, inherited, os).state.files;
      name in files && ParsePid(files[name]).Some?
  {
    if !Live(st.files, name, os.alive) {
      ParsePidOfWritten(os.spawn(name).pid);
    }
  }

  /** Only a spawn launches anything, and only the weather server gets the loaded environment. */
  lemma LaunchUsesRequiredEnv(name: string, st: State, env: Env, inherited: Env, os: Os)
    ensures var s := StartStep(name, st, env, inherited, os);
      s.state.launched == st.launched
      || s.state.launched == st.launched + [Launch(name, Script(name), if name == "weather" then env else inherited)]
  {
  }

  datatype Progress = Progress(count: nat, state: State)

  /** Starting each of `names` in turn, counting the successes. */
  function StartsUpTo(names: seq<string>, st: State, env: Env, inherited: Env, os: Os): Progress {
    if names == [] then Progress(0, st)
    else
      var prev := StartsUpTo(names[..|names| - 1], st, env, inherited, os);
      var s := StartStep(names[|names| - 1], prev.state, env, inherited, os);
      Progress(prev.count + (if s.ok then 1 else 0), s.state)
  }

  /** Starting one server leaves every other server's liveness as it was. */
  lemma StartStepKeepsOthers(name: string, st: State, env: Env, inherited: Env, os: Os)
    ensures forall n :: n != name ==>
              (Live(StartStep(name, st, env, inherited, os).state.files, n, os.alive) <==> Live(st.files, n, os.alive))
  {
    PruneKeepsRunning(st.files, os.alive);
  }

  /** Starting one more name of the list. */
  lemma StartsUpToNext(names: seq<string>, i: nat, st: State, env: Env, inherited: Env, os: Os)
    requires i < |names|
    ensures var prev := StartsUpTo(names[..i], st, env, inherited, os);
      var s := StartStep(names[i], prev.state, env, inherited, os);
      StartsUpTo(names[..i + 1], st, env, inherited, os) == Progress(prev.count + (if s.ok then 1 else 0), s.state)
  {
    assert names[..i + 1][..i] == names[..i];
  }

  /** Along the walk, the servers not yet started keep their liveness. */
  lemma {:induction false} StartsUpToKeepsRest(names: seq<string>, st: State, env: Env, inherited: Env, os: Os)
    ensures forall n :: n !in names ==>
              (Live(StartsUpTo(names, st, env, inherited, os).state.files, n, os.alive) <==> Live(st.files, n, os.alive))
  {
    if names != [] {
      var init := names[..|names| - 1];
      StartsUpToKeepsRest(init, st, env, inherited, os);
      assert names == init + [names[|names| - 1]];
      var prev := StartsUpTo(init, st, env, inherited, os);
      StartStepKeepsOthers(names[|names| - 1], prev.state, env, inherited, os);
    }
  }

  /** The count reaches the number of names walked exactly when each of them was configured and startable. */
  lemma {:induction false} StartsUpToCount(names: seq<string>, st: State, env: Env, inherited: Env, os: Os)
    requires Distinct(names)
    ensures StartsUpTo(names, st, env, inherited, os).count <= |names|
    ensures StartsUpTo(names, st, env, inherited, os).count == |names|
            <==> forall k :: 0 <= k < |names| ==> names[k] in ServerNames && Startable(st.files, names[k], os)
  {
    if names != [] {
      var init := names[..|names| - 1];
      var name := names[|names| - 1];
      DistinctInit(names);
      StartsUpToCount(init, st, env, inherited, os);
      StartsUpToKeepsRest(init, st, env, inherited, os);
      var prev := StartsUpTo(init, st, env, inherited, os);
      assert Startable(prev.state.files, name, os) <==> Startable(st.files, name, os);
      assert forall k :: 0 <= k < |init| ==> init[k] == names[k];
    }
  }

  /** `start_all` succeeds exactly when every configured server could be started. */
  lemma StartAllIff(st: State, env: Env, inherited: Env, os: Os)
    ensures StartsUpTo(ServerNames, st, env, inherited, os).count == |ServerNames|
            <==> forall n :: n in ServerNames ==> Startable(st.files, n, os)
  {
    ServerNamesDistinct();
    StartsUpToCount(ServerNames, st, env, inherited, os);
  }

  datatype Stopped = Stopped(ok: bool, files: Files)

  /**
   * `stop_server`: refuses an unknown name; a server without a PID file counts as stopped;
   * otherwise the file is deleted, and the stop fails when it does not parse or when
   * signalling its live process raises.
   */
  function StopStep(name: string, files: Files, os: Os): (s: Stopped)
    ensures name in ServerNames ==> name !in s.files
    ensures forall n :: n != name ==> (n in s.files <==> n in files) && (n in s.files ==> s.files[n] == files[n])
    ensures name in ServerNames && name !in files ==> s.ok
    ensures name !in ServerNames ==> !s.ok
    ensures name in ServerNames && name in files ==>
              (s.ok <==> ParsePid(files[name]).Some?
                         && !(os.alive(ParsePid(files[name]).value) && os.signalFails(ParsePid(files[name]).value)))
  {
    if name !in ServerNames then Stopped(false, files)
    else if name !in files then Stopped(true, files)
    else match ParsePid(files[name])
      case None => Stopped(false, files - {name})
      case Some(pid) => Stopped(!(os.alive(pid) && os.signalFails(pid)), files - {name})
  }

  /** How many of `names` are keys of `running`. */
  function CountIn(names: seq<string>, keys: set<string>): nat {
    if names == [] then 0
    else CountIn(names[..|names| - 1], keys) + (if names[|names| - 1] in keys then 1 else 0)
  }

  /** Stopping each of `names` that is running, in turn, counting the successes. */
  function StopsUpTo(names: seq<string>, running: map<string, int>, files: Files, os: Os): (p: Stopped)
  {
    if names == [] then Stopped(true, files)
    else
      var prev := StopsUpTo(names[..|names| - 1], running, files, os);
      var name := names[|names| - 1];
      if name in running then
        var s := StopStep(name, prev.files, os);
        Stopped(prev.ok && s.ok, s.files)
      else prev
  }

  /** One more name walked: the count grows by whether it runs, and the walk takes one stop step. */
  lemma StopWalkStep(names: seq<string>, i: nat, running: map<string, int>, files: Files, os: Os)
    requires i < |names|
    ensures CountIn(names[..i + 1], running.Keys)
            == CountIn(names[..i], running.Keys) + (if names[i] in running then 1 else 0)
    ensures var prev := StopsUpTo(names[..i], running, files, os);
      var step := StopStep(names[i], prev.files, os);
      StopsUpTo(names[..i + 1], running, files, os)
        == if names[i] in running then Stopped(prev.ok && step.ok, step.files) else prev
  {
    assert names[..i + 1][..i] == names[..i];
  }

  /** `stop_all`: nothing running is success; otherwise every running server must stop. */
  function StopAllOutcome(files: Files, os: Os): Stopped {
    var running := Running(files, os.alive);
    var pruned := Pruned(files, os.alive);
    if running == map[] then Stopped(true, pruned)
    else StopsUpTo(ServerNames, running, pruned, os)
  }

  /** What `_get_running_servers` hands to the stop walk: each running server's file parses to its live PID. */
  predicate RunningMatches(running: map<string, int>, files: Files, os: Os) {
    forall n :: n in running ==> n in files && ParsePid(files[n]) == Some(running[n]) && os.alive(running[n])
  }

  /** Along the stop walk, the servers not yet walked keep their PID files. */
  lemma {:induction false} StopsUpToKeeps(names: seq<string>, running: map<string, int>, files: Files, os: Os)
    ensures var after := StopsUpTo(names, running, files, os).files;
      forall n :: n !in names ==> (n in after <==> n in files) && (n in after ==> after[n] == files[n])
  {
    if names != [] {
      var init := names[..|names| - 1];
      assert names == init + [names[|names| - 1]];
      StopsUpToKeeps(init, running, files, os);
    }
  }

  /** Along the stop walk, a configured server walked past has no PID file, unless it had one and did not run. */
  lemma {:induction false} StopsUpToClears(names: seq<string>, running: map<string, int>, files: Files, os: Os)
    requires forall n :: n in names ==> n in ServerNames && (n in files ==> n in running)
    ensures forall n :: n in names ==> n !in StopsUpTo(names, running, files, os).files
  {
    if names != [] {
      var init := names[..|names| - 1];
      var name := names[|names| - 1];
      assert names == init + [name];
      StopsUpToClears(init, running, files, os);
      StopsUpToKeeps(init, running, files, os);
    }
  }

  /** The stop walk succeeds exactly when no running server it passed failed to be signalled. */
  lemma {:induction false} StopsUpToOk(names: seq<string>, running: map<string, int>, files: Files, os: Os)
    requires RunningMatches(running, files, os) && Distinct(names)
    requires forall k :: 0 <= k < |names| ==> names[k] in ServerNames
    ensures StopsUpTo(names, running, files, os).ok
            <==> forall k :: 0 <= k < |names| && names[k] in running ==> !os.signalFails(running[names[k]])
  {
    if names != [] {
      var init := names[..|names| - 1];
      var name := names[|names| - 1];
      DistinctInit(names);
      assert forall k :: 0 <= k < |init| ==> init[k] == names[k];
      StopsUpToOk(init, running, files, os);
      StopsUpToKeeps(init, running, files, os);
    }
  }

  /**
   * `stop_all` succeeds exactly when signalling none of the running servers raises, and
   * afterwards no configured server has a PID file; other files are left alone.
   */
  lemma StopAllIff(files: Files, os: Os)
    ensures StopAllOutcome(files, os).ok
            <==> forall n :: n in Running(files, os.alive) ==> !os.signalFails(Running(files, os.alive)[n])
    ensures forall n :: n in ServerNames ==> n !in StopAllOutcome(files, os).files
    ensures forall n :: n !in ServerNames ==>
              (n in StopAllOutcome(files, os).files <==> n in files)
  {
    var running := Running(files, os.alive);
    var pruned := Pruned(files, os.alive);
    assert RunningMatches(running, pruned, os);
    if running != map[] {
      ServerNamesDistinct();
      StopsUpToOk(ServerNames, running, pruned, os);
      StopsUpToClears(ServerNames, running, pruned, os);
      StopsUpToKeeps(ServerNames, running, pruned, os);
    }
  }

  /** Removing a name that does not occur in the list changes no count over it. */
  lemma {:induction false} CountInIgnores(names: seq<string>, keys: set<string>, x: string)
    requires x !in names
    ensures CountIn(names, keys - {x}) == CountIn(names, keys)
  {
    if names != [] {
      var init := names[..|names| - 1];
      assert names == init + [names[|names| - 1]];
      CountInIgnores(init, keys, x);
    }
  }

  /** Over distinct names that include every key, the count is the number of keys. */
  lemma {:induction false} CountInKeys(names: seq<string>, keys: set<string>)
    requires Distinct(names)
    requires forall n :: n in keys ==> n in names
    ensures CountIn(names, keys) == |keys|
  {
    if names == [] {
      assert keys == {};
    } else {
      var init := names[..|names| - 1];
      var name := names[|names| - 1];
      DistinctInit(names);
      var rest := keys - {name};
      CountInKeys(init, rest);
      CountInIgnores(init, keys, name);
    }
  }

  /** A map of configured servers has as many entries as configured names that are its keys. */
  lemma RunningCount(running: map<string, int>)
    requires forall n :: n in running ==> n in ServerNames
    ensures CountIn(ServerNames, running.Keys) == |running|
  {
    ServerNamesDistinct();
    CountInKeys(ServerNames, running.Keys);
  }

  /** The status entries of the first `names`. */
  function StatusAmong(names: seq<string>, running: map<string, int>): map<string, Option<int>> {
    map n | n in names :: if n in running then Some(running[n]) else None
  }

  lemma StatusAmongStep(names: seq<string>, name: string, running: map<string, int>)
    ensures StatusAmong(names + [name], running)
            == StatusAmong(names, running)[name := if name in running then Some(running[name]) else None]
  {
    assert forall n :: n in names + [name] <==> n in names || n == name;
  }

  /** What `status` reports for each configured server: its PID when running, else None. */
  function StatusOf(running: map<string, int>): (status: map<string, Option<int>>)
    ensures forall n :: n in status <==> n in ServerNames
    ensures forall n :: n in status ==> (status[n].None? <==> n !in running)
    ensures forall n :: n in status && n in running ==> status[n] == Some(running[n])
  {
    StatusAmong(ServerNames, running)
  }

  class ProcessManager {
    /** `os.environ` as the manager found it. */
    const inherited: Env
    /** The environment with `.env` applied, given to servers that require it. */
    const env: Env
    var pidFiles: Files
    var launched: seq<Launch>

    constructor(inherited: Env, env: Env, pidFiles: Files)
      ensures this.inherited == inherited && this.env == env && this.pidFiles == pidFiles && launched == []
    {
      this.inherited := inherited;
      this.env := env;
      this.pidFiles := pidFiles;
      launched := [];
    }

    /** `ProcessManager()`: loading the `.env` file raises on a line without `=`. */
    static method Create(inherited: Env, envFile: Option<seq<string>>, pidFiles: Files)
      returns (r: Result<ProcessManager, string>)
      ensures envFile.None? ==> r.Ok? && r.value.env == inherited
      ensures envFile.Some? ==> (r.Ok? <==> Loaded(inherited, envFile.value).Ok?)
      ensures envFile.Some? && r.Ok? ==> r.value.env == Loaded(inherited, envFile.value).value
      ensures r.Err? ==> r.error == UnpackError
      ensures r.Ok? ==> fresh(r.value) && r.value.inherited == inherited && r.value.pidFiles == pidFiles
                        && r.value.launched == []
    {
      var loaded := LoadEnv(inherited, envFile);
      if loaded.Err? {
        LoadFailsIff(inherited, Parsed(envFile.value));
        return Err(loaded.error);
      }
      var m := new ProcessManager(inherited, loaded.value, pidFiles);
      return Ok(m);
    }

    /**
     * `_get_running_servers`: the configured servers whose PID file parses and names a live
     * process; the PID files of the others are deleted.
     */
    method GetRunningServers(alive: int -> bool) returns (running: map<string, int>)
      modifies this
      ensures running == Running(old(pidFiles), alive)
      ensures pidFiles == Pruned(old(pidFiles), alive)
      ensures launched == old(launched)
    {
      ghost var files := pidFiles;
      running := map[];
      var i := 0;
      while i < |ServerNames|
        invariant i <= |ServerNames|
        invariant running == RunningAmong(ServerNames[..i], files, alive)
        invariant pidFiles == PrunedAmong(ServerNames[..i], files, alive)
        invariant launched == old(launched)
      {
        var name := ServerNames[i];
        ServerNamesNext(i);
        AmongNext(ServerNames, i, files, alive);
        if name in pidFiles {
          var pid := ParsePid(pidFiles[name]);
          if pid.Some? && alive(pid.value) {
            running := running[name := pid.value];
          } else {
            pidFiles := pidFiles - {name};
          }
        }
        i := i + 1;
      }
      assert ServerNames[..i] == ServerNames;
    }

    /** `status`: every configured server, with its PID when it runs. */
    method Status(alive: int -> bool) returns (status: map<string, Option<int>>)
      modifies this
      ensures status == StatusOf(Running(old(pidFiles), alive))
      ensures pidFiles == Pruned(old(pidFiles), alive) && launched == old(launched)
    {
      var running := GetRunningServers(alive);
      ghost var after := pidFiles;
      status := map[];
      var i := 0;
      while i < |ServerNames|
        invariant i <= |ServerNames|
        invariant pidFiles == after && launched == old(launched)
        invariant status == StatusAmong(ServerNames[..i], running)
      {
        var name := ServerNames[i];
        ServerNamesNext(i);
        StatusAmongStep(ServerNames[..i], name, running);
        status := status[name := if name in running then Some(running[name]) else None];
        i := i + 1;
      }
      assert ServerNames[..i] == ServerNames;
    }

    /** `start_server` */
    method StartServer(name: string, os: Os) returns (ok: bool)
      modifies this
      ensures Step(ok, State(pidFiles, launched)) == StartStep(name, old(State(pidFiles, launched)), env, inherited, os)
    {
      if name !in ServerNames {
        return false;
      }
      ghost var before := State(pidFiles, launched);
      var running := GetRunningServers(os.alive);
      if name in running {
        return true;
      }
      if Script(name) !in os.scripts {
        return false;
      }
      var childEnv := if EnvRequired(name) then env else inherited;
      match os.spawn(name) {
        case SpawnFailed =>
          return false;
        case Spawned(pid, survives) =>
          launched := launched + [Launch(name, Script(name), childEnv)];
          pidFiles := pidFiles[name := NatToString(pid)];
          return survives;
      }
    }

    /** `stop_server` */
    method StopServer(name: string, os: Os) returns (ok: bool)
      modifies this
      ensures Stopped(ok, pidFiles) == StopStep(name, old(pidFiles), os)
      ensures launched == old(launched)
    {
      if name !in ServerNames {
        return false;
      }
      if name !in pidFiles {
        return true;
      }
      var pid := ParsePid(pidFiles[name]);
      pidFiles := pidFiles - {name};
      if pid.None? {
        return false;
      }
      if os.alive(pid.value) && os.signalFails(pid.value) {
        return false;
      }
      return true;
    }

    /** `start_all`: starts every configured server and succeeds when all of them started. */
    method StartAll(os: Os) returns (ok: bool)
      modifies this
      ensures ok <==> forall n :: n in ServerNames ==> Startable(old(pidFiles), n, os)
      ensures State(pidFiles, launched) == StartsUpTo(ServerNames, old(State(pidFiles, launched)), env, inherited, os).state
    {
      ghost var st := State(pidFiles, launched);
      var successCount := 0;
      var i := 0;
      while i < |ServerNames|
        invariant i <= |ServerNames|
        invariant successCount == StartsUpTo(ServerNames[..i], st, env, inherited, os).count
        invariant State(pidFiles, launched) == StartsUpTo(ServerNames[..i], st, env, inherited, os).state
      {
        StartsUpToNext(ServerNames, i, st, env, inherited, os);
        var started := StartServer(ServerNames[i], os);
        if started {
          successCount := successCount + 1;
        }
        i := i + 1;
      }
      assert ServerNames[..i] == ServerNames;
      StartAllIff(st, env, inherited, os);
      ok := successCount == |ServerNames|;
    }

    /** The loop of `stop_all`: stops each running server, in configuration order, counting the stops. */
    method StopEach(running: map<string, int>, os: Os) returns (successCount: nat)
      modifies this
      ensures successCount <= CountIn(ServerNames, running.Keys)
      ensures successCount == CountIn(ServerNames, running.Keys) <==> StopsUpTo(ServerNames, running, old(pidFiles), os).ok
      ensures pidFiles == StopsUpTo(ServerNames, running, old(pidFiles), os).files
      ensures launched == old(launched)
    {
      ghost var files := pidFiles;
      successCount := 0;
      var i := 0;
      while i < |ServerNames|
        invariant i <= |ServerNames|
        invariant successCount <= CountIn(ServerNames[..i], running.Keys)
        invariant successCount == CountIn(ServerNames[..i], running.Keys)
                  <==> StopsUpTo(ServerNames[..i], running, files, os).ok
        invariant pidFiles == StopsUpTo(ServerNames[..i], running, files, os).files
        invariant launched == old(launched)
      {
        var name := ServerNames[i];
        StopWalkStep(ServerNames, i, running, files, os);
        if name in running {
          var stopped := StopServer(name, os);
          if stopped {
            successCount := successCount + 1;
          }
        }
        i := i + 1;
      }
      assert ServerNames[..i] == ServerNames;
    }

    /**
     * `stop_all`: with nothing running it succeeds at once; otherwise it stops each running
     * server and succeeds when the count of stops equals the count of running servers.
     */
    method StopAll(os: Os) returns (ok: bool)
      modifies this
      ensures Stopped(ok, pidFiles) == StopAllOutcome(old(pidFiles), os)
      ensures launched == old(launched)
    {
      var running := GetRunningServers(os.alive);
      if running == map[] {
        return true;
      }
      var successCount := StopEach(running, os);
      RunningCount(running);
      ok := successCount == |running|;
    }
  }
}
