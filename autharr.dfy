/** cmd/autharr/main.go: print the API token of an *arr configuration file,
    once or every time the file settles after an edit.

    Writes to stdout and to the filesystem are effects recorded in a trace;
    whether each one fails is an input (`IoResults`). The watcher's output
    channels are seen from the consumer's side, as the events its `select`
    receives.
 */
module Autharr {
  import opened Domain
  import ConfigFile

  /** An attempted output step, in the order the program attempts them. */
  datatype Effect =
    | Stdout(data: string)                   // fmt.Fprintf(os.Stdout, "%s", token)
    | MkdirAll(dir: string)                  // os.MkdirAll(dir, 0755)
    | CreateFile(path: string)               // os.Create(path)
    | WriteString(path: string, data: string) // f.WriteString(token)

  /** Whether each output step would succeed. */
  datatype IoResults = IoResults(stdout: Outcome, mkdirAll: Outcome, create: Outcome, writeString: Outcome)

  /** Still in the loop, returned with an error value (nil is `Pass`), or
      crashed by a panic. */
  datatype Status = Running | Returned(err: Outcome) | Panicked

  /** What an output attempt did: the steps tried and how it ended. */
  datatype Commit = Commit(trace: seq<Effect>, status: Status)

  /** filepath.Dir without its final Clean: everything before the last slash,
      "/" for a name directly under the root, "." when there is no slash. */
  function Dir(path: string): (d: string)
    ensures '/' !in path ==> d == "."
    ensures '/' in path && path[0] == '/' && '/' !in path[1..] ==> d == "/"
    ensures '/' in path ==>
      || (d == "/" && path[0] == '/' && '/' !in path[1..])
      || (|d| < |path| && d == path[..|d|] && path[|d|] == '/' && '/' !in path[|d| + 1..])
    decreases |path|
  {
    if |path| == 0 then "."
    else if path[|path| - 1] == '/' then (if |path| == 1 then "/" else path[..|path| - 1])
    else
      var init := path[..|path| - 1];
      assert '/' in path ==> '/' in init;
      DropLastSlices(path);
      Dir(init)
  }

  lemma DropLastSlices(path: string)
    requires |path| > 0
    ensures forall k :: 0 <= k < |path| ==> path[k..] == path[..|path| - 1][k..] + [path[|path| - 1]]
  {
    forall k | 0 <= k < |path|
      ensures path[k..] == path[..|path| - 1][k..] + [path[|path| - 1]]
    {
    }
  }

  /** `dest` is args[1] when there are exactly two arguments, else empty. */
  function Destination(args: seq<string>): (d: string)
    ensures |args| != 2 ==> d == ""
    ensures d != "" ==> |args| == 2 && d == args[1]
  {
    if |args| == 2 then args[1] else ""
  }

  /** writeConfig(config, dest). A nil config is dereferenced only when the
      token is needed: at once for stdout, after MkdirAll and Create for a file. */
  function WriteConfig(config: Option<Config>, dest: string, io: IoResults): (c: Commit)
    ensures c.status == Panicked <==> config.None? && (|dest| == 0 || (io.mkdirAll.Pass? && io.create.Pass?))
    ensures config.Some? ==> 1 <= |c.trace|
    ensures |dest| > 0 ==> 1 <= |c.trace| && c.trace[0] == MkdirAll(Dir(dest))
  {
    if |dest| == 0 then
      if config.None? then Commit([], Panicked)
      else Commit([Stdout(config.value.api.token)], Returned(io.stdout))
    else
      var made := [MkdirAll(Dir(dest))];
      if io.mkdirAll.Fail? then Commit(made, Returned(io.mkdirAll))
      else
        var created := made + [CreateFile(dest)];
        if io.create.Fail? then Commit(created, Returned(io.create))
        else if config.None? then Commit(created, Panicked)
        else Commit(created + [WriteString(dest, config.value.api.token)], Returned(io.writeString))
  }

  /** The reference for a sequence of fallible steps: attempt them in order and
      stop at the first failure, returning its error. */
  function Sequenced(plan: seq<Effect>, outcomes: seq<Outcome>): (c: Commit)
    requires |plan| == |outcomes|
    ensures c.status.Returned?
    ensures |c.trace| <= |plan| && c.trace == plan[..|c.trace|]
    ensures c.status.err.Fail? <==> exists i :: 0 <= i < |outcomes| && outcomes[i].Fail?
    ensures forall i :: 0 <= i < |outcomes| && outcomes[i].Fail? && (forall j :: 0 <= j < i ==> outcomes[j].Pass?) ==>
      c == Commit(plan[..i + 1], Returned(outcomes[i]))
    ensures (forall i :: 0 <= i < |outcomes| ==> outcomes[i].Pass?) ==> c == Commit(plan, Returned(Pass))
    decreases |plan|
  {
    if plan == [] then Commit([], Returned(Pass))
    else if outcomes[0].Fail? then Commit([plan[0]], Returned(outcomes[0]))
    else
      var rest := Sequenced(plan[1..], outcomes[1..]);
      assert forall i :: 1 <= i < |outcomes| ==> outcomes[i] == outcomes[1..][i - 1];
      assert forall i :: 1 <= i < |plan| ==> [plan[0]] + plan[1..][..i] == plan[..i + 1];
      assert [plan[0]] + plan[1..] == plan;
      Commit([plan[0]] + rest.trace, rest.status)
  }

  /** The steps writeConfig means to take for a record and a destination. */
  function Plan(token: string, dest: string): seq<Effect>
  {
    if |dest| == 0 then [Stdout(token)]
    else [MkdirAll(Dir(dest)), CreateFile(dest), WriteString(dest, token)]
  }

  function PlanOutcomes(dest: string, io: IoResults): seq<Outcome>
  {
    if |dest| == 0 then [io.stdout] else [io.mkdirAll, io.create, io.writeString]
  }

  /** With a record present, writeConfig writes exactly the token (no newline)
      to stdout, or ensures the parent directory, creates the file and writes
      the token into it; it stops at the first failing step and returns that
      step's error. */
  lemma WriteConfigIsSequenced(config: Config, dest: string, io: IoResults)
    ensures WriteConfig(Some(config), dest, io) == Sequenced(Plan(config.api.token, dest), PlanOutcomes(dest, io))
  {
    var plan, outs := Plan(config.api.token, dest), PlanOutcomes(dest, io);
    if |dest| > 0 {
      assert plan[1..] == [CreateFile(dest), WriteString(dest, config.api.token)];
      assert plan[1..][1..] == [WriteString(dest, config.api.token)];
      assert outs[1..] == [io.create, io.writeString];
      assert outs[1..][1..] == [io.writeString];
      var last := Sequenced(plan[1..][1..], outs[1..][1..]);
      assert last == Commit([WriteString(dest, config.api.token)], Returned(io.writeString)) by {
        assert plan[1..][1..][1..] == [] && outs[1..][1..][1..] == [];
      }
    } else {
      assert plan[1..] == [] && outs[1..] == [];
    }
  }

  /** runSingle(args): read, then write to the chosen destination. A read
      error is returned before anything is written. */
  function RunSingle(args: seq<string>, file: Result<string>, codecs: ConfigFile.Codecs, io: IoResults): (c: Commit)
    requires |args| >= 1
    ensures c.status.Returned?
    ensures c.trace == [] <==> ConfigFile.ReadConfig(args[0], file, codecs).Err?
  {
    match ConfigFile.ReadConfig(args[0], file, codecs)
    case Err(e) => Commit([], Returned(Fail(e)))
    case Ok(config) => WriteConfig(Some(config), Destination(args), io)
  }

  lemma RunSingleOutcomes(args: seq<string>, file: Result<string>, codecs: ConfigFile.Codecs, io: IoResults)
    requires |args| >= 1
    ensures var r := ConfigFile.ReadConfig(args[0], file, codecs);
      && (r.Err? ==> RunSingle(args, file, codecs, io) == Commit([], Returned(Fail(r.error))))
      && (r.Ok? ==> RunSingle(args, file, codecs, io) == Sequenced(Plan(r.value.api.token, Destination(args)), PlanOutcomes(Destination(args), io)))
    ensures Destination(args) != "" <==> |args| == 2 && args[1] != ""
    ensures RunSingle(args, file, codecs, io).status != Panicked
  {
    var r := ConfigFile.ReadConfig(args[0], file, codecs);
    if r.Ok? {
      WriteConfigIsSequenced(r.value, Destination(args), io);
    }
  }

  // ---------------------------------------------------------------------------
  // runWatch
  // ---------------------------------------------------------------------------

  /** What runWatch's `select` can receive. */
  datatype SyncEvent =
    | Cancel                   // <-cmd.Context().Done()
    | ErrRecv(err: Error)      // an error from the watcher
    | ErrClosed                // the watcher's error channel was closed
    | TimerFire(io: IoResults) // <-timer.C, with the outcomes of the write it triggers
    | ConfigRecv(config: Config)
    | ConfigClosed             // a receive from the closed config channel yields nil

  /** The loop's variables: the cached record, whether the timer runs, and
      the effects and log lines produced so far. */
  datatype SyncState = SyncState(status: Status, cached: Option<Config>, armed: bool, trace: seq<Effect>, log: seq<Error>)

  /** The state when the loop starts, after the initial runSingle; its error,
      if any, is returned at once. The timer is created and drained, and the
      cache starts out nil. */
  function SyncStart(initial: Commit): (s: SyncState)
    ensures initial.status != Running ==> (s.status == Running <==> initial.status == Returned(Pass))
    ensures s.status != Running ==> s.status == initial.status
    ensures s.cached == None && !s.armed && s.log == [] && s.trace == initial.trace
  {
    var status := if initial.status == Returned(Pass) then Running else initial.status;
    SyncState(status, None, false, initial.trace, [])
  }

  function SyncStep(dest: string, s: SyncState, ev: SyncEvent): (t: SyncState)
    ensures s.status != Running ==> t == s
    ensures |s.trace| <= |t.trace| && t.trace[..|s.trace|] == s.trace
    ensures !ev.TimerFire? ==> t.trace == s.trace
    ensures |s.log| <= |t.log| <= |s.log| + 1 && t.log[..|s.log|] == s.log
    ensures s.status == Running && t.status.Returned? ==> ev.Cancel? || ev.ErrClosed?
    ensures s.status == Running && t.status == Panicked ==> ev.TimerFire? && s.armed && s.cached.None?
  {
    if s.status != Running then s
    else
      match ev
      case Cancel => s.(status := Returned(Pass))
      case ErrRecv(e) => s.(log := s.log + [e])
      case ErrClosed => s.(status := Returned(Fail(ErrorChannelClosed)))
      case TimerFire(io) =>
        if !s.armed then s
        else
          var c := WriteConfig(s.cached, dest, io);
          if c.status == Panicked then s.(armed := false, trace := s.trace + c.trace, status := Panicked)
          else if c.status == Returned(Pass) then s.(armed := false, trace := s.trace + c.trace)
          else s.(armed := false, trace := s.trace + c.trace, log := s.log + [c.status.err.error])
      case ConfigRecv(c) => s.(cached := Some(c), armed := true)
      case ConfigClosed => s.(cached := None, armed := true)
  }

  function SyncRun(dest: string, s: SyncState, events: seq<SyncEvent>): SyncState
    decreases |events|
  {
    if events == [] then s
    else SyncStep(dest, SyncRun(dest, s, events[..|events| - 1]), events[|events| - 1])
  }

  lemma {:induction false} SyncRunAppend(dest: string, s: SyncState, a: seq<SyncEvent>, b: seq<SyncEvent>)
    ensures SyncRun(dest, s, a + b) == SyncRun(dest, SyncRun(dest, s, a), b)
    decreases |b|
  {
    if b == [] {
      assert a + b == a;
    } else {
      assert (a + b)[..|a + b| - 1] == a + b[..|b| - 1];
      SyncRunAppend(dest, s, a, b[..|b| - 1]);
    }
  }

  lemma {:induction false} SyncStoppedIsFinal(dest: string, s: SyncState, events: seq<SyncEvent>)
    requires s.status != Running
    ensures SyncRun(dest, s, events) == s
    decreases |events|
  {
    if events != [] {
      SyncStoppedIsFinal(dest, s, events[..|events| - 1]);
    }
  }

  /** runWatch over a finite prefix of what its `select` receives. */
  method RunWatch(args: seq<string>, file: Result<string>, codecs: ConfigFile.Codecs, io: IoResults, events: seq<SyncEvent>)
    returns (s: SyncState)
    requires |args| >= 1
    ensures s == SyncRun(Destination(args), SyncStart(RunSingle(args, file, codecs, io)), events)
  {
    var initial := RunSingle(args, file, codecs, io);
    if initial.status != Returned(Pass) {
      s := SyncStart(initial);
      SyncStoppedIsFinal(Destination(args), s, events);
      return;
    }
    var dest := Destination(args);
    var status, cachedConfig, armed, trace, log := Running, None, false, initial.trace, [];
    var i := 0;
    while i < |events| && status == Running
      invariant 0 <= i <= |events|
      invariant SyncState(status, cachedConfig, armed, trace, log) == SyncRun(dest, SyncStart(initial), events[..i])
      decreases |events| - i
    {
      match events[i] {
        case Cancel =>
          status := Returned(Pass);
        case ErrRecv(e) =>
          log := log + [e];
        case ErrClosed =>
          status := Returned(Fail(ErrorChannelClosed));
        case TimerFire(io) =>
          if armed {
            armed := false;
            var c := WriteConfig(cachedConfig, dest, io);
            trace := trace + c.trace;
            if c.status == Panicked {
              status := Panicked;
            } else if c.status != Returned(Pass) {
              log := log + [c.status.err.error];
            }
          }
        case ConfigRecv(config) =>
          cachedConfig := Some(config);
          armed := true;
        case ConfigClosed =>
          cachedConfig := None;
          armed := true;
      }
      assert events[..i + 1][..i] == events[..i];
      i := i + 1;
    }
    s := SyncState(status, cachedConfig, armed, trace, log);
    if i < |events| {
      SyncStoppedIsFinal(dest, s, events[i..]);
      SyncRunAppend(dest, SyncStart(initial), events[..i], events[i..]);
      assert events[..i] + events[i..] == events;
    } else {
      assert events[..i] == events;
    }
  }

  /** runE: the `watch` flag chooses runWatch or runSingle; an error reading
      the flag is returned first. */
  method RunE(watch: Result<bool>, args: seq<string>, file: Result<string>, codecs: ConfigFile.Codecs, io: IoResults, events: seq<SyncEvent>)
    returns (status: Status, trace: seq<Effect>)
    requires |args| >= 1
    ensures watch.Err? ==> status == Returned(Fail(watch.error)) && trace == []
    ensures watch == Ok(true) ==>
      var s := SyncRun(Destination(args), SyncStart(RunSingle(args, file, codecs, io)), events);
      status == s.status && trace == s.trace
    ensures watch == Ok(false) ==>
      Commit(trace, status) == RunSingle(args, file, codecs, io)
  {
    if watch.Err? {
      return Returned(Fail(watch.error)), [];
    }
    if watch.value {
      var s := RunWatch(args, file, codecs, io, events);
      status, trace := s.status, s.trace;
    } else {
      var c := RunSingle(args, file, codecs, io);
      status, trace := c.status, c.trace;
    }
  }

  // ---------------------------------------------------------------------------
  // Properties of the loop
  // ---------------------------------------------------------------------------

  /** The initial runSingle's error ends runWatch before any event is looked at. */
  lemma InitialErrorIsReturned(args: seq<string>, file: Result<string>, codecs: ConfigFile.Codecs, io: IoResults, events: seq<SyncEvent>)
    requires |args| >= 1
    requires RunSingle(args, file, codecs, io).status.err.Fail?
    ensures var initial := RunSingle(args, file, codecs, io);
      SyncRun(Destination(args), SyncStart(initial), events) == SyncState(initial.status, None, false, initial.trace, [])
  {
    RunSingleOutcomes(args, file, codecs, io);
    SyncStoppedIsFinal(Destination(args), SyncStart(RunSingle(args, file, codecs, io)), events);
  }

  /** Only a timer fire writes anything; the other events leave the trace as it was. */
  lemma OnlyFiresCommit(dest: string, s: SyncState, ev: SyncEvent)
    requires !ev.TimerFire?
    ensures SyncStep(dest, s, ev).trace == s.trace
  {
  }

  /** What each non-timer event does to a running loop: cancellation returns
      nil, a closed error channel returns its own error, a received error is
      logged and the loop goes on, a received record replaces the cache and
      restarts the timer. */
  lemma EventOutcomes(dest: string, s: SyncState, e: Error, c: Config)
    requires s.status == Running
    ensures SyncStep(dest, s, Cancel).status == Returned(Pass)
    ensures SyncStep(dest, s, ErrClosed).status == Returned(Fail(ErrorChannelClosed))
    ensures SyncStep(dest, s, ErrRecv(e)) == s.(log := s.log + [e])
    ensures SyncStep(dest, s, ConfigRecv(c)) == s.(cached := Some(c), armed := true)
  {
  }

  /** A timer fire with a record cached commits it once; a failed write is
      logged and the loop goes on. */
  lemma FireCommitsCache(dest: string, s: SyncState, io: IoResults)
    requires s.status == Running && s.armed && s.cached.Some?
    ensures var t := SyncStep(dest, s, TimerFire(io));
      var c := WriteConfig(s.cached, dest, io);
      && t.status == Running && !t.armed && t.cached == s.cached
      && t.trace == s.trace + Sequenced(Plan(s.cached.value.api.token, dest), PlanOutcomes(dest, io)).trace
      && (c.status.err.Fail? ==> t.log == s.log + [c.status.err.error])
      && (c.status.err.Pass? ==> t.log == s.log)
  {
    WriteConfigIsSequenced(s.cached.value, dest, io);
  }

  /** Until a record arrives the timer stays stopped, so nothing is written. */
  lemma {:induction false} NoCommitBeforeFirstConfig(dest: string, s: SyncState, events: seq<SyncEvent>)
    requires s.status == Running && !s.armed
    requires forall i :: 0 <= i < |events| ==> !events[i].ConfigRecv? && !events[i].ConfigClosed?
    ensures SyncRun(dest, s, events).trace == s.trace
    ensures !SyncRun(dest, s, events).armed
    decreases |events|
  {
    if events != [] {
      var init := events[..|events| - 1];
      assert forall i :: 0 <= i < |init| ==> init[i] == events[i];
      NoCommitBeforeFirstConfig(dest, s, init);
      var t := SyncRun(dest, s, init);
      if t.status != Running {
        assert SyncStep(dest, t, events[|events| - 1]) == t;
      }
    }
  }

  predicate IsReceive(ev: SyncEvent)
  {
    ev.ConfigRecv? || ev.ErrRecv?
  }

  /** The record of the last ConfigRecv among `events`. */
  function LastConfig(events: seq<SyncEvent>): Config
    requires exists i :: 0 <= i < |events| && events[i].ConfigRecv?
    decreases |events|
  {
    var last := events[|events| - 1];
    if last.ConfigRecv? then last.config
    else
      var init := events[..|events| - 1];
      assert exists i :: 0 <= i < |init| && init[i].ConfigRecv? by {
        var i :| 0 <= i < |events| && events[i].ConfigRecv?;
        assert i < |init| && init[i] == events[i];
      }
      LastConfig(init)
  }

  /** Receiving records and errors writes nothing; it leaves the last record
      received in the cache and the timer running. */
  lemma {:induction false} ReceivesOnlyCache(dest: string, s: SyncState, events: seq<SyncEvent>)
    requires s.status == Running
    requires forall i :: 0 <= i < |events| ==> IsReceive(events[i])
    ensures var t := SyncRun(dest, s, events);
      && t.status == Running && t.trace == s.trace
      && ((exists i :: 0 <= i < |events| && events[i].ConfigRecv?) ==> t.armed && t.cached == Some(LastConfig(events)))
      && ((forall i :: 0 <= i < |events| ==> !events[i].ConfigRecv?) ==> t.armed == s.armed && t.cached == s.cached)
    decreases |events|
  {
    if events != [] {
      var init := events[..|events| - 1];
      assert forall i :: 0 <= i < |init| ==> init[i] == events[i];
      ReceivesOnlyCache(dest, s, init);
    }
  }

  /** The outer debounce: records received between two timer fires (with
      errors among them) produce one commit, of the last record received. */
  lemma LastConfigWins(dest: string, s: SyncState, burst: seq<SyncEvent>, io: IoResults)
    requires s.status == Running
    requires forall i :: 0 <= i < |burst| ==> IsReceive(burst[i])
    requires exists i :: 0 <= i < |burst| && burst[i].ConfigRecv?
    ensures var t := SyncRun(dest, s, burst + [TimerFire(io)]);
      && t.status == Running
      && t.cached == Some(LastConfig(burst))
      && t.trace == s.trace + Sequenced(Plan(LastConfig(burst).api.token, dest), PlanOutcomes(dest, io)).trace
  {
    ReceivesOnlyCache(dest, s, burst);
    assert (burst + [TimerFire(io)])[..|burst|] == burst;
    FireCommitsCache(dest, SyncRun(dest, s, burst), io);
  }

  /** As written, a receive from the closed config channel caches nil and
      restarts the timer; the next fire dereferences nil and panics, after
      creating the file when there is a destination. */
  lemma NilCacheCrashes(dest: string, s: SyncState, io: IoResults)
    requires s.status == Running
    requires io.mkdirAll.Pass? && io.create.Pass?
    ensures SyncRun(dest, s, [ConfigClosed, TimerFire(io)]).status == Panicked
    ensures SyncRun(dest, s, [ConfigClosed, TimerFire(io)]).trace
         == s.trace + (if dest == "" then [] else [MkdirAll(Dir(dest)), CreateFile(dest)])
  {
    var evs := [ConfigClosed, TimerFire(io)];
    assert evs[..1] == [ConfigClosed];
    assert evs[..1][..0] == [];
    assert SyncRun(dest, s, evs[..1]) == s.(cached := None, armed := true);
  }

  /** The loop never calls the writer without a record: it has not panicked,
      and a running timer implies a cached record. */
  predicate NoNilCommit(s: SyncState)
  {
    s.status != Panicked && (s.status == Running && s.armed ==> s.cached.Some?)
  }

  /** The loop starts in that state, whatever the initial runSingle did. */
  lemma StartHasNoNilCommit(args: seq<string>, file: Result<string>, codecs: ConfigFile.Codecs, io: IoResults)
    requires |args| >= 1
    ensures NoNilCommit(SyncStart(RunSingle(args, file, codecs, io)))
  {
  }

  /** As long as no receive from the closed config channel happens, every
      step keeps that state, so the loop never panics. */
  lemma {:induction false} NoPanicWithoutConfigClosed(dest: string, s: SyncState, events: seq<SyncEvent>)
    requires NoNilCommit(s)
    requires forall i :: 0 <= i < |events| ==> !events[i].ConfigClosed?
    ensures NoNilCommit(SyncRun(dest, s, events))
    decreases |events|
  {
    if events != [] {
      var init := events[..|events| - 1];
      assert forall i :: 0 <= i < |init| ==> init[i] == events[i];
      NoPanicWithoutConfigClosed(dest, s, init);
    }
  }
}
