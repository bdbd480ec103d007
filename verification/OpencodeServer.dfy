/**
  The life of the self-spawned agent server: concurrent callers share one start, a start
  retries a few times, processes come up or die when they please, and `stop` may come at
  any moment. Each step below is one stretch of code that runs without giving way.
 */
module OpencodeServer {
  import opened Basics

  const SERVER_BIND_ATTEMPTS: nat := 3

  /** A process that a signal ended has no exit code. */
  datatype Status = Running | Exited | Signalled

  datatype Process = Process(status: Status, killed: bool)

  datatype Phase =
    | Waiting(proc: nat)     // spawned, no banner yet
    | Ready(proc: nat)       // banner seen, continuation still to run
    | Retry                  // exited before its banner, loop about to go round
    | Failed                 // rejected, handler still to run
    | Settled

  /** One shared start and the processes it has spawned so far. */
  datatype Start = Start(phase: Phase, spawned: nat)

  /** `starting` is the start that callers share, by number. */
  datatype State = State(procs: seq<Process>, starts: seq<Start>, server: Option<nat>, starting: Option<nat>)

  datatype Step =
    | Ensure(spawns: bool)
    | Banner(start: nat)
    | Fail(start: nat)
    | ExitSeen(start: nat)
    | Again(start: nat, spawns: bool)
    | Resume(start: nat)
    | Reject(start: nat)
    | Stop
    | Die(proc: nat, status: Status)

  /** Send a kill to a process that has no exit code and was not sent one; it takes only if the process runs. */
  function Kill(s: State, p: nat): State
  {
    if p < |s.procs| && !s.procs[p].status.Exited? && !s.procs[p].killed && s.procs[p].status.Running?
    then s.(procs := s.procs[p := s.procs[p].(killed := true)]) else s
  }

  function To(s: State, n: nat, phase: Phase): State
    requires n < |s.starts|
  {
    s.(starts := s.starts[n := s.starts[n].(phase := phase)])
  }

  /** Spawn a process for start `n`. */
  function Spawn(s: State, n: nat): State
    requires n < |s.starts|
  {
    s.(procs := s.procs + [Process(Running, false)],
       starts := s.starts[n := Start(Waiting(|s.procs|), s.starts[n].spawned + 1)])
  }

  function Apply(s: State, step: Step): State
  {
    match step
    case Ensure(spawns) =>
      if s.server.Some? || s.starting.Some? then s
      else
        var n := |s.starts|;
        var s' := s.(starts := s.starts + [Start(Failed, 0)], starting := Some(n));
        if spawns then Spawn(s', n) else s'
    case Banner(n) =>
      if n < |s.starts| && s.starts[n].phase.Waiting? then To(s, n, Ready(s.starts[n].phase.proc)) else s
    case Fail(n) =>
      if n < |s.starts| && s.starts[n].phase.Waiting? then To(Kill(s, s.starts[n].phase.proc), n, Failed) else s
    case ExitSeen(n) =>
      if && n < |s.starts| && s.starts[n].phase.Waiting? && s.starts[n].phase.proc < |s.procs|
         && !s.procs[s.starts[n].phase.proc].status.Running?
      then To(s, n, Retry) else s
    case Again(n, spawns) =>
      if n < |s.starts| && s.starts[n].phase.Retry?
      then
        if s.starts[n].spawned < SERVER_BIND_ATTEMPTS && spawns then Spawn(s, n) else To(s, n, Failed)
      else s
    case Resume(n) =>
      if n < |s.starts| && s.starts[n].phase.Ready?
      then
        var p := s.starts[n].phase.proc;
        if s.starting != Some(n) then To(Kill(s, p), n, Failed)
        else To(s, n, Settled).(server := Some(p))
      else s
    case Reject(n) =>
      if n < |s.starts| && s.starts[n].phase.Failed?
      then To(s, n, Settled).(starting := if s.starting == Some(n) then None else s.starting)
      else s
    case Stop =>
      (if s.server.Some? then Kill(s, s.server.value) else s).(server := None, starting := None)
    case Die(p, status) =>
      if p < |s.procs| && s.procs[p].status.Running? && !status.Running?
      then s.(procs := s.procs[p := s.procs[p].(status := status)]) else s
  }

  function After(s: State, steps: seq<Step>): State
  {
    if steps == [] then s else Apply(After(s, steps[..|steps| - 1]), steps[|steps| - 1])
  }

  const INITIAL := State([], [], None, None)

  // ---------------------------------------------------------------------------
  // No process is forgotten
  // ---------------------------------------------------------------------------

  /** The process has ended, or was told to. */
  predicate Over(p: Process)
  {
    !p.status.Running? || p.killed
  }

  /** Start `n` answers for process `p`. */
  predicate Owns(start: Start, p: nat)
  {
    (start.phase.Waiting? || start.phase.Ready?) && start.phase.proc == p
  }

  ghost predicate Kept(s: State, p: nat)
    requires p < |s.procs|
  {
    || Over(s.procs[p]) || s.server == Some(p)
    || exists n | 0 <= n < |s.starts| :: Owns(s.starts[n], p)
  }

  /** A server is only ever the outcome of the start that callers still share, which is settled. */
  ghost predicate Coherent(s: State)
  {
    && (s.starting.Some? ==> s.starting.value < |s.starts|)
    && (s.server.Some? ==> s.starting.Some? && s.starts[s.starting.value].phase.Settled?)
    && (s.starting.Some? && s.starts[s.starting.value].phase.Settled? ==> s.server.Some?)
  }

  ghost predicate NoneLost(s: State)
  {
    forall p | 0 <= p < |s.procs| :: Kept(s, p)
  }

  lemma CoherentStep(s: State, step: Step)
    requires Coherent(s)
    ensures Coherent(Apply(s, step))
  {
  }

  /** Killing a process, or letting it go because it is over, loses nothing. */
  lemma Survives(s: State, s': State, p: nat, n: nat)
    requires p < |s.procs| && Kept(s, p) && n <= |s.starts|
    requires p < |s'.procs| && (Over(s.procs[p]) ==> Over(s'.procs[p])) && |s.starts| <= |s'.starts|
    requires forall m | 0 <= m < |s.starts| && m != n :: s'.starts[m] == s.starts[m]
    requires n < |s.starts| && Owns(s.starts[n], p) ==>
      Over(s'.procs[p]) || s'.server == Some(p) || Owns(s'.starts[n], p)
    requires s.server == Some(p) ==> s'.server == Some(p) || Over(s'.procs[p])
    ensures Kept(s', p)
  {
    if !Over(s.procs[p]) && s.server != Some(p) {
      var m :| 0 <= m < |s.starts| && Owns(s.starts[m], p);
      if m != n {
        assert Owns(s'.starts[m], p);
      }
    }
  }

  lemma NoneLostStep(s: State, step: Step)
    requires Coherent(s) && NoneLost(s)
    ensures NoneLost(Apply(s, step))
  {
    var s' := Apply(s, step);
    var n := if step.Banner? || step.Fail? || step.ExitSeen? || step.Again? || step.Resume? || step.Reject?
             then step.start else |s.starts|;
    forall p | 0 <= p < |s'.procs|
      ensures Kept(s', p)
    {
      if s' == s {
        assert Kept(s, p);
      } else if p < |s.procs| {
        Survives(s, s', p, n);
      } else {
        assert Owns(s'.starts[n], p);
      }
    }
  }

  lemma {:induction false} AlwaysKept(steps: seq<Step>)
    ensures Coherent(After(INITIAL, steps)) && NoneLost(After(INITIAL, steps))
  {
    hide Apply, Coherent, NoneLost;
    if steps == [] {
      StartsKept();
    } else {
      var before := steps[..|steps| - 1];
      AlwaysKept(before);
      CoherentStep(After(INITIAL, before), steps[|steps| - 1]);
      NoneLostStep(After(INITIAL, before), steps[|steps| - 1]);
    }
  }

  lemma StartsKept()
    ensures Coherent(INITIAL) && NoneLost(INITIAL)
  {
  }

  /**
    Over every interleaving of calls, bind retries, banners, failures, deaths and stops,
    every process ever spawned has ended, was sent a kill, is the current server, or is
    owned by a start still under way.
   */
  lemma NoLeakedServer(steps: seq<Step>, p: nat)
    requires p < |After(INITIAL, steps).procs|
    ensures var s := After(INITIAL, steps);
      || !s.procs[p].status.Running? || s.procs[p].killed || s.server == Some(p)
      || exists n | 0 <= n < |s.starts| :: Owns(s.starts[n], p)
  {
    hide After;
    AlwaysKept(steps);
    assert Kept(After(INITIAL, steps), p);
  }

  // ---------------------------------------------------------------------------
  // After the last stop
  // ---------------------------------------------------------------------------

  lemma StoppedStep(s: State, step: Step)
    requires s.server == None && s.starting == None && !step.Ensure?
    ensures Apply(s, step).server == None && Apply(s, step).starting == None
  {
  }

  lemma {:induction false} StaysStopped(s: State, steps: seq<Step>)
    requires s.server == None && s.starting == None && forall x | x in steps :: !x.Ensure?
    ensures After(s, steps).server == None && After(s, steps).starting == None
  {
    hide Apply;
    if steps != [] {
      var before := steps[..|steps| - 1];
      StaysStopped(s, before);
      StoppedStep(After(s, before), steps[|steps| - 1]);
    }
  }

  lemma {:induction false} AfterConcat(s: State, xs: seq<Step>, ys: seq<Step>)
    ensures After(s, xs + ys) == After(After(s, xs), ys)
  {
    hide Apply;
    if ys == [] {
      assert xs + ys == xs;
    } else {
      AfterConcat(s, xs, ys[..|ys| - 1]);
      assert (xs + ys)[..|xs + ys| - 1] == xs + ys[..|ys| - 1];
    }
  }

  /**
    After a last stop, once every start has settled, including those that were under way
    and even retried after the stop, every process ever spawned has ended or was sent a kill.
   */
  lemma NothingRunsAfterStop(before: seq<Step>, rest: seq<Step>, p: nat)
    requires forall x | x in rest :: !x.Ensure?
    requires forall start | start in After(INITIAL, before + [Stop] + rest).starts :: start.phase.Settled?
    requires p < |After(INITIAL, before + [Stop] + rest).procs|
    ensures Over(After(INITIAL, before + [Stop] + rest).procs[p])
  {
    var stopped := After(INITIAL, before + [Stop]);
    assert (before + [Stop])[..|before|] == before;
    assert stopped.server == None && stopped.starting == None;
    hide After;
    AfterConcat(INITIAL, before + [Stop], rest);
    StaysStopped(stopped, rest);
    NoLeakedServer(before + [Stop] + rest, p);
  }

  // ---------------------------------------------------------------------------
  // A server in use is left alone, and one can always be had
  // ---------------------------------------------------------------------------

  predicate Holding(start: Start)
  {
    start.phase.Waiting? || start.phase.Ready?
  }

  /** Every process in use exists and was not sent a kill, and no two uses share one. */
  ghost predicate Unharmed(s: State)
  {
    && (s.server.Some? ==> s.server.value < |s.procs| && !s.procs[s.server.value].killed)
    && (forall n | 0 <= n < |s.starts| && Holding(s.starts[n]) ::
          var p := s.starts[n].phase.proc;
          p < |s.procs| && !s.procs[p].killed && s.server != Some(p))
    && (forall n, m | 0 <= n < m < |s.starts| && Holding(s.starts[n]) && Holding(s.starts[m]) ::
          s.starts[n].phase.proc != s.starts[m].phase.proc)
  }

  lemma UnharmedTo(s: State, n: nat, phase: Phase)
    requires Unharmed(s) && n < |s.starts|
    requires (phase.Waiting? || phase.Ready?) ==> Holding(s.starts[n]) && phase.proc == s.starts[n].phase.proc
    ensures Unharmed(To(s, n, phase))
  {
  }

  lemma UnharmedKill(s: State, p: nat)
    requires Unharmed(s) && s.server != Some(p)
    requires forall n | 0 <= n < |s.starts| && Holding(s.starts[n]) :: s.starts[n].phase.proc != p
    ensures Unharmed(Kill(s, p))
  {
  }

  lemma UnharmedSpawn(s: State, n: nat)
    requires Unharmed(s) && n < |s.starts|
    ensures Unharmed(Spawn(s, n))
  {
  }

  /** A start lets go of its process, which is then sent a kill. */
  lemma UnharmedLetGo(s: State, n: nat)
    requires Unharmed(s) && n < |s.starts| && Holding(s.starts[n])
    ensures Unharmed(To(Kill(s, s.starts[n].phase.proc), n, Failed))
  {
    hide Unharmed;
    UnharmedTo(s, n, Failed);
    assert forall m | 0 <= m < |s.starts| && m != n && Holding(s.starts[m]) ::
        s.starts[m].phase.proc != s.starts[n].phase.proc by { UsesDiffer(s, n); }
    assert s.server != Some(s.starts[n].phase.proc) by { UsesDiffer(s, n); }
    UnharmedKill(To(s, n, Failed), s.starts[n].phase.proc);
    assert To(Kill(s, s.starts[n].phase.proc), n, Failed) == Kill(To(s, n, Failed), s.starts[n].phase.proc);
  }

  lemma UsesDiffer(s: State, n: nat)
    requires Unharmed(s) && n < |s.starts| && Holding(s.starts[n])
    ensures s.server != Some(s.starts[n].phase.proc)
    ensures forall m | 0 <= m < |s.starts| && m != n && Holding(s.starts[m]) ::
      s.starts[m].phase.proc != s.starts[n].phase.proc
  {
  }

  lemma UnharmedStep(s: State, step: Step)
    requires Coherent(s) && Unharmed(s)
    ensures Unharmed(Apply(s, step))
  {
    hide Coherent;
    match step
    case Ensure(spawns) =>
      UnharmedEnsure(s, spawns);
    case Banner(n) =>
      UnharmedTurns(s, step, n);
    case Fail(n) =>
      hide Unharmed;
      if n < |s.starts| && s.starts[n].phase.Waiting? {
        UnharmedLetGo(s, n);
      }
    case ExitSeen(n) =>
      UnharmedTurns(s, step, n);
    case Again(n, _) =>
      UnharmedTurns(s, step, n);
    case Resume(n) =>
      UnharmedResume(s, n);
    case Reject(n) =>
      UnharmedTurns(s, step, n);
    case Stop =>
      UnharmedStop(s);
    case Die(_, _) =>
  }

  lemma UnharmedEnsure(s: State, spawns: bool)
    requires Unharmed(s)
    ensures Unharmed(Apply(s, Ensure(spawns)))
  {
    var s' := s.(starts := s.starts + [Start(Failed, 0)], starting := Some(|s.starts|));
    assert Unharmed(s');
    UnharmedSpawn(s', |s.starts|);
  }

  lemma UnharmedTurns(s: State, step: Step, n: nat)
    requires Unharmed(s) && (step == Banner(n) || step == ExitSeen(n) || step == Reject(n) || step == Again(n, true) ||
                             step == Again(n, false))
    ensures Unharmed(Apply(s, step))
  {
    hide Unharmed;
    if n < |s.starts| {
      if s.starts[n].phase.Waiting? {
        UnharmedTo(s, n, Ready(s.starts[n].phase.proc));
      }
      UnharmedTo(s, n, Retry);
      UnharmedTo(s, n, Failed);
      UnharmedTo(s, n, Settled);
      UnharmedSpawn(s, n);
      Unshared(To(s, n, Settled), None);
    }
  }

  /** Which start callers share makes no difference. */
  lemma Unshared(s: State, starting: Option<nat>)
    requires Unharmed(s)
    ensures Unharmed(s.(starting := starting))
  {
  }

  lemma UnharmedResume(s: State, n: nat)
    requires Unharmed(s)
    ensures Unharmed(Apply(s, Resume(n)))
  {
    if n < |s.starts| && s.starts[n].phase.Ready? {
      UnharmedLetGo(s, n);
      UsesDiffer(s, n);
      var p := s.starts[n].phase.proc;
      assert Unharmed(To(s, n, Settled).(server := Some(p))) by { UnharmedTo(s, n, Settled); }
    }
  }

  lemma UnharmedStop(s: State)
    requires Unharmed(s)
    ensures Unharmed(Apply(s, Stop))
  {
    var gone := s.(server := None, starting := None);
    assert Unharmed(gone);
    if s.server.Some? {
      UnharmedKill(gone, s.server.value);
      assert Apply(s, Stop) == Kill(gone, s.server.value);
    }
  }

  lemma {:induction false} AlwaysUnharmed(steps: seq<Step>)
    ensures Coherent(After(INITIAL, steps)) && Unharmed(After(INITIAL, steps))
  {
    hide Apply, Coherent, Unharmed;
    if steps == [] {
      StartsKept();
      assert Unharmed(INITIAL) by { StartsUnharmed(); }
    } else {
      var before := steps[..|steps| - 1];
      AlwaysUnharmed(before);
      CoherentStep(After(INITIAL, before), steps[|steps| - 1]);
      UnharmedStep(After(INITIAL, before), steps[|steps| - 1]);
    }
  }

  lemma StartsUnharmed()
    ensures Unharmed(INITIAL)
  {
  }

  /** What sends process `p` a kill. */
  ghost predicate Kills(s: State, step: Step, p: nat)
  {
    match step
    case Stop => s.server == Some(p)
    case Fail(n) => n < |s.starts| && s.starts[n].phase == Waiting(p)
    case Resume(n) => n < |s.starts| && s.starts[n].phase == Ready(p) && s.starting != Some(n)
    case _ => false
  }

  /**
    Over every interleaving, a process in use was not sent a kill; and one that runs is sent
    a kill by a step if and only if that is a stop while it is the server, the failure of
    the start that waits for it, or the end of its start after a stop.
   */
  lemma KilledOnlyWhenDone(steps: seq<Step>, step: Step, p: nat)
    requires p < |After(INITIAL, steps).procs|
    ensures var s := After(INITIAL, steps);
      && (s.server == Some(p) ==> !s.procs[p].killed)
      && (forall n | 0 <= n < |s.starts| && Owns(s.starts[n], p) :: !s.procs[p].killed)
      && p < |Apply(s, step).procs|
      && (Apply(s, step).procs[p].killed <==>
            s.procs[p].killed || (s.procs[p].status.Running? && Kills(s, step, p)))
      && (Apply(s, step).procs[p].status != s.procs[p].status <==>
            step.Die? && step.proc == p && s.procs[p].status.Running? && !step.status.Running?)
  {
    hide After;
    AlwaysUnharmed(steps);
  }

  /** Only a stop takes a server away, and callers start nothing while there is one or one is on its way. */
  lemma ServerStays(steps: seq<Step>, step: Step)
    ensures var s := After(INITIAL, steps);
      && (s.server.Some? && step != Stop ==> Apply(s, step).server == s.server)
      && ((s.server.Some? || s.starting.Some?) && step.Ensure? ==> Apply(s, step) == s)
      && Apply(s, Stop).server == Apply(s, Stop).starting == None
  {
    hide After;
    AlwaysUnharmed(steps);
  }

  /**
    Once the start that callers share has seen its banner, its process becomes the server
    and no process is sent a kill.
   */
  lemma SharedStartServes(steps: seq<Step>, n: nat)
    requires var s := After(INITIAL, steps); s.starting == Some(n) && n < |s.starts| && s.starts[n].phase.Ready?
    ensures var s := After(INITIAL, steps);
      var p, s' := s.starts[n].phase.proc, Apply(s, Resume(n));
      && s'.server == Some(p) && s'.procs == s.procs && p < |s.procs| && !s.procs[p].killed
      && s'.starts[n].phase.Settled? && s'.starting == Some(n)
  {
    hide After;
    AlwaysUnharmed(steps);
    assert Holding(After(INITIAL, steps).starts[n]);
  }

  /** Without a server or a shared start, a call, its banner and its continuation bring up a new server. */
  lemma ComesUp(s: State)
    requires s.server == None && s.starting == None
    ensures var n := |s.starts|;
      var s' := After(s, [Ensure(true), Banner(n), Resume(n)]);
      && s'.server == Some(|s.procs|) && s'.starting == Some(n)
      && s'.procs == s.procs + [Process(Running, false)]
      && s'.starts == s.starts + [Start(Settled, 1)]
  {
    var n := |s.starts|;
    hide After, Apply;
    ThreeSteps(s, Ensure(true), Banner(n), Resume(n));
    var spawned := s.(procs := s.procs + [Process(Running, false)],
                      starts := s.starts + [Start(Waiting(|s.procs|), 1)], starting := Some(n));
    assert Apply(s, Ensure(true)) == spawned by { EnsureSpawns(s); }
    ReadyThenServes(spawned, n);
  }

  lemma EnsureSpawns(s: State)
    requires s.server == None && s.starting == None
    ensures Apply(s, Ensure(true)) ==
      s.(procs := s.procs + [Process(Running, false)], starts := s.starts + [Start(Waiting(|s.procs|), 1)],
         starting := Some(|s.starts|))
  {
    assert (s.starts + [Start(Failed, 0)])[|s.starts| := Start(Waiting(|s.procs|), 1)] ==
           s.starts + [Start(Waiting(|s.procs|), 1)];
  }

  /** A start that waits, is shared and sees its banner makes its process the server. */
  lemma ReadyThenServes(s: State, n: nat)
    requires n < |s.starts| && s.starts[n].phase.Waiting? && s.starting == Some(n)
    ensures Apply(Apply(s, Banner(n)), Resume(n)) ==
      s.(server := Some(s.starts[n].phase.proc), starts := s.starts[n := Start(Settled, s.starts[n].spawned)])
  {
  }

  lemma ThreeSteps(s: State, a: Step, b: Step, c: Step)
    ensures After(s, [a, b, c]) == Apply(Apply(Apply(s, a), b), c)
  {
    hide Apply;
    assert [a, b, c][..2] == [a, b] && [a, b][..1] == [a] && [a][..0] == [];
    assert After(s, []) == s;
    assert After(s, [a]) == Apply(s, a);
    assert After(s, [a, b]) == Apply(Apply(s, a), b);
  }

  /** From any reachable state a stop and a new call lead to a running server that was sent no kill. */
  lemma AlwaysStartable(steps: seq<Step>)
    ensures var s := After(INITIAL, steps);
      var n := |s.starts|;
      var s' := After(Apply(s, Stop), [Ensure(true), Banner(n), Resume(n)]);
      s'.server == Some(|s.procs|) && |s'.procs| == |s.procs| + 1 && s'.procs[|s.procs|] == Process(Running, false)
  {
    hide After;
    ComesUp(Apply(After(INITIAL, steps), Stop));
  }

  /**
    A start whose process exited before its banner spawns another one as long as it has
    spawned fewer than three, and comes up with it; after the third it fails. A failed
    start gives way to a new one.
   */
  lemma RetriesThenGivesWay(s: State, n: nat)
    requires n < |s.starts| && s.starting == Some(n) && s.server == None
    ensures s.starts[n].phase.Retry? && s.starts[n].spawned < 3 ==>
      var s' := After(s, [Again(n, true), Banner(n), Resume(n)]);
      s'.server == Some(|s.procs|) && s'.procs == s.procs + [Process(Running, false)]
    ensures s.starts[n].phase.Retry? && s.starts[n].spawned >= 3 ==>
      Apply(s, Again(n, true)) == s.(starts := s.starts[n := Start(Failed, s.starts[n].spawned)])
    ensures s.starts[n].phase.Failed? ==>
      var s' := Apply(Apply(s, Reject(n)), Ensure(true));
      s'.starting == Some(|s.starts|) && s'.procs == s.procs + [Process(Running, false)]
  {
    ThreeSteps(s, Again(n, true), Banner(n), Resume(n));
    hide After;
    if s.starts[n].phase.Retry? && s.starts[n].spawned < 3 {
      ReadyThenServes(Spawn(s, n), n);
    }
  }

  // ---------------------------------------------------------------------------
  // Spawns
  // ---------------------------------------------------------------------------

  function Spawned(starts: seq<Start>): nat
  {
    if starts == [] then 0 else Spawned(starts[..|starts| - 1]) + starts[|starts| - 1].spawned
  }

  lemma {:induction false} SpawnedUpdate(starts: seq<Start>, n: nat, x: Start)
    requires n < |starts|
    ensures Spawned(starts[n := x]) == Spawned(starts) - starts[n].spawned + x.spawned
  {
    var init := starts[..|starts| - 1];
    if n < |starts| - 1 {
      SpawnedUpdate(init, n, x);
      assert starts[n := x][..|starts| - 1] == init[n := x];
    } else {
      assert starts[n := x][..|starts| - 1] == init;
    }
  }

  ghost predicate Counted(s: State)
  {
    && |s.procs| == Spawned(s.starts)
    && (forall start | start in s.starts ::
          start.spawned <= SERVER_BIND_ATTEMPTS && (start.phase.Waiting? || start.phase.Ready? ==> start.spawned >= 1))
  }

  lemma CountedStep(s: State, step: Step)
    requires Counted(s)
    ensures Counted(Apply(s, step))
  {
    hide Spawned;
    var s' := Apply(s, step);
    if step.Ensure? && s' != s {
      SpawnedPush(s.starts, s'.starts[|s.starts|]);
      assert s'.starts == s.starts + [s'.starts[|s.starts|]];
    } else if s'.starts != s.starts {
      var n := step.start;
      SpawnedUpdate(s.starts, n, s'.starts[n]);
      assert s'.starts == s.starts[n := s'.starts[n]];
      assert s.starts[n] in s.starts;
    }
  }

  lemma SpawnedPush(starts: seq<Start>, x: Start)
    ensures Spawned(starts + [x]) == Spawned(starts) + x.spawned
  {
    assert (starts + [x])[..|starts|] == starts;
  }

  lemma {:induction false} SpawnsAddUp(starts: seq<Start>)
    requires forall start | start in starts :: start.spawned <= SERVER_BIND_ATTEMPTS
    ensures Spawned(starts) <= SERVER_BIND_ATTEMPTS * |starts|
  {
    if starts != [] {
      SpawnsAddUp(starts[..|starts| - 1]);
      assert starts[|starts| - 1] in starts;
    }
  }

  lemma {:induction false} AlwaysCounted(steps: seq<Step>)
    ensures Counted(After(INITIAL, steps))
  {
    hide Apply;
    if steps != [] {
      AlwaysCounted(steps[..|steps| - 1]);
      CountedStep(After(INITIAL, steps[..|steps| - 1]), steps[|steps| - 1]);
    }
  }

  /** No start spawns more than three processes, so there are at most three times as many as starts. */
  lemma SpawnsAreBounded(steps: seq<Step>)
    ensures |After(INITIAL, steps).procs| <= 3 * |After(INITIAL, steps).starts|
  {
    hide After;
    AlwaysCounted(steps);
    SpawnsAddUp(After(INITIAL, steps).starts);
  }
}
