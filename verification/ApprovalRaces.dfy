/**
  Runs that meet the bounds. In the first two every save succeeds, each decision carries a
  nonce of its own, a single save is untimely, and one hold is released twice: the bound
  on releases per hold is reached. In the third a crash leaves an approval without its
  release.
 */
module ApprovalRaces {
  import opened Basics
  import opened Timestamps
  import opened Replay
  import opened Approval
  import opened ApprovalProtocol
  import opened ApprovalOwnership
  import opened ApprovalDaemon
  import opened ApprovalOnce

  /** A deployment that believes every signature made with key "k" by operator "op", until second 100. */
  function Lenient(): Config { Config(10, (key: string, d: Decision) => true, true) }

  function Anchor(): Anchors { Anchors("op", {}, map["k" := "pub"], {"k"}, 0) }

  function Approving(id: string, nonce: string): Decision
  {
    Decision(id, DECISION_APPROVED, Some(nonce), Some(UnixToRfc3339(100)), Some(Signature("k", "")))
  }

  function LiveHold(): Hold { Hold("room", "live", Some(Exec("run")), None, "") }

  function TaskHold(): Hold { Hold("room", "task", None, None, "") }

  lemma ApprovingIsBelieved(id: string, nonce: string)
    ensures Verified(Approving(id, nonce), "op", Anchor(), Lenient().verify)
    ensures TicketOf(Approving(id, nonce)) == Ticket(nonce, 100) && PermitsSpawn(Approving(id, nonce))
  {
    hide ParseRfc3339, UnixToRfc3339;
    RoundTrip(100);
  }

  /** A handler that goes through releases its hold. */
  lemma GoesThrough(s: State, pid: nat, nonce: string, q: seq<Hold>) returns (s': State, steps: seq<Step>)
    requires pid !in s.procs && s.clock == 0 && nonce !in s.cache.mem && |s.cache.mem| < 10
    requires forall n | n in s.cache.mem :: s.cache.mem[n] == 100
    requires Lookup(s.disk, "live") == Some(LiveHold()) && Removed(s.disk, "live") == q
    ensures s' == After(Lenient(), s, steps) && Untimely(Lenient(), s, steps) == 0
    ensures s'.procs == s.procs && s'.clock == 0 && s'.disk == q && s'.enqueued == s.enqueued
    ensures s'.cache.mem == s.cache.mem[nonce := 100] && s'.unsaved == s.unsaved
    ensures s'.released == s.released + [Release(LiveHold(), Approving("live", nonce))]
  {
    hide After, Undisturbed, HandleSteps, Lookup, Removed, Verified, TicketOf, Admission, Approving, PermitsSpawn,
      Anchor;
    var d, mem := Approving("live", nonce), s.cache.mem[nonce := 100];
    ApprovingIsBelieved("live", nonce);
    NamesLive(nonce);
    TakesIn(s.cache.mem, 10, nonce, 100, 0);
    HandleRun(Lenient(), s, pid, d, "op", Anchor(), mem, true, true);
    steps := HandleSteps(pid, d, "op", Anchor(), mem, true, true);
    s' := After(Lenient(), s, steps);
    UndisturbedIff(Lenient(), s, steps);
  }

  lemma NamesLive(nonce: string)
    ensures Approving("live", nonce).requestId == "live" && Anchor().(now := 0) == Anchor()
  {
  }

  lemma {:induction false} Queues()
    ensures Enqueued([], LiveHold()) == [LiveHold()]
    ensures Enqueued([LiveHold()], TaskHold()) == [LiveHold(), TaskHold()]
    ensures Lookup([LiveHold(), TaskHold()], "task") == Some(TaskHold())
    ensures Lookup([LiveHold(), TaskHold()], "live") == Some(LiveHold())
    ensures Lookup([LiveHold()], "live") == Some(LiveHold())
    ensures Removed([LiveHold(), TaskHold()], "live") == [TaskHold()]
    ensures Removed([LiveHold(), TaskHold()], "task") == [LiveHold()]
    ensures Removed([LiveHold()], "live") == []
  {
    assert "live"[0] != "task"[0];
    var both := [LiveHold(), TaskHold()];
    assert both[1..] == [TaskHold()] && [LiveHold()][1..] == [] && [TaskHold()][1..] == [];
  }

  ghost function Start(): State { State([], Cache(map[], map[]), 0, map[], {}, {}, [], [], [], false) }

  /** Two releases of one hold of request "live", with nothing left unsaved. */
  ghost predicate ReleasedTwice(s: State)
  {
    ReleaseCount(s.released, "live") == 2 && LiveHolds(s.enqueued, "live") == 1 && s.unsaved == []
  }

  /** The bound on releases per hold is reached, with one untimely save. */
  ghost predicate ReachesBound(steps: seq<Step>)
  {
    var end := After(Lenient(), Start(), steps);
    && Untimely(Lenient(), Start(), steps) == 1
    && ReleaseCount(end.released, "live") + |Poised(end.procs, "live")| + Queued(end.disk, "live") ==
       LiveHolds(end.enqueued, "live") + Failures(end.unsaved, "live") + Untimely(Lenient(), Start(), steps)
  }

  /** A run with at most one untimely save that releases twice reaches the bound. */
  lemma BoundReached(steps: seq<Step>)
    requires ReleasedTwice(After(Lenient(), Start(), steps)) && Untimely(Lenient(), Start(), steps) <= 1
    ensures ReachesBound(steps)
  {
    hide After, Untimely, ReleaseCount, LiveHolds, Poised, Queued;
    ReleasesPerHold(Lenient(), Start(), steps, "live");
  }

  /** The hold was released on two approvals, with a ticket each. */
  ghost predicate OnTwoTickets(released: seq<Release>, a: string, b: string)
  {
    && released == [Release(LiveHold(), Approving("live", a)), Release(LiveHold(), Approving("live", b))]
    && TicketOf(Approving("live", a)) != TicketOf(Approving("live", b))
  }

  lemma TwoTickets(a: string, b: string)
    requires a != b
    ensures OnTwoTickets([Release(LiveHold(), Approving("live", a)), Release(LiveHold(), Approving("live", b))], a, b)
  {
    hide TicketOf, Approving, LiveHold, Verified;
    ApprovingIsBelieved("live", a);
    ApprovingIsBelieved("live", b);
  }

  lemma TwoCount(a: Release, b: Release)
    requires a.hold == LiveHold() && b.hold == LiveHold()
    ensures ReleaseCount([a, b], "live") == 2
  {
    assert [a][..0] == [];
    assert ReleaseCount([a], "live") == 1;
    assert [a, b][..1] == [a];
  }

  lemma OneHold()
    ensures LiveHolds([LiveHold()], "live") == 1 && LiveHolds([LiveHold(), TaskHold()], "live") == 1
  {
    assert "live"[0] != "task"[0];
    assert [LiveHold()][..0] == [] && [LiveHold(), TaskHold()][..1] == [LiveHold()];
  }

  /** Holding a request, from a state in which nothing else goes on. */
  lemma Held(s: State, hold: Hold, q: seq<Hold>)
    requires s.procs == map[] && Enqueued(s.disk, hold) == q
    ensures After(Lenient(), s, StepsOf(HoldFor(hold, true))) == s.(disk := q, enqueued := s.enqueued + [hold])
    ensures Untimely(Lenient(), s, StepsOf(HoldFor(hold, true))) == 0
  {
    hide After, Undisturbed, Untimely, Enqueued;
    ShortRuns(Lenient(), s, 0, hold, "", true);
    UndisturbedIff(Lenient(), s, StepsOf(HoldFor(hold, true)));
  }

  lemma Then(s: State, xs: seq<Step>, mid: State, ys: seq<Step>, end: State)
    requires After(Lenient(), s, xs) == mid && After(Lenient(), mid, ys) == end
    ensures After(Lenient(), s, xs + ys) == end
    ensures Untimely(Lenient(), s, xs + ys) == Untimely(Lenient(), s, xs) + Untimely(Lenient(), mid, ys)
  {
    hide After, Untimely;
    AfterConcat(Lenient(), s, xs, ys);
  }

  /** One step makes at most one untimely save, and a load makes none. */
  lemma OneStep(s: State, x: Step)
    ensures Untimely(Lenient(), s, [x]) <= 1
    ensures !Saves(x) ==> Untimely(Lenient(), s, [x]) == 0
  {
    hide After;
    assert [x][..0] == [];
  }

  /** A live hold and a task hold are queued, and an operator has begun to decide on the latter. */
  lemma DecisionBegins() returns (s: State, steps: seq<Step>)
    ensures s == After(Lenient(), Start(), steps) && Untimely(Lenient(), Start(), steps) == 0
    ensures s == Start().(disk := [LiveHold(), TaskHold()], enqueued := [LiveHold(), TaskHold()],
                          procs := map[9 := Deciding(TaskHold(), [LiveHold(), TaskHold()])])
  {
    hide After, Untimely, Lookup, Enqueued, Removed, StepsOf, LiveHold, TaskHold, Lenient;
    var s0, live, task := Start(), LiveHold(), TaskHold();
    Queues();
    OneStep(s0.(disk := [live, task], enqueued := [live, task]), DecideLoad(9, "task"));
    var one, two := StepsOf(HoldFor(live, true)), StepsOf(HoldFor(task, true));
    Held(s0, live, [live]);
    var s1 := s0.(disk := [live], enqueued := [live]);
    Held(s1, task, [live, task]);
    var s2 := s1.(disk := [live, task], enqueued := [live, task]);
    Then(s0, one, s1, two, s2);
    AfterOne(Lenient(), s2, DecideLoad(9, "task"));
    s := Put(s2, 9, Deciding(task, [live, task]));
    steps := one + two + [DecideLoad(9, "task")];
    Then(s0, one + two, s2, [DecideLoad(9, "task")], s);
  }

  /** Its save brings back what was queued when it began, and is untimely if that is not what is queued now. */
  lemma DecisionEnds(s: State)
    requires s.procs == map[9 := Deciding(TaskHold(), [LiveHold(), TaskHold()])] && |s.disk| == 1
    ensures !Timely(s, DecideSave(9, true))
    ensures After(Lenient(), s, [DecideSave(9, true)]) == s.(disk := [LiveHold()], procs := map[])
  {
    hide After, Lookup, Enqueued, Removed, LiveHold, Lenient;
    Queues();
    AfterOne(Lenient(), s, DecideSave(9, true));
    assert s.procs - {9} == map[];
  }

  /**
    An operator's decision on a task hold is in flight while a live hold is released; its
    save brings the released hold back, and the next decision releases it again.
   */
  lemma StaleDecisionReleasesTwice(a: string, b: string) returns (steps: seq<Step>, i: nat)
    requires a != b
    ensures Initial(Start()) && ReleasedTwice(After(Lenient(), Start(), steps)) && ReachesBound(steps)
    ensures OnTwoTickets(After(Lenient(), Start(), steps).released, a, b)
    ensures i < |steps| && steps[i] == DecideSave(9, true) && !Timely(After(Lenient(), Start(), steps[..i]), steps[i])
    ensures After(Lenient(), Start(), steps[..i]).released == [Release(LiveHold(), Approving("live", a))]
  {
    hide After, Untimely, Timely, Lookup, Enqueued, Removed, ReleaseCount, LiveHolds, Approving, LiveHold, TaskHold,
      Lenient, ReachesBound, OnTwoTickets;
    var s0, live, task := Start(), LiveHold(), TaskHold();
    Queues();
    var s3, setup := DecisionBegins();
    var s4, first := GoesThrough(s3, 0, a, [task]);
    DecisionEnds(s4);
    var s5 := s4.(disk := [live], procs := map[]);
    var s6, second := GoesThrough(s5, 0, b, []);
    Then(s0, setup, s3, first, s4);
    Then(s0, setup + first, s4, [DecideSave(9, true)], s5);
    Then(s0, setup + first + [DecideSave(9, true)], s5, second, s6);
    steps := setup + first + [DecideSave(9, true)] + second;
    var x, y := Release(live, Approving("live", a)), Release(live, Approving("live", b));
    TwoCount(x, y);
    OneHold();
    assert s6.released == [x, y];
    OneStep(s4, DecideSave(9, true));
    BoundReached(steps);
    TwoTickets(a, b);
    i := |setup + first|;
    assert steps[..i] == setup + first;
  }

  /**
    Two decisions on one live hold are handled side by side: both find the hold and pass
    their checks before either takes it off the queue, and both release it.
   */
  lemma TwoHandlersReleaseTwice(a: string, b: string) returns (steps: seq<Step>, i: nat, j: nat)
    requires a != b
    ensures Initial(Start()) && ReleasedTwice(After(Lenient(), Start(), steps)) && ReachesBound(steps)
    ensures OnTwoTickets(After(Lenient(), Start(), steps).released, a, b)
    ensures i < j < |steps|
    ensures var now := After(Lenient(), Start(), steps[..i]);
      now.procs == map[1 := Checked(Approving("live", b), LiveHold())] && now.disk == [LiveHold()] && now.released == []
    ensures var now := After(Lenient(), Start(), steps[..j]);
      && steps[j] == HandleSave(1, true) && !Timely(now, steps[j])
      && now.disk == [] && now.released == [Release(LiveHold(), Approving("live", a))]
  {
    hide After, Untimely, Undisturbed, Timely, Lookup, Enqueued, Removed, ReleaseCount, LiveHolds, Approving, LiveHold,
      Lenient, StepsOf, CheckSteps, BurnSteps, ActSteps, Verified, TicketOf, Anchor, PermitsSpawn, ReachesBound,
      OnTwoTickets;
    var s0, live, d := Start(), LiveHold(), Approving("live", b);
    Queues();
    ApprovingIsBelieved("live", b);
    NamesLive(b);
    Held(s0, live, [live]);
    var hold, s1 := StepsOf(HoldFor(live, true)), s0.(disk := [live], enqueued := [live]);
    CheckRun(Lenient(), s1, 1, d, "op", Anchor());
    var check, s2 := CheckSteps(1, d, "op", Anchor()), Put(Noted(s1, d), 1, Checked(d, live));
    UndisturbedIff(Lenient(), s1, check);
    LiveFacts();
    Then(s0, hold, s1, check, s2);
    var s3, first := GoesThrough(s2, 0, a, []);
    Then(s0, hold + check, s2, first, s3);
    var mid, burn, s4 := Follows(s3, d, b);
    var act := [HandleSave(1, true), HandleAct(1)];
    Then(s0, hold + check + first, s3, burn, mid);
    Then(s0, hold + check + first + burn, mid, act, s4);
    steps := hold + check + first + burn + act;
    i, j := |hold + check|, |hold + check + first + burn|;
    assert steps[..i] == hold + check && steps[..j] == hold + check + first + burn && steps[j] == act[0];
    TwoCount(Release(live, Approving("live", a)), Release(live, d));
    OneHold();
    assert s4.released == [Release(live, Approving("live", a)), Release(live, d)];
    BoundReached(steps);
    TwoTickets(a, b);
  }

  lemma LiveFacts()
    ensures LiveHold().held.Some?
  {
  }

  /** A handler past its check acts, whether or not its hold is still queued. */
  lemma Follows(s: State, d: Decision, nonce: string) returns (mid: State, burn: seq<Step>, s': State)
    requires s.procs == map[1 := Checked(d, LiveHold())] && d == Approving("live", nonce) && s.clock == 0
    requires nonce !in s.cache.mem && |s.cache.mem| < 10 && forall n | n in s.cache.mem :: s.cache.mem[n] == 100
    requires s.disk == []
    ensures mid == After(Lenient(), s, burn) && Untimely(Lenient(), s, burn) == 0 && burn != []
    ensures mid.disk == [] && mid.released == s.released && !Timely(mid, HandleSave(1, true))
    ensures s' == After(Lenient(), mid, [HandleSave(1, true), HandleAct(1)])
    ensures Untimely(Lenient(), mid, [HandleSave(1, true), HandleAct(1)]) <= 1
    ensures s'.released == s.released + [Release(LiveHold(), d)] && s'.enqueued == s.enqueued && s'.unsaved == s.unsaved
  {
    hide After, Untimely, Undisturbed, Removed, Lookup, Admission, Approving, LiveHold, TicketOf, PermitsSpawn;
    var mem, idle := s.cache.mem[nonce := 100], s.(procs := map[]);
    ApprovingIsBelieved("live", nonce);
    TakesIn(s.cache.mem, 10, nonce, 100, 0);
    assert s == Put(idle, 1, Checked(d, LiveHold()));
    BurnRun(Lenient(), idle, 1, d, LiveHold(), mem, true);
    var burned := Burned(idle, d, mem);
    ActRun(Lenient(), burned, 1, d, LiveHold(), true);
    mid, burn := Put(burned, 1, Reloaded(d, LiveHold(), s.disk)), BurnSteps(1, mem, true);
    s' := Acted(burned, d, LiveHold(), true);
    UndisturbedIff(Lenient(), s, burn);
    TwoSteps(mid, 1, true);
    NothingThere("live");
    NamesLive(nonce);
  }

  lemma NothingThere(id: string)
    ensures Lookup([], id) == None
  {
  }

  lemma TwoSteps(s: State, pid: nat, saved: bool)
    ensures Untimely(Lenient(), s, ActSteps(pid, saved)) <= 1
  {
    hide After, Untimely;
    var save, act := HandleSave(pid, saved), HandleAct(pid);
    AfterConcat(Lenient(), s, [save], [act]);
    OneStep(s, save);
    OneStep(After(Lenient(), s, [save]), act);
    assert [save] + [act] == ActSteps(pid, saved);
  }

  // ---------------------------------------------------------------------------
  // An approval without its release
  // ---------------------------------------------------------------------------

  /** A hold is queued, an approval of it passes its check, and its nonce is burnt. */
  lemma ApprovalIsBurnt(nonce: string) returns (s: State, steps: seq<Step>, burn: Step)
    ensures burn == HandleBurn(0, map[nonce := 100], true) && s == After(Lenient(), Start(), steps + [burn])
    ensures After(Lenient(), Start(), steps).procs == map[0 := Checked(Approving("live", nonce), LiveHold())]
    ensures s.procs == map[0 := Burnt(Approving("live", nonce), LiveHold())]
    ensures s.disk == [LiveHold()] && s.released == [] && s.clock == 0 && !s.overwritten
    ensures s.cache == Cache(map[nonce := 100], map[nonce := 100]) && Ticket(nonce, 100) in s.granted
    ensures ("live", Ticket(nonce, 100)) in s.approvals
  {
    hide After, Undisturbed, Lookup, Enqueued, Removed, Approving, LiveHold, Lenient, StepsOf, CheckSteps,
      Verified, TicketOf, Anchor, PermitsSpawn, Admission;
    var s0, live, d := Start(), LiveHold(), Approving("live", nonce);
    Queues();
    LiveFacts();
    LenientFacts();
    ApprovingIsBelieved("live", nonce);
    NamesLive(nonce);
    Held(s0, live, [live]);
    var hold, s1 := StepsOf(HoldFor(live, true)), s0.(disk := [live], enqueued := [live]);
    CheckRun(Lenient(), s1, 0, d, "op", Anchor());
    var check, s2 := CheckSteps(0, d, "op", Anchor()), Put(Noted(s1, d), 0, Checked(d, live));
    Then(s0, hold, s1, check, s2);
    var mem: Nonces := map[nonce := 100];
    TakesIn(map[], 10, nonce, 100, 0);
    assert map[][nonce := 100] == mem;
    burn := HandleBurn(0, mem, true);
    AfterOne(Lenient(), s2, burn);
    s := Apply(Lenient(), s2, burn);
    steps := hold + check;
    Then(s0, steps, s2, [burn], s);
  }

  /** A crash drops the handler and leaves the queue, the nonce and the history as they were. */
  lemma Restarted(s: State, nonce: string) returns (s': State)
    requires s.clock == 0 && s.cache == Cache(map[nonce := 100], map[nonce := 100]) && !s.overwritten
    ensures s' == After(Lenient(), s, [Crash]) && s' == s.(procs := map[])
  {
    hide After;
    AfterOne(Lenient(), s, Crash);
    assert Live(map[nonce := 100], 0) == map[nonce := 100];
    s' := s.(procs := map[]);
  }

  lemma LenientFacts()
    ensures Lenient().router && Lenient().capacity == 10
  {
  }

  /**
    A hold is saved, an approval of it passes its check and has its nonce burnt, and the
    daemon crashes. The same decision is then delivered and handled again, in full; the
    hold is still queued, and the ticket is refused: nothing has been released, and
    nothing ever will be on it.
   */
  lemma CrashLosesTheRelease(nonce: string) returns (s: State, before: seq<Step>, burn: Step, again: seq<Step>)
    ensures Initial(Start()) && s == After(Lenient(), Start(), before + [burn] + [Crash] + again)
    ensures After(Lenient(), Start(), before).procs == map[0 := Checked(Approving("live", nonce), LiveHold())]
    ensures burn.HandleBurn? && burn.saved
    ensures After(Lenient(), Start(), before + [burn]).procs == map[0 := Burnt(Approving("live", nonce), LiveHold())]
    ensures again == HandleSteps(0, Approving("live", nonce), "op", Anchor(), map[], true, true)
    ensures ("live", TicketOf(Approving("live", nonce))) in s.approvals && PermitsSpawn(Approving("live", nonce))
    ensures s.released == [] && s.procs == map[] && Lookup(s.disk, "live") == Some(LiveHold())
    ensures Refuses(s, TicketOf(Approving("live", nonce))) && Orphaned(s, TicketOf(Approving("live", nonce)))
  {
    hide After, Undisturbed, Lookup, Removed, Approving, LiveHold, Lenient, HandleSteps, Verified, TicketOf, Anchor,
      PermitsSpawn, Admission;
    var d := Approving("live", nonce);
    var burnt;
    burnt, before, burn := ApprovalIsBurnt(nonce);
    Queues();
    LenientFacts();
    ApprovingIsBelieved("live", nonce);
    NamesLive(nonce);
    var crashed := Restarted(burnt, nonce);
    Then(Start(), before + [burn], burnt, [Crash], crashed);
    HandleRun(Lenient(), crashed, 0, d, "op", Anchor(), map[], true, true);
    again := HandleSteps(0, d, "op", Anchor(), map[], true, true);
    s := After(Lenient(), crashed, again);
    Then(Start(), before + [burn] + [Crash], crashed, again, s);
  }
}
