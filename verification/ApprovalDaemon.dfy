/**
  The daemon's operations on the approval queue and the nonce cache, each carried out in
  one go, as the protocol steps they consist of.
 */
module ApprovalDaemon {
  import opened Basics
  import opened Timestamps
  import opened Replay
  import opened Approval
  import opened ApprovalProtocol
  import opened ApprovalOwnership

  // ---------------------------------------------------------------------------
  // Steps in a row
  // ---------------------------------------------------------------------------

  lemma {:induction false} AfterConcat(cfg: Config, s: State, xs: seq<Step>, ys: seq<Step>)
    ensures After(cfg, s, xs + ys) == After(cfg, After(cfg, s, xs), ys)
    ensures Undisturbed(cfg, s, xs + ys) <==> Undisturbed(cfg, s, xs) && Undisturbed(cfg, After(cfg, s, xs), ys)
    ensures Untimely(cfg, s, xs + ys) == Untimely(cfg, s, xs) + Untimely(cfg, After(cfg, s, xs), ys)
  {
    hide Apply, Timely;
    if ys == [] {
      assert xs + ys == xs;
    } else {
      var before := ys[..|ys| - 1];
      AfterConcat(cfg, s, xs, before);
      assert (xs + ys)[..|xs + ys| - 1] == xs + before;
    }
  }

  lemma AfterOne(cfg: Config, s: State, x: Step)
    ensures After(cfg, s, [x]) == Apply(cfg, s, x)
    ensures Undisturbed(cfg, s, [x]) <==> Timely(s, x)
  {
    hide Apply, Timely;
    assert [x][..0] == [];
  }

  lemma AfterPair(cfg: Config, s: State, x: Step, y: Step)
    ensures After(cfg, s, [x, y]) == Apply(cfg, Apply(cfg, s, x), y)
    ensures Undisturbed(cfg, s, [x, y]) <==> Timely(s, x) && Timely(Apply(cfg, s, x), y)
  {
    hide Apply, Timely, After, Undisturbed;
    AfterOne(cfg, s, x);
    AfterOne(cfg, Apply(cfg, s, x), y);
    AfterConcat(cfg, s, [x], [y]);
    assert [x] + [y] == [x, y];
  }

  lemma PutDrop(procs: map<nat, Proc>, pid: nat, p: Proc)
    requires pid !in procs
    ensures procs[pid := p] - {pid} == procs
  {
  }

  // ---------------------------------------------------------------------------
  // A decision handled in one go
  // ---------------------------------------------------------------------------

  function CheckSteps(pid: nat, d: Decision, sender: string, ctx: Anchors): seq<Step>
  {
    [HandleLoad(pid, d, sender), HandleVerify(pid, ctx)]
  }

  function BurnSteps(pid: nat, mem: Nonces, burnt: bool): seq<Step>
  {
    [HandleBurn(pid, mem, burnt), HandleReload(pid)]
  }

  function ActSteps(pid: nat, saved: bool): seq<Step>
  {
    [HandleSave(pid, saved), HandleAct(pid)]
  }

  function HandleSteps(pid: nat, d: Decision, sender: string, ctx: Anchors, mem: Nonces, burnt: bool, saved: bool)
    : seq<Step>
  {
    CheckSteps(pid, d, sender, ctx) + BurnSteps(pid, mem, burnt) + ActSteps(pid, saved)
  }

  /** The hold a decision is about is queued and live, and the decision passes its checks. */
  ghost predicate Believes(cfg: Config, s: State, d: Decision, sender: string, ctx: Anchors)
  {
    && Lookup(s.disk, d.requestId).Some? && Lookup(s.disk, d.requestId).value.held.Some?
    && Verified(d, sender, ctx.(now := s.clock), cfg.verify)
  }

  ghost function Noted(s: State, d: Decision): State
  {
    if PermitsSpawn(d) then s.(approvals := s.approvals + {(d.requestId, TicketOf(d))}) else s
  }

  ghost function Burned(s: State, d: Decision, mem: Nonces): State
  {
    s.(cache := Cache(mem, mem), granted := s.granted + {TicketOf(d)}, overwritten := false)
  }

  ghost function Acted(s: State, d: Decision, hold: Hold, saved: bool): State
  {
    var s' := if saved then s.(disk := Removed(s.disk, d.requestId)) else s.(unsaved := s.unsaved + [d.requestId]);
    if PermitsSpawn(d) then s'.(released := s'.released + [Release(hold, d)]) else s'
  }

  /** What handling a decision comes to. */
  ghost function Handled(cfg: Config, s: State, d: Decision, sender: string, ctx: Anchors, mem: Nonces,
                         burnt: bool, saved: bool): State
  {
    if !Believes(cfg, s, d, sender, ctx) then s
    else if !cfg.router then Acted(Noted(s, d), d, Lookup(s.disk, d.requestId).value, saved)
    else if Refuses(s, TicketOf(d)) then Noted(s, d)
    else if !burnt then Noted(s, d).(cache := Cache(mem, s.cache.disk))
    else Acted(Burned(Noted(s, d), d, mem), d, Lookup(s.disk, d.requestId).value, saved)
  }

  /** Without work under way, the later steps of a handler do nothing. */
  lemma Idle(cfg: Config, s: State, pid: nat, mem: Nonces, burnt: bool, saved: bool)
    requires pid !in s.procs
    ensures After(cfg, s, BurnSteps(pid, mem, burnt)) == s && Undisturbed(cfg, s, BurnSteps(pid, mem, burnt))
    ensures After(cfg, s, ActSteps(pid, saved)) == s && Undisturbed(cfg, s, ActSteps(pid, saved))
  {
    hide After, Undisturbed;
    AfterPair(cfg, s, HandleBurn(pid, mem, burnt), HandleReload(pid));
    AfterPair(cfg, s, HandleSave(pid, saved), HandleAct(pid));
  }

  lemma CheckRun(cfg: Config, s: State, pid: nat, d: Decision, sender: string, ctx: Anchors)
    requires pid !in s.procs
    ensures Undisturbed(cfg, s, CheckSteps(pid, d, sender, ctx))
    ensures After(cfg, s, CheckSteps(pid, d, sender, ctx)) ==
      if Believes(cfg, s, d, sender, ctx)
      then Put(Noted(s, d), pid, Checked(d, Lookup(s.disk, d.requestId).value)) else s
  {
    hide After, Undisturbed, Verified, Lookup, TicketOf;
    var x, y := HandleLoad(pid, d, sender), HandleVerify(pid, ctx);
    AfterPair(cfg, s, x, y);
    var found := Lookup(s.disk, d.requestId);
    if found.Some? && found.value.held.Some? {
      PutDrop(s.procs, pid, Loaded(d, sender, found.value));
      assert s.procs[pid := Loaded(d, sender, found.value)][pid := Checked(d, found.value)] ==
             s.procs[pid := Checked(d, found.value)];
    }
  }

  lemma BurnRun(cfg: Config, s: State, pid: nat, d: Decision, hold: Hold, mem: Nonces, burnt: bool)
    requires pid !in s.procs && (!cfg.router || Refuses(s, TicketOf(d)) || Admits(cfg, s, TicketOf(d), mem))
    ensures Undisturbed(cfg, Put(s, pid, Checked(d, hold)), BurnSteps(pid, mem, burnt))
    ensures After(cfg, Put(s, pid, Checked(d, hold)), BurnSteps(pid, mem, burnt)) ==
      if !cfg.router then Put(s, pid, Reloaded(d, hold, s.disk))
      else if Refuses(s, TicketOf(d)) then s
      else if !burnt then s.(cache := Cache(mem, s.cache.disk))
      else Put(Burned(s, d, mem), pid, Reloaded(d, hold, s.disk))
  {
    hide After, Undisturbed, Admission, TicketOf, Lookup;
    var s1 := Put(s, pid, Checked(d, hold));
    AfterPair(cfg, s1, HandleBurn(pid, mem, burnt), HandleReload(pid));
    PutDrop(s.procs, pid, Checked(d, hold));
    assert s.procs[pid := Checked(d, hold)][pid := Burnt(d, hold)][pid := Reloaded(d, hold, s.disk)] ==
           s.procs[pid := Reloaded(d, hold, s.disk)];
  }

  lemma ActRun(cfg: Config, s: State, pid: nat, d: Decision, hold: Hold, saved: bool)
    requires pid !in s.procs
    ensures Lookup(s.disk, d.requestId) == Some(hold) ==>
      Undisturbed(cfg, Put(s, pid, Reloaded(d, hold, s.disk)), ActSteps(pid, saved))
    ensures After(cfg, Put(s, pid, Reloaded(d, hold, s.disk)), ActSteps(pid, saved)) == Acted(s, d, hold, saved)
  {
    hide After, Undisturbed, Removed, Lookup;
    var s1 := Put(s, pid, Reloaded(d, hold, s.disk));
    AfterPair(cfg, s1, HandleSave(pid, saved), HandleAct(pid));
    PutDrop(s.procs, pid, Cleared(d, hold));
    assert s.procs[pid := Reloaded(d, hold, s.disk)][pid := Cleared(d, hold)] == s.procs[pid := Cleared(d, hold)];
  }

  /** The six steps of a handler, with nothing in between, have one combined effect and are undisturbed. */
  lemma HandleRun(cfg: Config, s: State, pid: nat, d: Decision, sender: string, ctx: Anchors, mem: Nonces,
                  burnt: bool, saved: bool)
    requires pid !in s.procs
    requires cfg.router && Believes(cfg, s, d, sender, ctx) && !Refuses(s, TicketOf(d)) ==>
      Admits(cfg, s, TicketOf(d), mem)
    ensures var steps := HandleSteps(pid, d, sender, ctx, mem, burnt, saved);
      After(cfg, s, steps) == Handled(cfg, s, d, sender, ctx, mem, burnt, saved) && Undisturbed(cfg, s, steps)
  {
    hide After, Undisturbed, Apply, Verified, Lookup, TicketOf, Admission, Removed, CheckSteps, BurnSteps, ActSteps;
    var check, burn, act := CheckSteps(pid, d, sender, ctx), BurnSteps(pid, mem, burnt), ActSteps(pid, saved);
    AfterConcat(cfg, s, check, burn);
    AfterConcat(cfg, s, check + burn, act);
    CheckRun(cfg, s, pid, d, sender, ctx);
    if !Believes(cfg, s, d, sender, ctx) {
      Idle(cfg, s, pid, mem, burnt, saved);
    } else {
      var hold, noted := Lookup(s.disk, d.requestId).value, Noted(s, d);
      BurnRun(cfg, noted, pid, d, hold, mem, burnt);
      if !cfg.router {
        ActRun(cfg, noted, pid, d, hold, saved);
      } else if Refuses(s, TicketOf(d)) {
        Idle(cfg, noted, pid, mem, burnt, saved);
      } else if !burnt {
        Idle(cfg, noted.(cache := Cache(mem, s.cache.disk)), pid, mem, burnt, saved);
      } else {
        ActRun(cfg, Burned(noted, d, mem), pid, d, hold, saved);
      }
    }
  }

  /**
    A believed decision whose nonce is new, handled in one go, ends its hold and burns the
    nonce for good, whatever it says; the request runs if and only if it says "approved".
   */
  lemma DecisionEndsTheHold(cfg: Config, s: State, pid: nat, d: Decision, sender: string, ctx: Anchors, mem: Nonces)
    requires pid !in s.procs && cfg.router && Unique(s.disk) && Believes(cfg, s, d, sender, ctx)
    requires !Refuses(s, TicketOf(d)) && Admits(cfg, s, TicketOf(d), mem)
    ensures var s' := After(cfg, s, HandleSteps(pid, d, sender, ctx, mem, true, true));
      && s'.released == s.released +
           (if d.decision == "approved" then [Release(Lookup(s.disk, d.requestId).value, d)] else [])
      && Lookup(s'.disk, d.requestId) == None && s'.disk == Others(s.disk, d.requestId)
      && TicketOf(d) in s'.granted && Refuses(s', TicketOf(d)) && TicketOf(d).nonce in s'.cache.disk
      && s'.procs == s.procs
  {
    hide After, Undisturbed, HandleSteps, Verified, TicketOf, Lookup, Removed, Others, Unique;
    HandleRun(cfg, s, pid, d, sender, ctx, mem, true, true);
    RemovedIs(s.disk, d.requestId, d.requestId);
    assert s.released + [] == s.released;
  }

  /** Holding a request, and deciding on one, in one go. */
  lemma ShortRuns(cfg: Config, s: State, pid: nat, hold: Hold, id: string, saved: bool)
    requires pid !in s.procs
    ensures Undisturbed(cfg, s, [HoldLoad(pid, hold), HoldSave(pid, saved)])
    ensures After(cfg, s, [HoldLoad(pid, hold), HoldSave(pid, saved)]) ==
      if saved then s.(disk := Enqueued(s.disk, hold), enqueued := s.enqueued + [hold]) else s
    ensures Undisturbed(cfg, s, [DecideLoad(pid, id), DecideSave(pid, saved)])
    ensures After(cfg, s, [DecideLoad(pid, id), DecideSave(pid, saved)]) ==
      if saved && Lookup(s.disk, id).Some? && Lookup(s.disk, id).value.held.None?
      then s.(disk := Removed(s.disk, id)) else s
  {
    hide After, Undisturbed, Enqueued, Removed, Lookup;
    AfterPair(cfg, s, HoldLoad(pid, hold), HoldSave(pid, saved));
    AfterPair(cfg, s, DecideLoad(pid, id), DecideSave(pid, saved));
    PutDrop(s.procs, pid, Holding(hold, s.disk));
    LookupMatches(s.disk, id);
    if Lookup(s.disk, id).Some? {
      PutDrop(s.procs, pid, Deciding(Lookup(s.disk, id).value, s.disk));
    }
  }

  /** A pass of the scheduler in one go. */
  lemma PassRun(cfg: Config, s: State, pid: nat, edits: seq<Edit>, saved: bool)
    requires pid !in s.procs
    ensures Undisturbed(cfg, s, [PassLoad(pid), PassSave(pid, edits, saved)])
    ensures After(cfg, s, [PassLoad(pid), PassSave(pid, edits, saved)]) ==
      if saved && Edited(s.disk, edits, s.clock) != s.disk
      then s.(disk := Edited(s.disk, edits, s.clock), enqueued := s.enqueued + Added(edits)) else s
  {
    hide After, Undisturbed, Edited, Added;
    AfterPair(cfg, s, PassLoad(pid), PassSave(pid, edits, saved));
    PutDrop(s.procs, pid, Passing(s.disk, s.clock));
  }

  // ---------------------------------------------------------------------------
  // Runs of whole operations
  // ---------------------------------------------------------------------------

  datatype Operation =
    | Quiet(step: Step)
    | HoldFor(hold: Hold, saved: bool)
    | Decide(id: string, saved: bool)
    | Pass(edits: seq<Edit>, saved: bool)
    | Handle(d: Decision, sender: string, ctx: Anchors, mem: Nonces, burnt: bool, saved: bool)

  function StepsOf(op: Operation): seq<Step>
  {
    match op
    case Quiet(step) => [step]
    case HoldFor(hold, saved) => [HoldLoad(0, hold), HoldSave(0, saved)]
    case Decide(id, saved) => [DecideLoad(0, id), DecideSave(0, saved)]
    case Pass(edits, saved) => [PassLoad(0), PassSave(0, edits, saved)]
    case Handle(d, sender, ctx, mem, burnt, saved) => HandleSteps(0, d, sender, ctx, mem, burnt, saved)
  }

  function Flatten(ops: seq<Operation>): seq<Step>
  {
    if ops == [] then [] else Flatten(ops[..|ops| - 1]) + StepsOf(ops[|ops| - 1])
  }

  /** The operation is one the daemon can carry out: its cache outcome, if it needs one, is a possible one. */
  ghost predicate Possible(cfg: Config, s: State, op: Operation)
  {
    match op
    case Quiet(step) => step.Tick? || step.Crash? || step.RequestNonce? || step.SchedulerSave?
    case Handle(d, sender, ctx, mem, _, _) =>
      cfg.router && Believes(cfg, s, d, sender, ctx) && !Refuses(s, TicketOf(d)) ==> Admits(cfg, s, TicketOf(d), mem)
    case _ => true
  }

  ghost predicate AllPossible(cfg: Config, s: State, ops: seq<Operation>)
  {
    ops == [] ||
    (var before := ops[..|ops| - 1];
     AllPossible(cfg, s, before) && Possible(cfg, After(cfg, s, Flatten(before)), ops[|ops| - 1]))
  }

  lemma OperationRun(cfg: Config, s: State, op: Operation)
    requires s.procs == map[] && Possible(cfg, s, op)
    ensures Undisturbed(cfg, s, StepsOf(op)) && After(cfg, s, StepsOf(op)).procs == map[]
  {
    hide After, Undisturbed, HandleSteps, Verified, Lookup, Admits, TicketOf, Live, Enqueued, Removed, Edited, Added,
      Refuses;
    match op
    case Quiet(step) => AfterOne(cfg, s, step);
    case HoldFor(hold, saved) => ShortRuns(cfg, s, 0, hold, "", saved);
    case Decide(id, saved) => ShortRuns(cfg, s, 0, Hold("", "", None, None, ""), id, saved);
    case Pass(edits, saved) => PassRun(cfg, s, 0, edits, saved);
    case Handle(d, sender, ctx, mem, burnt, saved) => HandleRun(cfg, s, 0, d, sender, ctx, mem, burnt, saved);
  }

  lemma {:induction false} OperationsAreUndisturbed(cfg: Config, s: State, ops: seq<Operation>)
    requires s.procs == map[] && AllPossible(cfg, s, ops)
    ensures Undisturbed(cfg, s, Flatten(ops)) && After(cfg, s, Flatten(ops)).procs == map[]
  {
    hide After, Possible, StepsOf, Apply;
    if ops == [] {
      assert After(cfg, s, []) == s by { AfterNone(cfg, s); }
    } else {
      var before := ops[..|ops| - 1];
      OperationsAreUndisturbed(cfg, s, before);
      OperationRun(cfg, After(cfg, s, Flatten(before)), ops[|ops| - 1]);
      AfterConcat(cfg, s, Flatten(before), StepsOf(ops[|ops| - 1]));
    }
  }

  lemma AfterNone(cfg: Config, s: State)
    ensures After(cfg, s, []) == s
  {
  }

  /**
    With every operation carried out in one go and every removal saved, a request is
    released at most once for each time it was put on hold, whatever is delivered or
    redelivered, and whatever the nonces.
   */
  lemma AtomicHandlingReleasesOnce(cfg: Config, s: State, ops: seq<Operation>, id: string)
    requires Initial(s) && AllPossible(cfg, s, ops)
    ensures var end := After(cfg, s, Flatten(ops));
      Failures(end.unsaved, id) == 0 ==>
        ReleaseCount(end.released, id) + Queued(end.disk, id) <= LiveHolds(end.enqueued, id)
  {
    hide After, Undisturbed, AllPossible, ReleaseCount, LiveHolds, Failures, Queued;
    OperationsAreUndisturbed(cfg, s, ops);
    UndisturbedIff(cfg, s, Flatten(ops));
    ReleasesPerHold(cfg, s, Flatten(ops), id);
  }

  // ---------------------------------------------------------------------------
  // The daemon
  // ---------------------------------------------------------------------------

  class Daemon {
    const cfg: Config
    var clock: int
    var disk: seq<Hold>
    var cache: ReplayCache
    var released: seq<Release>
    ghost var view: State

    ghost predicate Valid()
      reads this, cache
    {
      && cache.Valid() && cache.capacity == cfg.capacity
      && view.disk == disk && view.clock == clock && view.released == released
      && view.cache == Cache(cache.nonces, cache.stored) && view.procs == map[]
    }

    /** A daemon with nothing held and no nonce seen. */
    constructor (cfg: Config, now: int)
      requires cfg.capacity >= 1
      ensures Valid() && Initial(view) && this.cfg == cfg && fresh(cache)
    {
      this.cfg := cfg;
      clock, disk, released := now, [], [];
      cache := new ReplayCache(None, cfg.capacity, now);
      view := State([], Cache(map[], map[]), now, map[], {}, {}, [], [], [], false);
    }

    /** Start over from what was persisted. */
    method Restart()
      requires Valid()
      modifies this
      ensures Valid() && fresh(cache) && disk == old(disk) && clock == old(clock) && released == old(released)
      ensures view == After(cfg, old(view), StepsOf(Quiet(Crash)))
    {
      hide After;
      AfterOne(cfg, view, Crash);
      cache := new ReplayCache(Some(Stored(cache.capacity, cache.stored)), cfg.capacity, clock);
      view := Apply(cfg, view, Crash);
    }

    /** Time passes. */
    method Advance(to: int)
      requires Valid() && clock <= to
      modifies this`clock, this`view
      ensures Valid() && clock == to && view == After(cfg, old(view), StepsOf(Quiet(Tick(to))))
    {
      hide After;
      AfterOne(cfg, view, Tick(to));
      clock := to;
      view := Apply(cfg, view, Tick(to));
    }

    /** A pass of the scheduler saves its own copy of the nonces over the file. */
    method LoseFileTo(copy: Nonces)
      requires Valid()
      modifies this`view, cache`stored
      ensures Valid() && cache == old(cache) && cache.nonces == old(cache.nonces)
      ensures view == After(cfg, old(view), StepsOf(Quiet(SchedulerSave(copy))))
    {
      hide After;
      AfterOne(cfg, view, SchedulerSave(copy));
      cache.stored := copy;
      view := Apply(cfg, view, SchedulerSave(copy));
    }

    /** Put a request on hold. */
    method HoldRequest(hold: Hold, canSave: bool)
      requires Valid()
      modifies this
      ensures Valid() && cache == old(cache) && clock == old(clock) && released == old(released)
      ensures view == After(cfg, old(view), StepsOf(HoldFor(hold, canSave)))
    {
      hide After, Undisturbed;
      ShortRuns(cfg, view, 0, hold, "", canSave);
      var queue := new ApprovalQueue(disk);
      queue.Enqueue(hold);
      if canSave {
        disk := queue.pending;
        view := view.(disk := disk, enqueued := view.enqueued + [hold]);
      }
    }

    /** An operator decides: the decision is published; only a task hold leaves the queue. */
    method DecideRequest(id: string, canSave: bool) returns (pending: Option<Hold>)
      requires Valid()
      modifies this
      ensures Valid() && cache == old(cache) && clock == old(clock) && released == old(released)
      ensures pending == Lookup(old(disk), id)
      ensures view == After(cfg, old(view), StepsOf(Decide(id, canSave)))
    {
      hide After, Undisturbed, Lookup;
      ShortRuns(cfg, view, 0, Hold("", "", None, None, ""), id, canSave);
      var queue := new ApprovalQueue(disk);
      pending := queue.Get(id);
      if pending.Some? && pending.value.held.None? {
        var _ := queue.Remove(id);
        if canSave {
          disk := queue.pending;
          view := view.(disk := disk);
        }
      }
    }

    /** A pass of the scheduler edits its copy of the queue and saves it once, if that changed it. */
    method SchedulerPass(edits: seq<Edit>, canSave: bool)
      requires Valid()
      modifies this
      ensures Valid() && cache == old(cache) && clock == old(clock) && released == old(released)
      ensures view == After(cfg, old(view), StepsOf(Pass(edits, canSave)))
    {
      hide After, Undisturbed, Lookup, Enqueued, Removed, Added, RequestExpired;
      PassRun(cfg, view, 0, edits, canSave);
      var queue := new ApprovalQueue(disk);
      for i := 0 to |edits|
        invariant fresh(queue) && queue.pending == Edited(disk, edits[..i], clock)
        invariant Valid() && disk == old(disk) && clock == old(clock) && view == old(view)
        invariant cache == old(cache) && released == old(released)
      {
        assert edits[..i + 1][..i] == edits[..i];
        match edits[i]
        case GateHolds(h) =>
          queue.Enqueue(AsTask(h));
        case GateDrops(id) =>
          var _ := queue.Remove(id);
        case Sweeps(id) =>
          var found := queue.Get(id);
          if found.Some? && found.value.held.Some? && RequestExpired(found.value.expiresAt, clock) {
            var _ := queue.Remove(id);
          }
      }
      assert edits[..|edits|] == edits;
      if canSave && queue.pending != disk {
        disk := queue.pending;
        view := view.(disk := disk, enqueued := view.enqueued + Added(edits));
      }
    }

    /** Burn the decision's nonce; a refusal, or a write that fails, means no release. Without a router all pass. */
    method BurnNonce(d: Decision, canPersist: bool) returns (burnt: bool)
      requires cache.Valid() && cache.capacity == cfg.capacity
      requires d.nonce.Some? && d.expiresAt.Some? && ParseRfc3339(d.expiresAt.value).Some?
      modifies cache
      ensures var t, was := TicketOf(d), old(Cache(cache.nonces, cache.stored));
        if !cfg.router then burnt && Cache(cache.nonces, cache.stored) == was
        else if t.expiry <= clock || t.nonce in was.mem then !burnt && Cache(cache.nonces, cache.stored) == was
        else
          && burnt == canPersist && cache.stored == (if burnt then cache.nonces else was.disk)
          && Admission(was.mem, cfg.capacity, t.nonce, t.expiry, clock, cache.nonces)
    {
      hide ParseRfc3339, Admission;
      if !cfg.router {
        return true;
      }
      var v := cache.AdmitAt(d.nonce.value, d.expiresAt.value, clock, canPersist);
      burnt := v == Admitted;
    }

    /**
      Handle a delivered decision: find the live hold, check the decision, burn its nonce,
      take the hold off the queue, then release it if the decision approves.
     */
    method HandleDecision(d: Decision, sender: string, ctx: Anchors, canPersist: bool, canSave: bool)
      requires Valid()
      modifies this, cache
      ensures Valid() && cache == old(cache) && clock == old(clock)
      ensures view == After(cfg, old(view), StepsOf(Handle(d, sender, ctx, cache.nonces, canPersist, canSave)))
      ensures Possible(cfg, old(view), Handle(d, sender, ctx, cache.nonces, canPersist, canSave))
    {
      hide After, Undisturbed, ParseRfc3339, Admission, Lookup, Removed, HandleSteps, TicketOf;
      var queue := new ApprovalQueue(disk);
      var pending := queue.Get(d.requestId);
      var anchors := ctx.(now := clock);
      if pending.None? || pending.value.held.None? || VerificationFailure(d, sender, anchors, cfg.verify) != None {
        HandleRun(cfg, view, 0, d, sender, ctx, cache.nonces, canPersist, canSave);
        return;
      }
      ghost var before := view;
      var burnt := BurnNonce(d, canPersist);
      HandleRun(cfg, before, 0, d, sender, ctx, cache.nonces, canPersist, canSave);
      view := Handled(cfg, before, d, sender, ctx, cache.nonces, canPersist, canSave);
      if !burnt {
        return;
      }
      var again := new ApprovalQueue(disk);
      var _ := again.Remove(d.requestId);
      if canSave {
        disk := again.pending;
      }
      if PermitsSpawn(d) {
        released := released + [Release(pending.value, d)];
      }
    }
  }
}
