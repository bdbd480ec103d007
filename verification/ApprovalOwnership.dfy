/**
  Who owns a hold. Every queue holds at most one hold per request, always. A save is
  untimely when it overwrites a queue newer than the one it was computed from, or comes
  from a handler whose hold is no longer queued. Each untimely save can cost one release
  too many, and nothing else can; without any, a hold is released at most once, decisions
  touch task holds only and handlers live holds only.
 */
module ApprovalOwnership {
  import opened Basics
  import opened Replay
  import opened Approval
  import opened ApprovalProtocol

  // ---------------------------------------------------------------------------
  // One hold per request, in every interleaving
  // ---------------------------------------------------------------------------

  /** Work that goes about with a copy of the queue. */
  predicate HasQueue(p: Proc)
  {
    p.Holding? || p.Deciding? || p.Passing? || p.Reloaded?
  }

  ghost predicate AllUnique(s: State)
  {
    && Unique(s.disk)
    && (forall k | k in s.procs && HasQueue(s.procs[k]) :: Unique(s.procs[k].queue))
  }

  /** The steps that write the queue. */
  predicate Saves(step: Step)
  {
    step.HoldSave? || step.DecideSave? || step.HandleSave? || step.PassSave?
  }

  lemma UniqueStep(cfg: Config, s: State, step: Step)
    requires AllUnique(s)
    ensures AllUnique(Apply(cfg, s, step))
  {
    hide TicketOf, Verified, Admits, Live, Lookup, Enqueued, Removed, Edited, Unique;
    if Saves(step) && step.pid in s.procs {
      var p := s.procs[step.pid];
      if p.Holding? {
        EnqueuedIs(p.queue, p.hold, p.hold.requestId);
      } else if p.Deciding? {
        RemovedIs(p.queue, p.found.requestId, p.found.requestId);
      } else if p.Reloaded? {
        RemovedIs(p.queue, p.d.requestId, p.d.requestId);
      } else if p.Passing? && step.PassSave? {
        EditedIs(p.queue, step.edits, p.now, "");
      }
    }
  }

  /** Request ids in the persisted queue, and in every copy of it in flight, stay unique. */
  lemma {:induction false} IdsStayUnique(cfg: Config, s: State, steps: seq<Step>)
    requires AllUnique(s)
    ensures AllUnique(After(cfg, s, steps))
  {
    hide Apply, AllUnique;
    if steps != [] {
      IdsStayUnique(cfg, s, steps[..|steps| - 1]);
      UniqueStep(cfg, After(cfg, s, steps[..|steps| - 1]), steps[|steps| - 1]);
    }
  }

  // ---------------------------------------------------------------------------
  // One release per hold, when nobody is disturbed
  // ---------------------------------------------------------------------------

  /** The save about to be made rests on the queue as it is, and a handler's hold is still in it. */
  ghost predicate Timely(s: State, step: Step)
  {
    Saves(step) && step.pid in s.procs ==>
      var p := s.procs[step.pid];
      && (HasQueue(p) ==> p.queue == s.disk)
      && (p.Reloaded? ==> Lookup(p.queue, p.d.requestId) == Some(p.hold))
  }

  ghost predicate Undisturbed(cfg: Config, s: State, steps: seq<Step>)
  {
    steps == [] ||
    (var before := steps[..|steps| - 1];
     Undisturbed(cfg, s, before) && Timely(After(cfg, s, before), steps[|steps| - 1]))
  }

  ghost function LiveHolds(q: seq<Hold>, id: string): nat
  {
    if q == [] then 0
    else LiveHolds(q[..|q| - 1], id) +
         (if q[|q| - 1].requestId == id && q[|q| - 1].held.Some? then 1 else 0)
  }

  ghost function Failures(ids: seq<string>, id: string): nat
  {
    if ids == [] then 0 else Failures(ids[..|ids| - 1], id) + (if ids[|ids| - 1] == id then 1 else 0)
  }

  ghost function ReleaseCount(rs: seq<Release>, id: string): nat
  {
    if rs == [] then 0 else ReleaseCount(rs[..|rs| - 1], id) + (if rs[|rs| - 1].hold.requestId == id then 1 else 0)
  }

  /** One if a live hold of `id` is queued. */
  ghost function Queued(q: seq<Hold>, id: string): nat
  {
    if Lookup(q, id).Some? && Lookup(q, id).value.held.Some? then 1 else 0
  }

  /** The handlers that have taken the hold of `id` off the queue and not yet acted. */
  ghost function Poised(procs: map<nat, Proc>, id: string): set<nat>
  {
    set k | k in procs && procs[k].Cleared? && procs[k].hold.requestId == id
  }

  /** A handler's hold is live and the one its decision names; a decision's hold is the one it looked up. */
  ghost predicate Matched(p: Proc)
  {
    && (p.Loaded? || p.Checked? || Spent(p) ==> p.hold.requestId == p.d.requestId && p.hold.held.Some?)
    && (p.Deciding? ==> Lookup(p.queue, p.found.requestId) == Some(p.found))
  }

  /** Releases, and holds that may still lead to one, beyond the holds saved and the removals that were not. */
  ghost function Surplus(s: State, id: string): int
  {
    ReleaseCount(s.released, id) + |Poised(s.procs, id)| + Queued(s.disk, id)
    - LiveHolds(s.enqueued, id) - Failures(s.unsaved, id)
  }

  ghost predicate Orderly(s: State)
  {
    AllUnique(s) && forall k | k in s.procs :: Matched(s.procs[k])
  }

  lemma MatchedStep(cfg: Config, s: State, step: Step)
    requires Orderly(s)
    ensures Orderly(Apply(cfg, s, step))
  {
    hide AllUnique, Apply, Matched;
    UniqueStep(cfg, s, step);
    forall k | k in Apply(cfg, s, step).procs
      ensures Matched(Apply(cfg, s, step).procs[k])
    {
      ProcMatches(cfg, s, step, k);
    }
  }

  lemma ProcMatches(cfg: Config, s: State, step: Step, k: nat)
    requires k in Apply(cfg, s, step).procs && (k in s.procs ==> Matched(s.procs[k]))
    ensures Matched(Apply(cfg, s, step).procs[k])
  {
    hide TicketOf, Verified, Admits, Live, Lookup, Enqueued, Removed, Edited, Refuses;
    if step.HandleLoad? {
      LookupMatches(s.disk, step.d.requestId);
    } else if step.DecideLoad? {
      LookupMatches(s.disk, step.id);
    }
  }

  lemma PoisedPut(procs: map<nat, Proc>, pid: nat, p: Proc, id: string)
    ensures Poised(procs[pid := p], id) ==
      if p.Cleared? && p.hold.requestId == id then Poised(procs, id) + {pid} else Poised(procs, id) - {pid}
  {
  }

  lemma PoisedDrop(procs: map<nat, Proc>, pid: nat, id: string)
    ensures Poised(procs - {pid}, id) == Poised(procs, id) - {pid}
  {
  }

  /** A new hold is saved; if it was computed from another queue, one live hold may come back with it. */
  lemma SaveHold(s: State, p: Proc, id: string)
    requires p.Holding? && Unique(p.queue)
    ensures Queued(Enqueued(p.queue, p.hold), id) + LiveHolds(s.enqueued, id) <=
      Queued(s.disk, id) + LiveHolds(s.enqueued + [p.hold], id) + if p.queue == s.disk then 0 else 1
  {
    EnqueuedIs(p.queue, p.hold, id);
    assert (s.enqueued + [p.hold])[..|s.enqueued|] == s.enqueued;
  }

  /** A pass brings no live hold in; one computed from another queue may bring one back. */
  lemma SavePass(s: State, p: Proc, edits: seq<Edit>, id: string)
    requires p.Passing? && Unique(p.queue)
    ensures Queued(Edited(p.queue, edits, p.now), id) <= Queued(s.disk, id) + if p.queue == s.disk then 0 else 1
    ensures LiveHolds(s.enqueued + Added(edits), id) == LiveHolds(s.enqueued, id)
  {
    hide Edited;
    EditedIs(p.queue, edits, p.now, id);
    AddedAreTasks(s.enqueued, edits, id);
  }

  lemma {:induction false} AddedAreTasks(enqueued: seq<Hold>, edits: seq<Edit>, id: string)
    ensures LiveHolds(enqueued + Added(edits), id) == LiveHolds(enqueued, id)
  {
    if edits == [] {
      assert enqueued + Added(edits) == enqueued;
    } else {
      var before, e := edits[..|edits| - 1], edits[|edits| - 1];
      AddedAreTasks(enqueued, before, id);
      assert Added(before) + [] == Added(before);
      if e.GateHolds? {
        var so := enqueued + Added(before);
        assert enqueued + Added(edits) == so + [AsTask(e.hold)];
        assert (so + [AsTask(e.hold)])[..|so|] == so;
      }
    }
  }

  /** The steps that save the queue or act on a hold; all others leave releases and holds alone. */
  predicate Matters(step: Step)
  {
    Saves(step) || step.HandleAct?
  }

  lemma QuietStep(cfg: Config, s: State, step: Step, id: string)
    requires !Matters(step)
    ensures Surplus(Apply(cfg, s, step), id) <= Surplus(s, id)
  {
    hide TicketOf, Verified, Admits, Live, Lookup, Enqueued, Removed, Edited, Added, LiveHolds, Failures,
      ReleaseCount, Poised, Queued, Refuses;
    var s' := Apply(cfg, s, step);
    if step.Crash? {
      assert Poised(map[], id) == {} by { PoisedNone(id); }
    } else if s'.procs != s.procs {
      var pid := step.pid;
      CardLe(Poised(s.procs, id), pid);
      PoisedDrop(s.procs, pid, id);
      if pid in s'.procs {
        PoisedPut(s.procs, pid, s'.procs[pid], id);
      }
    }
  }

  /** No step adds more than one to the surplus, and a timely one adds nothing. */
  lemma SurplusStep(cfg: Config, s: State, step: Step, id: string)
    requires Orderly(s)
    ensures Surplus(Apply(cfg, s, step), id) <= Surplus(s, id) + if Timely(s, step) then 0 else 1
  {
    hide Lookup, Enqueued, Removed, Edited, Added, Unique, LiveHolds, Failures, ReleaseCount, Poised, Queued;
    if !Matters(step) {
      QuietStep(cfg, s, step, id);
    } else if step.pid in s.procs {
      var pid, p, s' := step.pid, s.procs[step.pid], Apply(cfg, s, step);
      CardLe(Poised(s.procs, id), pid);
      PoisedDrop(s.procs, pid, id);
      if step.HoldSave? && p.Holding? {
        SaveHold(s, p, id);
      } else if step.DecideSave? && p.Deciding? {
        SaveDecision(s, p, id);
      } else if step.PassSave? && p.Passing? {
        SavePass(s, p, step.edits, id);
      } else if step.HandleSave? && p.Reloaded? {
        SaveTaking(s, s', pid, step.saved, id);
      } else if step.HandleAct? && p.Cleared? {
        ActOnHold(s, s', pid, id);
      }
    }
  }

  lemma PoisedNone(id: string)
    ensures Poised(map[], id) == {}
  {
  }

  lemma CardLe(a: set<nat>, x: nat)
    ensures |a - {x}| <= |a| && |a + {x}| <= |a| + 1
    ensures x in a ==> |a - {x}| == |a| - 1
  {
    assert x in a ==> a == (a - {x}) + {x};
    assert x !in a ==> a - {x} == a;
  }

  /** Taking a task hold off the queue leaves the live holds where they are, if the queue is the current one. */
  lemma SaveDecision(s: State, p: Proc, id: string)
    requires p.Deciding? && Unique(p.queue)
    ensures Queued(Removed(p.queue, p.found.requestId), id) <=
      Queued(s.disk, id) + if p.queue == s.disk then 0 else 1
  {
    RemovedIs(p.queue, p.found.requestId, id);
  }

  lemma SaveTaking(s: State, s': State, pid: nat, saved: bool, id: string)
    requires Orderly(s) && pid in s.procs && s.procs[pid].Reloaded?
    requires s' == Put(if saved then s.(disk := Removed(s.procs[pid].queue, s.procs[pid].d.requestId))
                       else s.(unsaved := s.unsaved + [s.procs[pid].d.requestId]),
                       pid, Cleared(s.procs[pid].d, s.procs[pid].hold))
    ensures Surplus(s', id) <= Surplus(s, id) + if Timely(s, HandleSave(pid, saved)) then 0 else 1
  {
    var p := s.procs[pid];
    assert Matched(p);
    PoisedPut(s.procs, pid, s'.procs[pid], id);
    CardLe(Poised(s.procs, id), pid);
    assert pid !in Poised(s.procs, id);
    if saved {
      RemovedIs(p.queue, p.d.requestId, id);
    } else {
      assert s'.unsaved[..|s.unsaved|] == s.unsaved;
    }
  }

  lemma ActOnHold(s: State, s': State, pid: nat, id: string)
    requires pid in s.procs && s.procs[pid].Cleared?
    requires s' == Drop(if PermitsSpawn(s.procs[pid].d)
                        then s.(released := s.released + [Release(s.procs[pid].hold, s.procs[pid].d)]) else s, pid)
    ensures Surplus(s', id) <= Surplus(s, id)
  {
    hide Lookup, LiveHolds, Failures;
    PoisedDrop(s.procs, pid, id);
    CardLe(Poised(s.procs, id), pid);
    if PermitsSpawn(s.procs[pid].d) {
      assert s'.released[..|s.released|] == s.released;
    }
  }

  /** How many saves of the run were untimely. */
  ghost function Untimely(cfg: Config, s: State, steps: seq<Step>): nat
  {
    if steps == [] then 0
    else
      var before := steps[..|steps| - 1];
      Untimely(cfg, s, before) + if Timely(After(cfg, s, before), steps[|steps| - 1]) then 0 else 1
  }

  lemma {:induction false} UndisturbedIff(cfg: Config, s: State, steps: seq<Step>)
    ensures Undisturbed(cfg, s, steps) <==> Untimely(cfg, s, steps) == 0
  {
    hide After, Timely;
    if steps != [] {
      UndisturbedIff(cfg, s, steps[..|steps| - 1]);
    }
  }

  lemma {:induction false} SurplusGrowth(cfg: Config, s: State, steps: seq<Step>, id: string)
    requires Orderly(s)
    ensures Orderly(After(cfg, s, steps))
    ensures Surplus(After(cfg, s, steps), id) <= Surplus(s, id) + Untimely(cfg, s, steps)
  {
    hide Apply, Orderly, Surplus, Timely;
    if steps != [] {
      var before := steps[..|steps| - 1];
      SurplusGrowth(cfg, s, before, id);
      MatchedStep(cfg, After(cfg, s, before), steps[|steps| - 1]);
      SurplusStep(cfg, After(cfg, s, before), steps[|steps| - 1], id);
    }
  }

  /**
    In every interleaving a request is released at most once for each time it was put on
    hold, plus once for each removal that could not be saved, plus once for each untimely
    save; a hold still queued, or taken off and about to be acted on, counts as released.
   */
  lemma ReleasesPerHold(cfg: Config, s: State, steps: seq<Step>, id: string)
    requires Initial(s)
    ensures var end := After(cfg, s, steps);
      ReleaseCount(end.released, id) + |Poised(end.procs, id)| + Queued(end.disk, id) <=
      LiveHolds(end.enqueued, id) + Failures(end.unsaved, id) + Untimely(cfg, s, steps)
  {
    hide After, Untimely;
    PoisedNone(id);
    SurplusGrowth(cfg, s, steps, id);
  }

  // ---------------------------------------------------------------------------
  // Single ownership
  // ---------------------------------------------------------------------------

  /** The step saves a new hold of `id`. */
  ghost predicate Reholds(s: State, step: Step, id: string)
  {
    step.HoldSave? && step.pid in s.procs && s.procs[step.pid].Holding? && s.procs[step.pid].hold.requestId == id
  }

  /** The step saves an operator's decision on `id`. */
  ghost predicate Decides(s: State, step: Step, id: string)
  {
    step.DecideSave? && step.pid in s.procs && s.procs[step.pid].Deciding? && s.procs[step.pid].found.requestId == id
  }

  /** The step takes the hold of `id` off the queue to act on it. */
  ghost predicate Takes(s: State, step: Step, id: string)
  {
    step.HandleSave? && step.pid in s.procs && s.procs[step.pid].Reloaded? && s.procs[step.pid].d.requestId == id
  }

  /** The step saves a pass of the scheduler whose gate edited `id`. */
  ghost predicate PassGates(s: State, step: Step, id: string)
  {
    && step.PassSave? && step.pid in s.procs && s.procs[step.pid].Passing?
    && exists e | e in step.edits :: Gates(e, id)
  }

  /** The step saves a pass that swept `id`, whose window had passed when the pass began. */
  ghost predicate PassSweeps(s: State, step: Step, id: string)
  {
    && step.PassSave? && step.pid in s.procs && s.procs[step.pid].Passing? && Sweeps(id) in step.edits
    && IsSwept(s.procs[step.pid].queue, id, s.procs[step.pid].now)
  }

  /**
    A timely step changes what is queued for `id` in these ways only: a new hold is put in,
    an operator's decision takes out a task hold, a handler takes out the live hold it will
    act on, the scheduler's gate edits it without making it live, or its sweep takes out a
    live hold whose window has passed. Where a single hold is named the others stand, in
    their order.
   */
  lemma OwnershipStep(cfg: Config, s: State, step: Step, id: string)
    requires Orderly(s) && Timely(s, step)
    ensures var before, after := Lookup(s.disk, id), Lookup(Apply(cfg, s, step).disk, id);
      || after == before
      || (Reholds(s, step, id) && after == Some(s.procs[step.pid].hold))
      || (Decides(s, step, id) && before == Some(s.procs[step.pid].found) && before.value.held.None? && after == None)
      || (Takes(s, step, id) && before == Some(s.procs[step.pid].hold) && before.value.held.Some? && after == None)
      || (PassGates(s, step, id) && (after.Some? ==> after.value.held.None?))
      || (PassSweeps(s, step, id) && before.Some? && before.value.held.Some? && after == None)
    ensures Reholds(s, step, id) || Decides(s, step, id) || Takes(s, step, id) ==>
      Others(Apply(cfg, s, step).disk, id) == Others(s.disk, id)
  {
    hide TicketOf, Verified, Admits, Live, Lookup, Enqueued, Removed, Edited, Unique, Others;
    if Saves(step) {
      if step.pid in s.procs {
        var p := s.procs[step.pid];
        assert Matched(p);
        if p.Holding? {
          EnqueuedIs(p.queue, p.hold, id);
        } else if p.Deciding? {
          RemovedIs(p.queue, p.found.requestId, id);
          OthersTwice(p.queue, id);
        } else if p.Reloaded? {
          RemovedIs(p.queue, p.d.requestId, id);
          OthersTwice(p.queue, id);
        } else if p.Passing? && step.PassSave? {
          EditedIs(p.queue, step.edits, p.now, id);
        }
      }
    }
  }

  lemma {:induction false} OthersTwice(q: seq<Hold>, id: string)
    ensures Others(Others(q, id), id) == Others(q, id)
  {
    if q != [] {
      OthersTwice(q[1..], id);
      if q[0].requestId != id {
        assert Others(q, id)[1..] == Others(q[1..], id);
      }
    }
  }

  /** No step of the run holds `id` anew, nor acts on it in a way meant for its kind of hold. */
  ghost predicate LeftAlone(cfg: Config, s: State, steps: seq<Step>, id: string, live: bool)
  {
    steps == [] ||
    (var before := steps[..|steps| - 1];
     var now := After(cfg, s, before);
     && LeftAlone(cfg, s, before, id, live)
     && !Reholds(now, steps[|steps| - 1], id)
     && !PassGates(now, steps[|steps| - 1], id)
     && (if live then !Takes(now, steps[|steps| - 1], id) && !PassSweeps(now, steps[|steps| - 1], id)
         else !Decides(now, steps[|steps| - 1], id)))
  }

  /**
    However many decisions operators make, a live hold leaves the queue only through a
    handler, or swept once its window has passed; however many decisions are handled, a
    task hold leaves it only through an operator's decision or the scheduler's gate.
   */
  lemma {:induction false} HoldStays(cfg: Config, s: State, steps: seq<Step>, id: string)
    requires Orderly(s) && Undisturbed(cfg, s, steps) && Lookup(s.disk, id).Some?
    requires LeftAlone(cfg, s, steps, id, Lookup(s.disk, id).value.held.Some?)
    ensures Lookup(After(cfg, s, steps).disk, id) == Lookup(s.disk, id)
    ensures Orderly(After(cfg, s, steps))
  {
    hide Apply, Orderly, Timely, Lookup;
    if steps != [] {
      var before := steps[..|steps| - 1];
      HoldStays(cfg, s, before, id);
      MatchedStep(cfg, After(cfg, s, before), steps[|steps| - 1]);
      OwnershipStep(cfg, After(cfg, s, before), steps[|steps| - 1], id);
    }
  }

  /** The hold of `id` that was saved last. */
  ghost function LastHold(enqueued: seq<Hold>, id: string): Option<Hold>
  {
    if enqueued == [] then None
    else if enqueued[|enqueued| - 1].requestId == id then Some(enqueued[|enqueued| - 1])
    else LastHold(enqueued[..|enqueued| - 1], id)
  }

  /** What is queued for a request is the last hold saved for it. */
  ghost predicate Current(s: State, id: string)
  {
    Lookup(s.disk, id).Some? ==> Lookup(s.disk, id) == LastHold(s.enqueued, id)
  }

  lemma CurrentStep(cfg: Config, s: State, step: Step, id: string)
    requires Orderly(s) && Timely(s, step) && Current(s, id)
    ensures Current(Apply(cfg, s, step), id)
  {
    hide TicketOf, Verified, Admits, Live, Lookup, Enqueued, Removed, Edited, Added, Orderly, Timely, IsSwept;
    OwnershipStep(cfg, s, step, id);
    if step.PassSave? && step.pid in s.procs && s.procs[step.pid].Passing? {
      PassCurrent(s, step, id);
    } else if step.HoldSave? && step.pid in s.procs && s.procs[step.pid].Holding? {
      var hold := s.procs[step.pid].hold;
      assert (s.enqueued + [hold])[..|s.enqueued|] == s.enqueued;
      EnqueuedLookup(s, step, id);
    }
  }

  lemma PassCurrent(s: State, step: Step, id: string)
    requires Orderly(s) && Timely(s, step) && Current(s, id)
    requires step.PassSave? && step.pid in s.procs && s.procs[step.pid].Passing?
    ensures var p := s.procs[step.pid];
      Current(s.(disk := Edited(p.queue, step.edits, p.now), enqueued := s.enqueued + Added(step.edits)), id)
  {
    hide Lookup, Edited, Added, LastHold, Unique;
    var p := s.procs[step.pid];
    EditedCurrent(p.queue, s.enqueued, step.edits, p.now, id);
  }

  lemma {:induction false} EditedCurrent(q: seq<Hold>, enqueued: seq<Hold>, edits: seq<Edit>, now: int, id: string)
    requires Unique(q) && (Lookup(q, id).Some? ==> Lookup(q, id) == LastHold(enqueued, id))
    ensures Lookup(Edited(q, edits, now), id).Some? ==>
      Lookup(Edited(q, edits, now), id) == LastHold(enqueued + Added(edits), id)
  {
    hide Lookup, Enqueued, Removed, Unique, IsSwept;
    if edits == [] {
      assert enqueued + Added(edits) == enqueued;
    } else {
      var before, e := edits[..|edits| - 1], edits[|edits| - 1];
      EditedCurrent(q, enqueued, before, now, id);
      EditedIs(q, before, now, id);
      assert Added(before) + [] == Added(before);
      var mid, so := Edited(q, before, now), enqueued + Added(before);
      match e
      case GateHolds(h) =>
        EnqueuedIs(mid, AsTask(h), id);
        assert enqueued + Added(edits) == so + [AsTask(h)];
        assert (so + [AsTask(h)])[..|so|] == so;
      case GateDrops(i) =>
        RemovedIs(mid, i, id);
      case Sweeps(i) =>
        RemovedIs(mid, i, id);
    }
  }

  lemma EnqueuedLookup(s: State, step: Step, id: string)
    requires step.HoldSave? && step.pid in s.procs && s.procs[step.pid].Holding?
    ensures Reholds(s, step, id) ==>
      Lookup(Enqueued(s.procs[step.pid].queue, s.procs[step.pid].hold), id) == Some(s.procs[step.pid].hold)
  {
    EnqueuedIs(s.procs[step.pid].queue, s.procs[step.pid].hold, id);
  }
}
