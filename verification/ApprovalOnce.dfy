/**
  When an approval leads to a release exactly once. Its nonce is burnt before anything is
  released, so from then on it all depends on the handler that burnt it: if that handler
  gets to act before the daemon crashes there is one release, and otherwise there is none,
  ever, however often the decision is delivered again. If the nonce cannot be written down
  the approval is lost as well, but only until the daemon restarts.
 */
module ApprovalOnce {
  import opened Replay
  import opened Approval
  import opened ApprovalProtocol
  import opened ApprovalReleases

  // ---------------------------------------------------------------------------
  // A ticket nobody carries is lost
  // ---------------------------------------------------------------------------

  /** The ticket was granted, and neither a release nor work in flight carries it. */
  ghost predicate Orphaned(s: State, t: Ticket)
  {
    && t in s.granted
    && (forall r | r in s.released :: TicketOf(r.d) != t)
    && (forall k | k in s.procs && Spent(s.procs[k]) :: TicketOf(s.procs[k].d) != t)
  }

  /** Only granting it afresh makes work carry a ticket. */
  lemma NewlySpent(cfg: Config, s: State, step: Step, k: nat)
    requires cfg.router && Safe(s) && Guards(cfg, s, step)
    ensures var s' := Apply(cfg, s, step);
      && s.granted <= s'.granted
      && (k in s'.procs && Spent(s'.procs[k]) ==>
            && k in s.procs && (s.procs[k].Checked? || Spent(s.procs[k])) && s.procs[k].d == s'.procs[k].d
            && (Spent(s.procs[k]) || TicketOf(s.procs[k].d) !in s.granted))
  {
    hide TicketOf, Verified, Admission, Lookup, Enqueued, Removed, Edited, Added, ReleasesSafe, ProcsSafe, CacheSafe,
      Live;
    if step.HandleBurn? && step.pid in s.procs && s.procs[step.pid].Checked? {
      var t := TicketOf(s.procs[step.pid].d);
      if !Refuses(s, t) && Admits(cfg, s, t, step.mem) {
        AdmitIsFresh(cfg, s, t, step.mem, step.saved);
      }
    }
  }

  lemma OrphanedStep(cfg: Config, s: State, step: Step, t: Ticket)
    requires cfg.router && Safe(s) && Guards(cfg, s, step) && Orphaned(s, t)
    ensures Orphaned(Apply(cfg, s, step), t)
  {
    hide Apply, TicketOf, Guards, Safe;
    var s' := Apply(cfg, s, step);
    ReleaseStep(cfg, s, step);
    NewlySpent(cfg, s, step, 0);
    forall k | k in s'.procs && Spent(s'.procs[k])
      ensures TicketOf(s'.procs[k].d) != t
    {
      NewlySpent(cfg, s, step, k);
    }
  }

  /** Once a granted ticket is carried by no release and no work, no continuation releases on it. */
  lemma {:induction false} OrphanedForGood(cfg: Config, s: State, steps: seq<Step>, t: Ticket)
    requires cfg.router && Safe(s) && Guarded(cfg, s, steps) && Orphaned(s, t)
    ensures Orphaned(After(cfg, s, steps), t) && Safe(After(cfg, s, steps))
  {
    hide Apply, Guards, Safe, Orphaned;
    if steps != [] {
      var before := steps[..|steps| - 1];
      OrphanedForGood(cfg, s, before, t);
      SafeStep(cfg, After(cfg, s, before), steps[|steps| - 1]);
      OrphanedStep(cfg, After(cfg, s, before), steps[|steps| - 1], t);
    }
  }

  // ---------------------------------------------------------------------------
  // How far the handler gets
  // ---------------------------------------------------------------------------

  datatype Stage = Burning | Reloading | Clearing | Finished | Gone

  /** How far the steps take a handler that has just burnt its nonce; a crash ends it. */
  function StageAfter(steps: seq<Step>, pid: nat): Stage
  {
    if steps == [] then Burning
    else
      var stage, step := StageAfter(steps[..|steps| - 1], pid), steps[|steps| - 1];
      if stage == Finished || stage == Gone then stage
      else if step.Crash? then Gone
      else if stage == Burning && step == HandleReload(pid) then Reloading
      else if stage == Reloading && step.HandleSave? && step.pid == pid then Clearing
      else if stage == Clearing && step == HandleAct(pid) then Finished
      else stage
  }

  ghost predicate InStage(s: State, stage: Stage, pid: nat, d: Decision, hold: Hold)
  {
    match stage
    case Burning => pid in s.procs && s.procs[pid] == Burnt(d, hold)
    case Reloading => pid in s.procs && s.procs[pid].Reloaded? && s.procs[pid].d == d && s.procs[pid].hold == hold
    case Clearing => pid in s.procs && s.procs[pid] == Cleared(d, hold)
    case Finished => Release(hold, d) in s.released
    case Gone => Orphaned(s, TicketOf(d))
  }

  /** Work past its nonce is moved only by its own three steps and by a crash. */
  lemma SpentStays(cfg: Config, s: State, step: Step, pid: nat)
    requires pid in s.procs && Spent(s.procs[pid]) && !step.Crash?
    requires s.procs[pid].Burnt? ==> step != HandleReload(pid)
    requires s.procs[pid].Reloaded? ==> !(step.HandleSave? && step.pid == pid)
    requires s.procs[pid].Cleared? ==> step != HandleAct(pid)
    ensures pid in Apply(cfg, s, step).procs && Apply(cfg, s, step).procs[pid] == s.procs[pid]
  {
    hide TicketOf, Verified, Admits, Live, Lookup, Enqueued, Removed, Edited, Added, Refuses;
  }

  /** Its three steps move it on, and a crash ends it. */
  lemma SpentMoves(cfg: Config, s: State, step: Step, pid: nat, saved: bool)
    requires pid in s.procs && Spent(s.procs[pid]) && PermitsSpawn(s.procs[pid].d)
    ensures var d, hold := s.procs[pid].d, s.procs[pid].hold;
      && (s.procs[pid].Burnt? ==> InStage(Apply(cfg, s, HandleReload(pid)), Reloading, pid, d, hold))
      && (s.procs[pid].Reloaded? ==> InStage(Apply(cfg, s, HandleSave(pid, saved)), Clearing, pid, d, hold))
      && (s.procs[pid].Cleared? ==> InStage(Apply(cfg, s, HandleAct(pid)), Finished, pid, d, hold))
  {
    hide TicketOf, Lookup, Removed;
  }

  lemma CrashOrphans(cfg: Config, s: State, pid: nat)
    requires Safe(s) && pid in s.procs && Spent(s.procs[pid])
    ensures Orphaned(Apply(cfg, s, Crash), TicketOf(s.procs[pid].d))
  {
    hide TicketOf, CacheSafe, Live;
    assert ProcSafe(s, pid);
  }

  lemma StageStep(cfg: Config, s: State, steps: seq<Step>, pid: nat, d: Decision, hold: Hold)
    requires steps != [] && cfg.router && Safe(s) && Guards(cfg, s, steps[|steps| - 1]) && PermitsSpawn(d)
    requires InStage(s, StageAfter(steps[..|steps| - 1], pid), pid, d, hold)
    ensures InStage(Apply(cfg, s, steps[|steps| - 1]), StageAfter(steps, pid), pid, d, hold)
  {
    hide Apply, TicketOf, Safe, Orphaned, Guards, PermitsSpawn;
    var stage, step := StageAfter(steps[..|steps| - 1], pid), steps[|steps| - 1];
    if stage == Finished {
      ReleaseStep(cfg, s, step);
    } else if stage == Gone {
      OrphanedStep(cfg, s, step, TicketOf(d));
    } else if step.Crash? {
      CrashOrphans(cfg, s, pid);
    } else if StageAfter(steps, pid) == stage {
      SpentStays(cfg, s, step, pid);
    } else {
      SpentMoves(cfg, s, step, pid, if step.HandleSave? then step.saved else true);
    }
  }

  lemma {:induction false} StageReached(cfg: Config, s: State, steps: seq<Step>, pid: nat, d: Decision, hold: Hold)
    requires cfg.router && Safe(s) && Guarded(cfg, s, steps) && PermitsSpawn(d)
    requires InStage(s, Burning, pid, d, hold)
    ensures Safe(After(cfg, s, steps)) && InStage(After(cfg, s, steps), StageAfter(steps, pid), pid, d, hold)
  {
    hide Apply, Guards, Safe, InStage, PermitsSpawn;
    if steps != [] {
      var before := steps[..|steps| - 1];
      StageReached(cfg, s, before, pid, d, hold);
      SafeStep(cfg, After(cfg, s, before), steps[|steps| - 1]);
      StageStep(cfg, After(cfg, s, before), steps, pid, d, hold);
    }
  }

  /**
    From the moment a handler has burnt the nonce of an approval, in every guarded
    continuation: there is a release on it if and only if the handler reaches its act, its
    three remaining steps coming in order without a crash before the last; it is then a
    release of the handler's own hold, and there is only the one.
   */
  lemma ReleasedOnceIffHandlerActs(cfg: Config, s: State, steps: seq<Step>, pid: nat, d: Decision, hold: Hold)
    requires cfg.router && Safe(s) && Guarded(cfg, s, steps) && PermitsSpawn(d)
    requires pid in s.procs && s.procs[pid] == Burnt(d, hold)
    ensures var end := After(cfg, s, steps);
      && ((exists r | r in end.released :: TicketOf(r.d) == TicketOf(d)) <==> StageAfter(steps, pid) == Finished)
      && (StageAfter(steps, pid) == Finished ==> Release(hold, d) in end.released)
      && (forall i, j | 0 <= i < j < |end.released| :: TicketOf(end.released[i].d) != TicketOf(end.released[j].d))
  {
    hide After, TicketOf, CacheSafe, StageAfter;
    StageReached(cfg, s, steps, pid, d, hold);
    var end := After(cfg, s, steps);
    if pid in end.procs {
      assert ProcSafe(end, pid);
    }
  }

  // ---------------------------------------------------------------------------
  // A nonce that could not be written down
  // ---------------------------------------------------------------------------

  /** Memory has the ticket, or it has run out, and neither a release nor work in flight carries it. */
  ghost predicate Blocked(s: State, t: Ticket)
  {
    && Remembers(s.cache, t, s.clock)
    && (forall r | r in s.released :: TicketOf(r.d) != t)
    && (forall k | k in s.procs && Spent(s.procs[k]) :: TicketOf(s.procs[k].d) != t)
  }

  /** Admitting another ticket into a cache with room leaves memory as it was about this one. */
  lemma RoomRemembers(cfg: Config, s: State, other: Ticket, mem: Nonces, saved: bool, t: Ticket)
    requires Admits(cfg, s, other, mem) && |Live(s.cache.mem, s.clock)| < cfg.capacity && Remembers(s.cache, t, s.clock)
    ensures Remembers(Cache(mem, if saved then mem else s.cache.disk), t, s.clock)
  {
    var op := Present(other, s.clock, if saved then Granted else Unsaved);
    var after := Cache(mem, if saved then mem else s.cache.disk);
    assert Next(s.cache, cfg.capacity, op, after);
    ForgetsIffFull(s.cache, cfg.capacity, op, after);
    RememberStep(s.cache, cfg.capacity, op, after, t, s.clock);
  }

  lemma MemoryStays(cfg: Config, s: State, step: Step, t: Ticket)
    requires Guards(cfg, s, step) && !step.Crash? && Remembers(s.cache, t, s.clock)
    ensures Remembers(Apply(cfg, s, step).cache, t, Apply(cfg, s, step).clock)
  {
    hide TicketOf, Verified, Admission, Lookup, Enqueued, Removed, Edited, Added, Live;
    if step.RequestNonce? && Admits(cfg, s, step.ticket, step.mem) {
      RoomRemembers(cfg, s, step.ticket, step.mem, step.saved, t);
    } else if step.HandleBurn? && step.pid in s.procs && s.procs[step.pid].Checked? {
      var other := TicketOf(s.procs[step.pid].d);
      if Admits(cfg, s, other, step.mem) {
        RoomRemembers(cfg, s, other, step.mem, step.saved, t);
      }
    }
  }

  /** Work gets past its nonce only if the cache does not refuse it. */
  lemma SpentWasNotRefused(cfg: Config, s: State, step: Step, k: nat)
    requires cfg.router
    ensures var s' := Apply(cfg, s, step);
      k in s'.procs && Spent(s'.procs[k]) ==>
        && k in s.procs && (s.procs[k].Checked? || Spent(s.procs[k])) && s.procs[k].d == s'.procs[k].d
        && (Spent(s.procs[k]) || !Refuses(s, TicketOf(s.procs[k].d)))
  {
    hide TicketOf, Verified, Admits, Lookup, Enqueued, Removed, Edited, Added, Live, Refuses;
  }

  lemma BlockedStep(cfg: Config, s: State, step: Step, t: Ticket)
    requires cfg.router && Guards(cfg, s, step) && !step.Crash? && Blocked(s, t)
    ensures Blocked(Apply(cfg, s, step), t)
  {
    hide Apply, TicketOf, Guards;
    var s' := Apply(cfg, s, step);
    MemoryStays(cfg, s, step, t);
    ReleaseStep(cfg, s, step);
    forall k | k in s'.procs && Spent(s'.procs[k])
      ensures TicketOf(s'.procs[k].d) != t
    {
      SpentWasNotRefused(cfg, s, step, k);
    }
  }

  /** Until a restart, a blocked ticket is refused, and nothing is released on it. */
  lemma {:induction false} BlockedUntilRestart(cfg: Config, s: State, steps: seq<Step>, t: Ticket)
    requires cfg.router && Guarded(cfg, s, steps) && Crash !in steps && Blocked(s, t)
    ensures Blocked(After(cfg, s, steps), t) && Refuses(After(cfg, s, steps), t)
  {
    hide Apply, Guards, TicketOf;
    if steps != [] {
      var before, step := steps[..|steps| - 1], steps[|steps| - 1];
      assert step in steps && forall x | x in before :: x in steps;
      BlockedUntilRestart(cfg, s, before, t);
      BlockedStep(cfg, After(cfg, s, before), step, t);
    }
  }

  /** A failed write leaves the ticket blocked. */
  lemma FailedWriteBlocks(cfg: Config, s: State, pid: nat, mem: Nonces)
    requires cfg.router && Safe(s) && pid in s.procs && s.procs[pid].Checked?
    requires !Refuses(s, TicketOf(s.procs[pid].d)) && Admits(cfg, s, TicketOf(s.procs[pid].d), mem)
    requires Guards(cfg, s, HandleBurn(pid, mem, false))
    ensures Blocked(Apply(cfg, s, HandleBurn(pid, mem, false)), TicketOf(s.procs[pid].d))
  {
    hide TicketOf, CacheSafe, Live;
    var t := TicketOf(s.procs[pid].d);
    AdmitIsFresh(cfg, s, t, mem, false);
    forall k | k in s.procs && Spent(s.procs[k])
      ensures TicketOf(s.procs[k].d) != t
    {
      assert ProcSafe(s, k);
    }
  }

  /** After a restart it is refused exactly if it has run out or the file has its nonce, not yet expired. */
  lemma RefusedAfterRestartIff(cfg: Config, s: State, t: Ticket)
    ensures Refuses(Apply(cfg, s, Crash), t) <==>
      t.expiry <= s.clock || (t.nonce in s.cache.disk && s.cache.disk[t.nonce] > s.clock)
  {
  }

  /**
    An approval from its check on. Refused by the cache, its handler is dropped and nothing
    else changes. With its nonce burnt and written down, there is a release on it if and
    only if the handler reaches its act without a crash. With its nonce burnt and not
    written down, it is refused and nothing is released on it until the daemon restarts.
   */
  lemma FromTheCheckOn(cfg: Config, s: State, pid: nat, d: Decision, hold: Hold, mem: Nonces, saved: bool,
                       steps: seq<Step>)
    requires cfg.router && Safe(s) && PermitsSpawn(d) && pid in s.procs && s.procs[pid] == Checked(d, hold)
    requires Guards(cfg, s, HandleBurn(pid, mem, saved))
    requires Refuses(s, TicketOf(d)) || Admits(cfg, s, TicketOf(d), mem)
    requires Guarded(cfg, Apply(cfg, s, HandleBurn(pid, mem, saved)), steps)
    ensures var t, burnt := TicketOf(d), Apply(cfg, s, HandleBurn(pid, mem, saved));
      var end := After(cfg, burnt, steps);
      && (Refuses(s, t) ==> burnt == Drop(s, pid))
      && (!Refuses(s, t) && saved ==>
            ((exists r | r in end.released :: TicketOf(r.d) == t) <==> StageAfter(steps, pid) == Finished))
      && (!Refuses(s, t) && !saved && Crash !in steps ==>
            Refuses(end, t) && forall r | r in end.released :: TicketOf(r.d) != t)
  {
    hide After, Guarded, Safe, Refuses, Admits, TicketOf, Guards, StageAfter, PermitsSpawn;
    var burnt := Apply(cfg, s, HandleBurn(pid, mem, saved));
    SafeStep(cfg, s, HandleBurn(pid, mem, saved));
    if !Refuses(s, TicketOf(d)) {
      if saved {
        ReleasedOnceIffHandlerActs(cfg, burnt, steps, pid, d, hold);
      } else if Crash !in steps {
        FailedWriteBlocks(cfg, s, pid, mem);
        BlockedUntilRestart(cfg, burnt, steps, TicketOf(d));
      }
    }
  }
}
