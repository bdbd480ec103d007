/**
  What stands behind a release: in every interleaving, the checks its decision passed and
  the handler that passed them, found in the run itself; in undisturbed runs, also the
  hold as it was last saved. And that nothing is released on a decision once it has
  expired or its key is no longer trusted.
 */
module ApprovalReleases {
  import opened Basics
  import opened Timestamps
  import opened Replay
  import opened Approval
  import opened ApprovalProtocol
  import opened ApprovalOwnership

  // ---------------------------------------------------------------------------
  // Every release is accounted for
  // ---------------------------------------------------------------------------

  /** The state before step `i` of the run. */
  ghost function At(cfg: Config, s: State, steps: seq<Step>, i: nat): State
    requires i <= |steps|
  {
    After(cfg, s, steps[..i])
  }

  /** Work `pid` is past its check of `d` and about to act, or decide not to act, on `hold`. */
  ghost predicate Works(s: State, pid: nat, d: Decision, hold: Hold)
  {
    && pid in s.procs && (s.procs[pid].Checked? || Spent(s.procs[pid]))
    && s.procs[pid].d == d && s.procs[pid].hold == hold
  }

  /** Step `i` checks `d`, against the anchors and the clock of that moment, and believes it. */
  ghost predicate ChecksAt(cfg: Config, s: State, steps: seq<Step>, i: nat, pid: nat, d: Decision, hold: Hold)
    requires i < |steps|
  {
    var now := At(cfg, s, steps, i);
    && steps[i].HandleVerify? && steps[i].pid == pid && pid in now.procs
    && now.procs[pid].Loaded? && now.procs[pid].d == d && now.procs[pid].hold == hold
    && Verified(d, now.procs[pid].sender, steps[i].ctx.(now := now.clock), cfg.verify)
  }

  /** Step `j` saves the queue without the hold, for `pid`. */
  ghost predicate SavesAt(cfg: Config, s: State, steps: seq<Step>, j: nat, pid: nat, d: Decision, hold: Hold)
    requires j < |steps|
  {
    var now := At(cfg, s, steps, j);
    && steps[j].HandleSave? && steps[j].pid == pid && pid in now.procs
    && now.procs[pid].Reloaded? && now.procs[pid].d == d && now.procs[pid].hold == hold
  }

  /** Step `a` has `pid` act, and adds release number `q`. */
  ghost predicate ActsAt(cfg: Config, s: State, steps: seq<Step>, a: nat, pid: nat, q: nat)
    requires a < |steps|
  {
    steps[a] == HandleAct(pid) && |At(cfg, s, steps, a).released| == q
  }

  /** From the check at step `i` on, up to step `e`, the same piece of work has been under way. */
  ghost predicate Trail(cfg: Config, s: State, steps: seq<Step>, i: nat, e: nat, pid: nat, d: Decision, hold: Hold)
    requires i < e <= |steps|
  {
    && ChecksAt(cfg, s, steps, i, pid, d, hold)
    && forall n | i < n <= e :: Works(At(cfg, s, steps, n), pid, d, hold)
  }

  ghost predicate Passed(cfg: Config, s: State, steps: seq<Step>, pid: nat, d: Decision, hold: Hold)
  {
    exists i | 0 <= i < |steps| :: Trail(cfg, s, steps, i, |steps|, pid, d, hold)
  }

  ghost predicate Taken(cfg: Config, s: State, steps: seq<Step>, pid: nat, d: Decision, hold: Hold)
  {
    exists i, j | 0 <= i < j < |steps| ::
      Trail(cfg, s, steps, i, |steps|, pid, d, hold) && SavesAt(cfg, s, steps, j, pid, d, hold)
  }

  /** Release number `q` was checked at `i`, taken off the queue at `j` and acted on at `a`, all by one handler. */
  ghost predicate Behind(cfg: Config, s: State, steps: seq<Step>, q: nat, r: Release, pid: nat, i: nat, j: nat, a: nat)
  {
    && i < j < a < |steps|
    && Trail(cfg, s, steps, i, a, pid, r.d, r.hold)
    && SavesAt(cfg, s, steps, j, pid, r.d, r.hold) && ActsAt(cfg, s, steps, a, pid, q)
  }

  ghost predicate Accounted(cfg: Config, s: State, steps: seq<Step>, q: nat, r: Release)
  {
    PermitsSpawn(r.d) && exists pid: nat, i: nat, j: nat, a: nat :: Behind(cfg, s, steps, q, r, pid, i, j, a)
  }

  ghost predicate AllAccounted(cfg: Config, s: State, steps: seq<Step>)
  {
    var now := After(cfg, s, steps);
    && (forall k | k in now.procs && (now.procs[k].Checked? || Spent(now.procs[k])) ::
          Passed(cfg, s, steps, k, now.procs[k].d, now.procs[k].hold))
    && (forall k | k in now.procs && now.procs[k].Cleared? ::
          Taken(cfg, s, steps, k, now.procs[k].d, now.procs[k].hold))
    && (forall q | 0 <= q < |now.released| :: Accounted(cfg, s, steps, q, now.released[q]))
  }

  // ---------------------------------------------------------------------------
  // One more step
  // ---------------------------------------------------------------------------

  lemma AfterLast(cfg: Config, s: State, steps: seq<Step>)
    requires steps != []
    ensures After(cfg, s, steps) == Apply(cfg, At(cfg, s, steps, |steps| - 1), steps[|steps| - 1])
    ensures At(cfg, s, steps, |steps|) == After(cfg, s, steps)
  {
    assert steps[..|steps|] == steps;
  }

  /** A trail seen in the run so far is one in the longer run, and goes on while the work does. */
  lemma TrailCarries(cfg: Config, s: State, steps: seq<Step>, i: nat, e: nat, pid: nat, d: Decision, hold: Hold)
    requires steps != [] && i < e < |steps| && Trail(cfg, s, steps[..|steps| - 1], i, e, pid, d, hold)
    ensures Trail(cfg, s, steps, i, e, pid, d, hold)
    ensures e == |steps| - 1 && Works(After(cfg, s, steps), pid, d, hold) ==>
      Trail(cfg, s, steps, i, |steps|, pid, d, hold)
  {
    hide After, Verified, Works;
    var before := steps[..|steps| - 1];
    assert forall n | 0 <= n <= |before| :: before[..n] == steps[..n];
    assert steps[..|steps|] == steps;
    forall n | i < n <= e
      ensures Works(At(cfg, s, steps, n), pid, d, hold)
    {
      assert Works(At(cfg, s, before, n), pid, d, hold);
    }
  }

  lemma SaveCarries(cfg: Config, s: State, steps: seq<Step>, j: nat, pid: nat, d: Decision, hold: Hold)
    requires steps != [] && j < |steps| - 1 && SavesAt(cfg, s, steps[..|steps| - 1], j, pid, d, hold)
    ensures SavesAt(cfg, s, steps, j, pid, d, hold)
  {
    hide After;
    assert steps[..|steps| - 1][..j] == steps[..j];
  }

  lemma AccountCarries(cfg: Config, s: State, steps: seq<Step>, q: nat, r: Release)
    requires steps != [] && Accounted(cfg, s, steps[..|steps| - 1], q, r)
    ensures Accounted(cfg, s, steps, q, r)
  {
    hide After, Trail, SavesAt;
    var before := steps[..|steps| - 1];
    var pid: nat, i: nat, j: nat, a: nat :| Behind(cfg, s, before, q, r, pid, i, j, a);
    TrailCarries(cfg, s, steps, i, a, pid, r.d, r.hold);
    SaveCarries(cfg, s, steps, j, pid, r.d, r.hold);
    assert before[..a] == steps[..a];
    assert Behind(cfg, s, steps, q, r, pid, i, j, a);
  }

  /** Past its check, work keeps its decision and hold; it gets there by the check, and off the queue by the save. */
  lemma ProcMoves(cfg: Config, s: State, step: Step, k: nat)
    requires k in Apply(cfg, s, step).procs
    ensures var p := Apply(cfg, s, step).procs[k];
      p.Checked? || Spent(p) ==>
        && k in s.procs && (s.procs[k].Loaded? || s.procs[k].Checked? || Spent(s.procs[k]))
        && s.procs[k].d == p.d && s.procs[k].hold == p.hold
        && (s.procs[k].Loaded? ==>
              && p.Checked? && step.HandleVerify? && step.pid == k
              && Verified(p.d, s.procs[k].sender, step.ctx.(now := s.clock), cfg.verify))
        && (p.Cleared? && !s.procs[k].Cleared? ==> s.procs[k].Reloaded? && step.HandleSave? && step.pid == k)
  {
    hide TicketOf, Verified, Admits, Live, Lookup, Enqueued, Removed, Edited, Added, Refuses;
  }

  lemma PassedCarries(cfg: Config, s: State, steps: seq<Step>, k: nat, d: Decision, hold: Hold)
    requires steps != [] && Works(After(cfg, s, steps), k, d, hold)
    ensures Passed(cfg, s, steps[..|steps| - 1], k, d, hold) ==> Passed(cfg, s, steps, k, d, hold)
    ensures Taken(cfg, s, steps[..|steps| - 1], k, d, hold) ==> Taken(cfg, s, steps, k, d, hold)
  {
    hide After, Trail, SavesAt, Works;
    var before := steps[..|steps| - 1];
    if Passed(cfg, s, before, k, d, hold) {
      var i :| 0 <= i < |before| && Trail(cfg, s, before, i, |before|, k, d, hold);
      TrailCarries(cfg, s, steps, i, |before|, k, d, hold);
    }
    if Taken(cfg, s, before, k, d, hold) {
      var i, j :| 0 <= i < j < |before| && Trail(cfg, s, before, i, |before|, k, d, hold)
        && SavesAt(cfg, s, before, j, k, d, hold);
      TrailCarries(cfg, s, steps, i, |before|, k, d, hold);
      SaveCarries(cfg, s, steps, j, k, d, hold);
    }
  }

  /** The last step is the check. */
  lemma PassedNow(cfg: Config, s: State, steps: seq<Step>, k: nat, d: Decision, hold: Hold)
    requires steps != [] && ChecksAt(cfg, s, steps, |steps| - 1, k, d, hold) && Works(After(cfg, s, steps), k, d, hold)
    ensures Passed(cfg, s, steps, k, d, hold)
  {
    hide After, Works, Verified;
    assert steps[..|steps|] == steps;
    assert Trail(cfg, s, steps, |steps| - 1, |steps|, k, d, hold);
  }

  /** The last step is the save. */
  lemma TakenNow(cfg: Config, s: State, steps: seq<Step>, k: nat, d: Decision, hold: Hold)
    requires steps != [] && Passed(cfg, s, steps[..|steps| - 1], k, d, hold)
    requires SavesAt(cfg, s, steps, |steps| - 1, k, d, hold) && Works(After(cfg, s, steps), k, d, hold)
    ensures Taken(cfg, s, steps, k, d, hold)
  {
    hide After, Works, Trail, SavesAt;
    var before := steps[..|steps| - 1];
    var i :| 0 <= i < |before| && Trail(cfg, s, before, i, |before|, k, d, hold);
    TrailCarries(cfg, s, steps, i, |before|, k, d, hold);
  }

  /** The last step is the act. */
  lemma ActedNow(cfg: Config, s: State, steps: seq<Step>, k: nat, r: Release, q: nat)
    requires steps != [] && Taken(cfg, s, steps[..|steps| - 1], k, r.d, r.hold) && PermitsSpawn(r.d)
    requires ActsAt(cfg, s, steps, |steps| - 1, k, q)
    ensures Accounted(cfg, s, steps, q, r)
  {
    hide After, Trail, SavesAt, ActsAt;
    var before := steps[..|steps| - 1];
    var i, j :| 0 <= i < j < |before| && Trail(cfg, s, before, i, |before|, k, r.d, r.hold)
      && SavesAt(cfg, s, before, j, k, r.d, r.hold);
    TrailCarries(cfg, s, steps, i, |before|, k, r.d, r.hold);
    SaveCarries(cfg, s, steps, j, k, r.d, r.hold);
    assert Behind(cfg, s, steps, q, r, k, i, j, |steps| - 1);
  }

  lemma WorkAccounted(cfg: Config, s: State, steps: seq<Step>, k: nat)
    requires steps != [] && AllAccounted(cfg, s, steps[..|steps| - 1])
    requires k in After(cfg, s, steps).procs
    ensures var p := After(cfg, s, steps).procs[k];
      && (p.Checked? || Spent(p) ==> Passed(cfg, s, steps, k, p.d, p.hold))
      && (p.Cleared? ==> Taken(cfg, s, steps, k, p.d, p.hold))
  {
    hide After, Apply, Verified, Passed, Taken, Accounted;
    var now, step := At(cfg, s, steps, |steps| - 1), steps[|steps| - 1];
    AfterLast(cfg, s, steps);
    ProcMoves(cfg, now, step, k);
    var p := After(cfg, s, steps).procs[k];
    if p.Checked? || Spent(p) {
      PassedCarries(cfg, s, steps, k, p.d, p.hold);
      if now.procs[k].Loaded? {
        PassedNow(cfg, s, steps, k, p.d, p.hold);
      } else if p.Cleared? && !now.procs[k].Cleared? {
        TakenNow(cfg, s, steps, k, p.d, p.hold);
      }
    }
  }

  /** What a step adds to the releases. */
  lemma ReleaseStep(cfg: Config, s: State, step: Step)
    ensures var s' := Apply(cfg, s, step);
      || s'.released == s.released
      || (&& step.HandleAct? && step.pid in s.procs && s.procs[step.pid].Cleared? && PermitsSpawn(s.procs[step.pid].d)
          && s'.released == s.released + [Release(s.procs[step.pid].hold, s.procs[step.pid].d)])
  {
    hide TicketOf, Verified, Admits, Live, Lookup, Enqueued, Removed, Edited, Added, Refuses;
  }

  lemma AccountedStep(cfg: Config, s: State, steps: seq<Step>)
    requires steps != [] && AllAccounted(cfg, s, steps[..|steps| - 1])
    ensures AllAccounted(cfg, s, steps)
  {
    hide Passed, Taken, Accounted, After, Apply;
    var now, later, step := At(cfg, s, steps, |steps| - 1), After(cfg, s, steps), steps[|steps| - 1];
    AfterLast(cfg, s, steps);
    forall k | k in later.procs
      ensures later.procs[k].Checked? || Spent(later.procs[k]) ==>
        Passed(cfg, s, steps, k, later.procs[k].d, later.procs[k].hold)
      ensures later.procs[k].Cleared? ==> Taken(cfg, s, steps, k, later.procs[k].d, later.procs[k].hold)
    {
      WorkAccounted(cfg, s, steps, k);
    }
    ReleaseStep(cfg, now, step);
    forall q | 0 <= q < |later.released|
      ensures Accounted(cfg, s, steps, q, later.released[q])
    {
      if q < |now.released| {
        AccountCarries(cfg, s, steps, q, now.released[q]);
      } else {
        ActedNow(cfg, s, steps, step.pid, later.released[q], q);
      }
    }
  }

  lemma {:induction false} AlwaysAccounted(cfg: Config, s: State, steps: seq<Step>)
    requires Initial(s)
    ensures AllAccounted(cfg, s, steps)
  {
    hide AllAccounted;
    if steps == [] {
      StartsAccounted(cfg, s);
    } else {
      AlwaysAccounted(cfg, s, steps[..|steps| - 1]);
      AccountedStep(cfg, s, steps);
    }
  }

  lemma StartsAccounted(cfg: Config, s: State)
    requires Initial(s)
    ensures AllAccounted(cfg, s, [])
  {
  }

  // ---------------------------------------------------------------------------
  // The theorems
  // ---------------------------------------------------------------------------

  /**
    In every interleaving, behind every release lie three steps of one handler: the one at
    which its decision, an approval, passed every check against the trust and the clock of
    that moment, a later one that saved the queue without the hold, and the release itself.
   */
  lemma NoReleaseWithoutCheck(cfg: Config, s: State, steps: seq<Step>, q: nat)
    requires Initial(s) && q < |After(cfg, s, steps).released|
    ensures var r := After(cfg, s, steps).released[q];
      r.d.decision == "approved" && exists pid: nat, i: nat, j: nat, a: nat :: Behind(cfg, s, steps, q, r, pid, i, j, a)
  {
    hide After, Behind;
    AlwaysAccounted(cfg, s, steps);
    assert Accounted(cfg, s, steps, q, After(cfg, s, steps).released[q]);
  }

  lemma {:induction false} AlwaysCurrent(cfg: Config, s: State, steps: seq<Step>, id: string)
    requires Initial(s) && Undisturbed(cfg, s, steps)
    ensures Orderly(After(cfg, s, steps)) && Current(After(cfg, s, steps), id)
  {
    hide Apply, Orderly, Timely, Current;
    if steps == [] {
      StartsCurrent(s, id);
    } else {
      var before := steps[..|steps| - 1];
      AlwaysCurrent(cfg, s, before, id);
      MatchedStep(cfg, After(cfg, s, before), steps[|steps| - 1]);
      CurrentStep(cfg, After(cfg, s, before), steps[|steps| - 1], id);
    }
  }

  lemma StartsCurrent(s: State, id: string)
    requires Initial(s)
    ensures Orderly(s) && Current(s, id)
  {
  }

  lemma {:induction false} UndisturbedPrefix(cfg: Config, s: State, steps: seq<Step>, n: nat)
    requires Undisturbed(cfg, s, steps) && n < |steps|
    ensures Undisturbed(cfg, s, steps[..n]) && Timely(At(cfg, s, steps, n), steps[n])
  {
    hide After, Timely;
    var before := steps[..|steps| - 1];
    if n < |before| {
      UndisturbedPrefix(cfg, s, before, n);
      assert before[..n] == steps[..n];
    }
  }

  /**
    In undisturbed runs the hold released stood in the queue, live and unchanged since it
    was last saved for its request, when the handler took it off.
   */
  lemma ReleaseIsLegitimate(cfg: Config, s: State, steps: seq<Step>, q: nat, pid: nat, i: nat, j: nat, a: nat)
    requires Initial(s) && Undisturbed(cfg, s, steps) && q < |After(cfg, s, steps).released|
    requires Behind(cfg, s, steps, q, After(cfg, s, steps).released[q], pid, i, j, a)
    ensures var r, now := After(cfg, s, steps).released[q], At(cfg, s, steps, j);
      && r.hold.held.Some? && Lookup(now.disk, r.d.requestId) == Some(r.hold)
      && LastHold(now.enqueued, r.d.requestId) == Some(r.hold)
  {
    hide After, Lookup, LastHold, Trail, ActsAt, AllUnique;
    var r := After(cfg, s, steps).released[q];
    UndisturbedPrefix(cfg, s, steps, j);
    AlwaysCurrent(cfg, s, steps[..j], r.d.requestId);
    assert Matched(At(cfg, s, steps, j).procs[pid]);
  }

  // ---------------------------------------------------------------------------
  // Expiry and revocation
  // ---------------------------------------------------------------------------

  ghost predicate Expired(s: State, d: Decision)
  {
    TicketOf(d).expiry <= s.clock
  }

  /** Whenever a decision is checked in the run, the key of `d` is not both published and trusted. */
  ghost predicate Revoked(steps: seq<Step>, d: Decision)
  {
    d.signature.None? ||
    forall step | step in steps && step.HandleVerify? ::
      d.signature.value.keyId !in step.ctx.trusted || d.signature.value.keyId !in step.ctx.keys
  }

  /**
    No work in flight can still release on `d`: none has passed the check on it; if it has
    expired and there is a cache to say so, it is enough that none has burnt its nonce.
   */
  ghost predicate NotInFlight(cfg: Config, s: State, d: Decision)
  {
    forall k | k in s.procs && (Spent(s.procs[k]) || (s.procs[k].Checked? && !(cfg.router && Expired(s, d)))) ::
      s.procs[k].d != d
  }

  lemma WithdrawnFails(s: State, step: Step, d: Decision, sender: string, verify: Verifier)
    requires step.HandleVerify? && (Expired(s, d) || Revoked([step], d))
    ensures !Verified(d, sender, step.ctx.(now := s.clock), verify)
  {
    hide ParseRfc3339;
    assert step in [step];
  }

  /** With a cache to ask, only a decision that has not expired gets its nonce burnt; and time does not run back. */
  lemma BurnsInTime(cfg: Config, s: State, step: Step, k: nat)
    ensures var s' := Apply(cfg, s, step);
      && s.clock <= s'.clock
      && (k in s.procs && s.procs[k].Checked? && k in s'.procs && Spent(s'.procs[k]) && cfg.router ==>
            !Expired(s, s.procs[k].d))
  {
    hide TicketOf, Verified, Admission, Live, Lookup, Enqueued, Removed, Edited, Added;
  }

  lemma WithdrawnStep(cfg: Config, s: State, step: Step, d: Decision)
    requires NotInFlight(cfg, s, d) && (Expired(s, d) || Revoked([step], d))
    ensures var s' := Apply(cfg, s, step);
      && NotInFlight(cfg, s', d) && (Expired(s, d) ==> Expired(s', d))
      && (|s'.released| > |s.released| ==> s'.released[|s.released|].d != d)
      && s.released <= s'.released && |s'.released| <= |s.released| + 1
  {
    hide Apply, TicketOf, Verified, Revoked;
    var s' := Apply(cfg, s, step);
    ReleaseStep(cfg, s, step);
    BurnsInTime(cfg, s, step, 0);
    forall k | k in s'.procs && (Spent(s'.procs[k]) || (s'.procs[k].Checked? && !(cfg.router && Expired(s', d))))
      ensures s'.procs[k].d != d
    {
      ProcMoves(cfg, s, step, k);
      BurnsInTime(cfg, s, step, k);
      if s.procs[k].Loaded? && s.procs[k].d == d {
        WithdrawnFails(s, step, d, s.procs[k].sender, cfg.verify);
      }
    }
  }

  lemma {:induction false} NothingOnWithdrawn(cfg: Config, s: State, steps: seq<Step>, d: Decision)
    requires NotInFlight(cfg, s, d) && (Expired(s, d) || Revoked(steps, d))
    ensures var end := After(cfg, s, steps);
      && NotInFlight(cfg, end, d) && (Expired(s, d) ==> Expired(end, d)) && |s.released| <= |end.released|
      && forall k | |s.released| <= k < |end.released| :: end.released[k].d != d
  {
    hide Apply, NotInFlight, Expired;
    if steps != [] {
      var before, step := steps[..|steps| - 1], steps[|steps| - 1];
      assert step in steps && (forall x | x in before :: x in steps);
      NothingOnWithdrawn(cfg, s, before, d);
      WithdrawnStep(cfg, After(cfg, s, before), step, d);
    }
  }

  /**
    Once a decision has expired, or if its key is never again both published and trusted
    when a decision is checked, no step of any continuation releases on it, except by work
    already past its check, and after expiry by work already past its nonce.
   */
  lemma NoReleaseAfterWithdrawal(cfg: Config, s: State, steps: seq<Step>, d: Decision, k: nat)
    requires NotInFlight(cfg, s, d) && (Expired(s, d) || Revoked(steps, d))
    requires |s.released| <= k < |After(cfg, s, steps).released|
    ensures After(cfg, s, steps).released[k].d != d
  {
    hide Revoked, Expired, NotInFlight, After;
    NothingOnWithdrawn(cfg, s, steps, d);
  }
}
