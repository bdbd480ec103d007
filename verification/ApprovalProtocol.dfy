/**
  The approval protocol as a state machine: requests are held, operators decide, decisions
  are delivered and redelivered, and holds are released, all in small steps that may
  interleave in any way, with crashes and failed writes in between. Loading the queue and
  saving it are separate steps; burning a nonce is one, since the cache is locked.
 */
module ApprovalProtocol {
  import opened Basics
  import opened Timestamps
  import opened Replay
  import opened Approval

  /** Without a router there is no nonce cache to ask. */
  datatype Config = Config(capacity: nat, verify: Verifier, router: bool)

  /** Work in flight: how far it has come, and what it remembers of the queue. */
  datatype Proc =
    | Holding(hold: Hold, queue: seq<Hold>)
    | Deciding(found: Hold, queue: seq<Hold>)
    | Passing(queue: seq<Hold>, now: int)
    | Loaded(d: Decision, sender: string, hold: Hold)
    | Checked(d: Decision, hold: Hold)
    | Burnt(d: Decision, hold: Hold)
    | Reloaded(d: Decision, hold: Hold, queue: seq<Hold>)
    | Cleared(d: Decision, hold: Hold)

  /** A release: the hold acted on and the decision it was acted on under. */
  datatype Release = Release(hold: Hold, d: Decision)

  /**
    `disk` is the persisted queue. The remaining fields from `granted` on are history: the
    tickets granted, the verified approvals by request, the releases, the saved holds, the
    requests whose removal could not be saved, and whether the nonce file was last saved
    by its other writer.
   */
  datatype State = State(disk: seq<Hold>, cache: Cache, clock: int, procs: map<nat, Proc>,
                         granted: set<Ticket>, approvals: set<(string, Ticket)>, released: seq<Release>,
                         enqueued: seq<Hold>, unsaved: seq<string>, overwritten: bool)

  datatype Step =
    | Tick(to: int)
    | Crash
    | RequestNonce(ticket: Ticket, mem: Nonces, saved: bool)
    | SchedulerSave(copy: Nonces)
    | PassLoad(pid: nat)
    | PassSave(pid: nat, edits: seq<Edit>, saved: bool)
    | HoldLoad(pid: nat, hold: Hold)
    | HoldSave(pid: nat, saved: bool)
    | DecideLoad(pid: nat, id: string)
    | DecideSave(pid: nat, saved: bool)
    | HandleLoad(pid: nat, d: Decision, sender: string)
    | HandleVerify(pid: nat, ctx: Anchors)
    | HandleBurn(pid: nat, mem: Nonces, saved: bool)
    | HandleReload(pid: nat)
    | HandleSave(pid: nat, saved: bool)
    | HandleAct(pid: nat)

  /** The single-use permission a decision carries. */
  function TicketOf(d: Decision): Ticket
  {
    Ticket(if d.nonce.Some? then d.nonce.value else "",
           if d.expiresAt.Some? && ParseRfc3339(d.expiresAt.value).Some?
           then ParseRfc3339(d.expiresAt.value).value else 0)
  }

  ghost function Drop(s: State, pid: nat): State { s.(procs := s.procs - {pid}) }

  ghost function Put(s: State, pid: nat, p: Proc): State { s.(procs := s.procs[pid := p]) }

  /** Presenting a ticket to the shared cache: the new cache and whether it was granted. */
  ghost predicate Admits(cfg: Config, s: State, t: Ticket, mem: Nonces)
  {
    Admission(s.cache.mem, cfg.capacity, t.nonce, t.expiry, s.clock, mem)
  }

  ghost predicate Refuses(s: State, t: Ticket)
  {
    t.expiry <= s.clock || t.nonce in s.cache.mem
  }

  /** The effect of one step; a step that cannot be taken has none. */
  ghost function Apply(cfg: Config, s: State, step: Step): State
  {
    match step
    case Tick(to) => if s.clock <= to then s.(clock := to) else s
    case Crash => s.(procs := map[], cache := Cache(Live(s.cache.disk, s.clock), s.cache.disk), overwritten := false)
    case RequestNonce(t, mem, saved) =>
      if Admits(cfg, s, t, mem)
      then s.(cache := Cache(mem, if saved then mem else s.cache.disk),
              granted := if saved then s.granted + {t} else s.granted,
              overwritten := s.overwritten && !saved)
      else s
    case SchedulerSave(copy) => s.(cache := Cache(s.cache.mem, copy), overwritten := true)
    case PassLoad(pid) => if pid in s.procs then s else Put(s, pid, Passing(s.disk, s.clock))
    case PassSave(pid, edits, saved) =>
      if pid in s.procs && s.procs[pid].Passing?
      then
        var p := s.procs[pid];
        var q := Edited(p.queue, edits, p.now);
        Drop(if saved && q != p.queue then s.(disk := q, enqueued := s.enqueued + Added(edits)) else s, pid)
      else s
    case HoldLoad(pid, hold) =>
      if pid in s.procs then s else Put(s, pid, Holding(hold, s.disk))
    case HoldSave(pid, saved) =>
      if pid in s.procs && s.procs[pid].Holding?
      then
        var p := s.procs[pid];
        Drop(if saved then s.(disk := Enqueued(p.queue, p.hold), enqueued := s.enqueued + [p.hold]) else s, pid)
      else s
    case DecideLoad(pid, id) =>
      if pid !in s.procs && Lookup(s.disk, id).Some? then Put(s, pid, Deciding(Lookup(s.disk, id).value, s.disk)) else s
    case DecideSave(pid, saved) =>
      if pid in s.procs && s.procs[pid].Deciding?
      then
        var p := s.procs[pid];
        Drop(if saved && p.found.held.None? then s.(disk := Removed(p.queue, p.found.requestId)) else s, pid)
      else s
    case HandleLoad(pid, d, sender) =>
      var found := Lookup(s.disk, d.requestId);
      if pid !in s.procs && found.Some? && found.value.held.Some?
      then Put(s, pid, Loaded(d, sender, found.value))
      else s
    case HandleVerify(pid, ctx) =>
      if pid in s.procs && s.procs[pid].Loaded?
      then
        var p := s.procs[pid];
        if !Verified(p.d, p.sender, ctx.(now := s.clock), cfg.verify) then Drop(s, pid)
        else if PermitsSpawn(p.d)
        then Put(s, pid, Checked(p.d, p.hold)).(approvals := s.approvals + {(p.d.requestId, TicketOf(p.d))})
        else Put(s, pid, Checked(p.d, p.hold))
      else s
    case HandleBurn(pid, mem, saved) =>
      if pid in s.procs && s.procs[pid].Checked?
      then
        var p := s.procs[pid];
        var t := TicketOf(p.d);
        if !cfg.router then Put(s, pid, Burnt(p.d, p.hold))
        else if Refuses(s, t) then Drop(s, pid)
        else if Admits(cfg, s, t, mem)
        then
          if saved
          then Put(s, pid, Burnt(p.d, p.hold))
               .(cache := Cache(mem, mem), granted := s.granted + {t}, overwritten := false)
          else Drop(s, pid).(cache := Cache(mem, s.cache.disk))
        else s
      else s
    case HandleReload(pid) =>
      if pid in s.procs && s.procs[pid].Burnt?
      then Put(s, pid, Reloaded(s.procs[pid].d, s.procs[pid].hold, s.disk))
      else s
    case HandleSave(pid, saved) =>
      if pid in s.procs && s.procs[pid].Reloaded?
      then
        var p := s.procs[pid];
        Put(if saved then s.(disk := Removed(p.queue, p.d.requestId)) else s.(unsaved := s.unsaved + [p.d.requestId]),
            pid, Cleared(p.d, p.hold))
      else s
    case HandleAct(pid) =>
      if pid in s.procs && s.procs[pid].Cleared?
      then
        var p := s.procs[pid];
        Drop(if PermitsSpawn(p.d) then s.(released := s.released + [Release(p.hold, p.d)]) else s, pid)
      else s
  }

  ghost function After(cfg: Config, s: State, steps: seq<Step>): State
  {
    if steps == [] then s else Apply(cfg, After(cfg, s, steps[..|steps| - 1]), steps[|steps| - 1])
  }

  ghost predicate Initial(s: State)
  {
    && s.disk == [] && s.cache == Cache(map[], map[]) && s.procs == map[]
    && s.granted == {} && s.approvals == {} && s.released == [] && s.enqueued == [] && s.unsaved == []
    && !s.overwritten
  }

  /**
    Whenever a ticket is presented the cache has room for it, and no crash comes while the
    other writer's save is the last one and lacks something that is still valid.
   */
  ghost predicate Guarded(cfg: Config, s: State, steps: seq<Step>)
  {
    steps == [] ||
    (var before := steps[..|steps| - 1];
     Guarded(cfg, s, before) && Guards(cfg, After(cfg, s, before), steps[|steps| - 1]))
  }

  /** The file has whatever memory has and is still valid. */
  ghost predicate InFile(c: Cache, now: int)
  {
    forall n | n in Live(c.mem, now) :: n in c.disk && c.disk[n] == c.mem[n]
  }

  ghost predicate Guards(cfg: Config, s: State, step: Step)
  {
    && (step.HandleBurn? || step.RequestNonce? ==> |Live(s.cache.mem, s.clock)| < cfg.capacity)
    && (step.Crash? && s.overwritten ==> InFile(s.cache, s.clock))
  }

  lemma NotOverwritten(cfg: Config, s: State, step: Step)
    requires !s.overwritten && !step.SchedulerSave?
    ensures !Apply(cfg, s, step).overwritten
  {
    hide Verified, TicketOf, Lookup, Enqueued, Removed, Edited, Added, Admission;
  }

  /** Where the other writer never saves, a crash needs no guarding: room for every ticket is all that is asked. */
  lemma {:induction false} WithoutOtherWriter(cfg: Config, s: State, steps: seq<Step>)
    requires !s.overwritten && forall x | x in steps :: !x.SchedulerSave?
    ensures !After(cfg, s, steps).overwritten
    ensures Guarded(cfg, s, steps) <==>
      forall i | 0 <= i < |steps| && (steps[i].HandleBurn? || steps[i].RequestNonce?) ::
        var now := After(cfg, s, steps[..i]); |Live(now.cache.mem, now.clock)| < cfg.capacity
  {
    hide Apply;
    if steps != [] {
      var before, last := steps[..|steps| - 1], steps[|steps| - 1];
      assert last in steps && forall x | x in before :: x in steps;
      WithoutOtherWriter(cfg, s, before);
      NotOverwritten(cfg, After(cfg, s, before), last);
      assert forall i | 0 <= i < |before| :: steps[..i] == before[..i] && steps[i] == before[i];
    }
  }

  // ---------------------------------------------------------------------------
  // The nonce bound, over every interleaving
  // ---------------------------------------------------------------------------

  /** The work has burnt its ticket. */
  predicate Spent(p: Proc) { p.Burnt? || p.Reloaded? || p.Cleared? }

  ghost predicate CacheSafe(s: State)
  {
    forall t | t in s.granted :: Covered(s.cache, t, s.overwritten, s.clock)
  }

  ghost predicate ReleasesSafe(s: State)
  {
    && (forall r | r in s.released ::
          TicketOf(r.d) in s.granted && (r.d.requestId, TicketOf(r.d)) in s.approvals && PermitsSpawn(r.d))
    && (forall i, j | 0 <= i < j < |s.released| :: TicketOf(s.released[i].d) != TicketOf(s.released[j].d))
  }

  /** Work `k` may act on nothing but a verified approval, and its spent ticket is its alone. */
  ghost predicate ProcSafe(s: State, k: nat)
    requires k in s.procs
  {
    var p := s.procs[k];
    && (p.Checked? || Spent(p) ==> PermitsSpawn(p.d) ==> (p.d.requestId, TicketOf(p.d)) in s.approvals)
    && (Spent(p) ==>
          && TicketOf(p.d) in s.granted
          && (forall r | r in s.released :: TicketOf(r.d) != TicketOf(p.d))
          && (forall j | j in s.procs && j != k && Spent(s.procs[j]) :: TicketOf(s.procs[j].d) != TicketOf(p.d)))
  }

  ghost predicate ProcsSafe(s: State)
  {
    forall k | k in s.procs :: ProcSafe(s, k)
  }

  ghost predicate Safe(s: State)
  {
    CacheSafe(s) && ReleasesSafe(s) && ProcsSafe(s)
  }

  /** What was granted stays covered, and a ticket admitted into a roomy cache is a new one. */
  lemma AdmitIsFresh(cfg: Config, s: State, t: Ticket, mem: Nonces, saved: bool)
    requires CacheSafe(s) && Admits(cfg, s, t, mem) && |Live(s.cache.mem, s.clock)| < cfg.capacity
    ensures t !in s.granted
    ensures forall g | g in s.granted ::
      Covered(Cache(mem, if saved then mem else s.cache.disk), g, s.overwritten && !saved, s.clock)
    ensures saved ==> Covered(Cache(mem, mem), t, false, s.clock)
  {
    var op := Present(t, s.clock, if saved then Granted else Unsaved);
    var after := Cache(mem, if saved then mem else s.cache.disk);
    assert Next(s.cache, cfg.capacity, op, after);
    forall g | g in s.granted
      ensures Covered(after, g, s.overwritten && !saved, s.clock)
    {
      CoveredStep(s.cache, cfg.capacity, op, after, g, s.overwritten, s.clock);
    }
  }

  lemma CacheStep(cfg: Config, s: State, step: Step)
    requires CacheSafe(s) && Guards(cfg, s, step)
    ensures CacheSafe(Apply(cfg, s, step))
  {
    hide TicketOf, Verified, Admission, ParseRfc3339;
    match step
    case RequestNonce(t, mem, saved) =>
      if Admits(cfg, s, t, mem) {
        AdmitIsFresh(cfg, s, t, mem, saved);
      }
    case HandleBurn(pid, mem, saved) =>
      if pid in s.procs && s.procs[pid].Checked? && Admits(cfg, s, TicketOf(s.procs[pid].d), mem) {
        AdmitIsFresh(cfg, s, TicketOf(s.procs[pid].d), mem, saved);
      }
    case _ =>
  }

  /** History only grows, and no release was added. */
  ghost predicate Grows(s: State, s': State)
  {
    s.granted <= s'.granted && s.approvals <= s'.approvals && s.released == s'.released
  }

  lemma DropSafe(s: State, s': State, pid: nat)
    requires ReleasesSafe(s) && ProcsSafe(s) && Grows(s, s') && s'.procs == s.procs - {pid}
    ensures ReleasesSafe(s') && ProcsSafe(s')
  {
    hide TicketOf;
    forall k | k in s'.procs
      ensures ProcSafe(s', k)
    {
      assert ProcSafe(s, k);
    }
  }

  /** Work moves on, keeping its decision, without spending or gaining anything. */
  lemma PutSafe(s: State, s': State, pid: nat, p: Proc)
    requires ReleasesSafe(s) && ProcsSafe(s) && Grows(s, s') && s'.procs == s.procs[pid := p]
    requires p.Checked? && PermitsSpawn(p.d) ==> (p.d.requestId, TicketOf(p.d)) in s'.approvals
    requires Spent(p) ==> pid in s.procs && Spent(s.procs[pid]) && s.procs[pid].d == p.d
    ensures ReleasesSafe(s') && ProcsSafe(s')
  {
    hide TicketOf;
    forall k | k in s'.procs
      ensures ProcSafe(s', k)
    {
      if k in s.procs {
        assert ProcSafe(s, k);
      }
    }
  }

  /** Work spends a ticket that nobody held before. */
  lemma BurnSafe(s: State, s': State, pid: nat)
    requires ReleasesSafe(s) && ProcsSafe(s) && Grows(s, s')
    requires pid in s.procs && s.procs[pid].Checked?
    requires s'.procs == s.procs[pid := Burnt(s.procs[pid].d, s.procs[pid].hold)]
    requires TicketOf(s.procs[pid].d) !in s.granted && TicketOf(s.procs[pid].d) in s'.granted
    ensures ReleasesSafe(s') && ProcsSafe(s')
  {
    hide TicketOf;
    forall k | k in s'.procs
      ensures ProcSafe(s', k)
    {
      assert ProcSafe(s, k) && ProcSafe(s, pid);
      forall j | j in s.procs && Spent(s.procs[j])
        ensures TicketOf(s.procs[j].d) != TicketOf(s.procs[pid].d)
      {
        assert ProcSafe(s, j);
      }
    }
  }

  lemma ActSafe(s: State, s': State, pid: nat)
    requires ReleasesSafe(s) && ProcsSafe(s) && pid in s.procs && s.procs[pid].Cleared? && PermitsSpawn(s.procs[pid].d)
    requires s' == Drop(s.(released := s.released + [Release(s.procs[pid].hold, s.procs[pid].d)]), pid)
    ensures ReleasesSafe(s') && ProcsSafe(s')
  {
    hide TicketOf;
    assert ProcSafe(s, pid);
    forall k | k in s'.procs
      ensures ProcSafe(s', k)
    {
      assert ProcSafe(s, k);
    }
  }

  lemma SafeStep(cfg: Config, s: State, step: Step)
    requires cfg.router && Safe(s) && Guards(cfg, s, step)
    ensures Safe(Apply(cfg, s, step))
  {
    hide TicketOf, Verified, Admission, ParseRfc3339, Lookup, Enqueued, Removed, Edited, Added, CacheSafe,
      ReleasesSafe, ProcsSafe, Live;
    CacheStep(cfg, s, step);
    var s' := Apply(cfg, s, step);
    if s' == s {
    } else if step.Tick? || step.Crash? || step.RequestNonce? || step.SchedulerSave? {
      QuietSafe(s, s');
    } else {
      var pid := step.pid;
      if step.HandleAct? && PermitsSpawn(s.procs[pid].d) {
        ActSafe(s, s', pid);
      } else if step.HandleBurn? && step.saved && !Refuses(s, TicketOf(s.procs[pid].d)) {
        AdmitIsFresh(cfg, s, TicketOf(s.procs[pid].d), step.mem, step.saved);
        BurnSafe(s, s', pid);
      } else if pid in s'.procs {
        PutSafe(s, s', pid, s'.procs[pid]);
      } else {
        DropSafe(s, s', pid);
      }
    }
  }

  /** Ticks, crashes and what others do to the cache touch neither releases nor surviving work. */
  lemma QuietSafe(s: State, s': State)
    requires ReleasesSafe(s) && ProcsSafe(s) && Grows(s, s') && (s'.procs == s.procs || s'.procs == map[])
    ensures ReleasesSafe(s') && ProcsSafe(s')
  {
    hide TicketOf;
    forall k | k in s'.procs
      ensures ProcSafe(s', k)
    {
      assert ProcSafe(s, k);
    }
  }

  lemma {:induction false} AlwaysSafe(cfg: Config, s: State, steps: seq<Step>)
    requires cfg.router && Safe(s) && Guarded(cfg, s, steps)
    ensures Safe(After(cfg, s, steps))
  {
    hide Apply, Guards, Safe;
    if steps != [] {
      var before := steps[..|steps| - 1];
      AlwaysSafe(cfg, s, before);
      SafeStep(cfg, After(cfg, s, before), steps[|steps| - 1]);
    }
  }

  // ---------------------------------------------------------------------------
  // Counting releases
  // ---------------------------------------------------------------------------

  /** The tickets spent on releases of request `id`, in order. */
  ghost function TicketsFor(released: seq<Release>, id: string): seq<Ticket>
  {
    if released == [] then []
    else
      var rest := TicketsFor(released[..|released| - 1], id);
      var last := released[|released| - 1];
      if last.d.requestId == id then rest + [TicketOf(last.d)] else rest
  }

  lemma {:induction false} TicketsForAre(released: seq<Release>, id: string, t: Ticket)
    ensures t in TicketsFor(released, id) <==> exists r | r in released :: r.d.requestId == id && TicketOf(r.d) == t
  {
    hide TicketOf;
    if released != [] {
      TicketsForAre(released[..|released| - 1], id, t);
      assert released == released[..|released| - 1] + [released[|released| - 1]];
    }
  }

  lemma {:induction false} TicketsForDistinct(released: seq<Release>, id: string)
    requires forall i, j | 0 <= i < j < |released| :: TicketOf(released[i].d) != TicketOf(released[j].d)
    ensures NoDuplicates(TicketsFor(released, id))
  {
    hide TicketOf;
    if released != [] {
      var init, last := released[..|released| - 1], released[|released| - 1];
      TicketsForDistinct(init, id);
      TicketsForAre(init, id, TicketOf(last.d));
    }
  }

  lemma {:induction false} DistinctFits<T(!new)>(s: seq<T>, all: set<T>)
    requires NoDuplicates(s) && forall x | x in s :: x in all
    ensures |s| <= |all|
    decreases s
  {
    if s != [] {
      var x := s[0];
      forall y | y in s[1..]
        ensures y in all - {x}
      {
        assert y in s;
      }
      DistinctFits(s[1..], all - {x});
    }
  }

  /** The tickets of the verified approvals of request `id`. */
  ghost function ApprovalTickets(s: State, id: string): set<Ticket>
  {
    set p | p in s.approvals && p.0 == id :: p.1
  }

  /**
    Over every interleaving of holds, operator decisions, deliveries, redeliveries, crashes,
    failed writes and saves by the file's other writer, as long as the nonce cache has room
    and no crash loses what that writer overwrote, a request is released at most as often
    as there are distinct tickets among its verified approvals, and no two releases, of
    whatever requests, share a ticket.
   */
  lemma ReleasesBoundedByTickets(cfg: Config, s: State, steps: seq<Step>, id: string)
    requires cfg.router && Initial(s) && Guarded(cfg, s, steps)
    ensures var end := After(cfg, s, steps);
      && |TicketsFor(end.released, id)| <= |ApprovalTickets(end, id)|
      && forall i, j | 0 <= i < j < |end.released| :: TicketOf(end.released[i].d) != TicketOf(end.released[j].d)
  {
    hide TicketOf;
    AlwaysSafe(cfg, s, steps);
    var end := After(cfg, s, steps);
    TicketsForDistinct(end.released, id);
    forall t | t in TicketsFor(end.released, id)
      ensures t in ApprovalTickets(end, id)
    {
      TicketsForAre(end.released, id, t);
      var r :| r in end.released && r.d.requestId == id && TicketOf(r.d) == t;
      assert (id, t) in end.approvals;
    }
    DistinctFits(TicketsFor(end.released, id), ApprovalTickets(end, id));
  }

  ghost function NoncesOf(ts: set<Ticket>): set<string>
  {
    set t | t in ts :: t.nonce
  }

  lemma {:induction false} OneTicketPerNonce(ts: set<Ticket>)
    requires forall t, u | t in ts && u in ts && t.nonce == u.nonce :: t == u
    ensures |NoncesOf(ts)| == |ts|
  {
    if ts != {} {
      var t :| t in ts;
      OneTicketPerNonce(ts - {t});
      assert NoncesOf(ts) == NoncesOf(ts - {t}) + {t.nonce};
    }
  }

  /**
    When no nonce is reused with another deadline, the bound is the number of distinct
    nonces among the request's verified approvals.
   */
  lemma ReleasesBoundedByDistinctNonces(cfg: Config, s: State, steps: seq<Step>, id: string)
    requires cfg.router && Initial(s) && Guarded(cfg, s, steps)
    requires forall t, u |
      t in ApprovalTickets(After(cfg, s, steps), id) && u in ApprovalTickets(After(cfg, s, steps), id) ::
      t.nonce == u.nonce ==> t == u
    ensures |TicketsFor(After(cfg, s, steps).released, id)| <= |NoncesOf(ApprovalTickets(After(cfg, s, steps), id))|
  {
    hide After, Guarded, TicketsFor, ApprovalTickets;
    ReleasesBoundedByTickets(cfg, s, steps, id);
    OneTicketPerNonce(ApprovalTickets(After(cfg, s, steps), id));
  }
}
