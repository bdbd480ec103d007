/**
  The bounded, persistent cache of seen nonces that guards privileged actions, and the
  exact sense in which it lets a nonce through only once.
 */
module Replay {
  import opened Basics
  import opened Timestamps

  type Nonces = map<string, int>

  /** The cache as a file holds it. */
  datatype Stored = Stored(capacity: nat, nonces: Nonces)

  datatype Verdict = Admitted | Malformed | Expired | Replayed | IoError

  /** The entries whose expiry lies after `now`. */
  function Live(c: Nonces, now: int): Nonces
  {
    map n | n in c && c[n] > now :: c[n]
  }

  /** `kept` is part of `all`, and whatever was dropped expires no later than what was kept. */
  ghost predicate KeepsLatest(kept: Nonces, all: Nonces)
  {
    && (forall n | n in kept :: n in all && kept[n] == all[n])
    && (forall n, m | n in all && n !in kept && m in kept :: all[n] <= kept[m])
  }

  /**
    What admitting `nonce` at `now` may turn the cache `c` into: expired entries go; if the
    rest fills the capacity, the soonest to expire go too, until one slot is free.
   */
  ghost predicate Admission(c: Nonces, capacity: nat, nonce: string, expiry: int, now: int, c': Nonces)
  {
    && expiry > now && nonce !in c
    && exists kept: Nonces ::
         && KeepsLatest(kept, Live(c, now))
         && (|Live(c, now)| < capacity ==> kept == Live(c, now))
         && (|Live(c, now)| >= capacity ==> |kept| == capacity - 1)
         && c' == kept[nonce := expiry]
  }

  predicate IsSoonest(n: string, c: Nonces)
  {
    n in c && forall m | m in c :: c[n] <= c[m]
  }

  lemma {:induction false} SoonestExists(c: Nonces)
    requires |c| > 0
    ensures exists n :: IsSoonest(n, c)
    decreases |c|
  {
    assert c.Keys != {};
    var n :| n in c;
    var rest := c - {n};
    assert c.Keys == rest.Keys + {n};
    if |rest| == 0 {
      assert rest.Keys == {};
      assert IsSoonest(n, c);
    } else {
      SoonestExists(rest);
      var m :| IsSoonest(m, rest);
      assert IsSoonest(if c[n] <= c[m] then n else m, c);
    }
  }

  class ReplayCache {
    const capacity: nat
    /** Nonce to expiry, in memory and as last persisted. */
    var nonces: Nonces
    var stored: Nonces

    ghost predicate Valid()
    {
      1 <= capacity
    }

    /**
      Load from storage, dropping what has expired. A stored file brings its own capacity;
      a zero capacity counts as one.
     */
    constructor (file: Option<Stored>, cap: nat, now: int)
      ensures Valid() && nonces == Live(stored, now)
      ensures stored == (if file.Some? then file.value.nonces else map[])
      ensures var wanted := if file.Some? then file.value.capacity else cap;
        capacity == if wanted < 1 then 1 else wanted
    {
      var wanted := if file.Some? then file.value.capacity else cap;
      capacity := if wanted < 1 then 1 else wanted;
      stored := if file.Some? then file.value.nonces else map[];
      nonces := Live(if file.Some? then file.value.nonces else map[], now);
    }

    /** Make room for one more entry. */
    method Evict(ghost all: Nonces)
      requires Valid() && nonces == all
      modifies this`nonces
      ensures KeepsLatest(nonces, all) && |nonces| < capacity
      ensures |all| < capacity ==> nonces == all
      ensures |all| >= capacity ==> |nonces| == capacity - 1
    {
      while |nonces| >= capacity
        invariant KeepsLatest(nonces, all)
        invariant |all| < capacity ==> nonces == all
        invariant |all| >= capacity ==> |nonces| >= capacity - 1
        decreases |nonces|
      {
        SoonestExists(nonces);
        var victim :| IsSoonest(victim, nonces);
        RemoveKey(nonces, victim);
        nonces := nonces - {victim};
      }
    }

    /**
      Admit `nonce` at `now`. Every refusal leaves the cache and its storage alone; a failed
      write burns the nonce in memory only and is reported as an error.
     */
    method AdmitAt(nonce: string, expiresAt: string, now: int, canPersist: bool) returns (v: Verdict)
      requires Valid()
      modifies this`nonces, this`stored
      ensures v == Malformed <==> ParseRfc3339(expiresAt).None?
      ensures v == Expired <==> ParseRfc3339(expiresAt).Some? && ParseRfc3339(expiresAt).value <= now
      ensures v == Replayed <==>
        ParseRfc3339(expiresAt).Some? && ParseRfc3339(expiresAt).value > now && nonce in old(nonces)
      ensures v == Malformed || v == Expired || v == Replayed ==> nonces == old(nonces) && stored == old(stored)
      ensures v == Admitted || v == IoError ==>
        Admission(old(nonces), capacity, nonce, ParseRfc3339(expiresAt).value, now, nonces)
      ensures v == Admitted ==> canPersist && stored == nonces
      ensures v == IoError ==> !canPersist && stored == old(stored)
    {
      hide ParseRfc3339;
      var parsed := ParseRfc3339(expiresAt);
      if parsed.None? {
        return Malformed;
      }
      var expiry := parsed.value;
      if expiry <= now {
        return Expired;
      }
      if nonce in nonces {
        return Replayed;
      }
      nonces := Live(nonces, now);
      ghost var live := nonces;
      Evict(live);
      ghost var kept := nonces;
      nonces := nonces[nonce := expiry];
      assert Admission(old(nonces), capacity, nonce, expiry, now, nonces) by {
        assert KeepsLatest(kept, live) && nonces == kept[nonce := expiry];
      }
      if !canPersist {
        return IoError;
      }
      stored := nonces;
      return Admitted;
    }
  }

  // ---------------------------------------------------------------------------
  // Whole runs
  // ---------------------------------------------------------------------------

  datatype Cache = Cache(mem: Nonces, disk: Nonces)

  /** A single-use permission: a nonce together with the expiry it was presented with. */
  datatype Ticket = Ticket(nonce: string, expiry: int)

  datatype Outcome = Granted | Refused | Unsaved

  /**
    What can happen to a cache and its file. The file has a second writer: each pass of
    the scheduler loads a cache of its own from it and saves that whole, over whatever has
    been saved in the meantime.
   */
  datatype Op =
    | Present(ticket: Ticket, at: int, outcome: Outcome)
    | Restart(at: int)
    | OtherSave(at: int, copy: Nonces)

  ghost predicate Next(c: Cache, capacity: nat, op: Op, c': Cache)
  {
    match op
    case Present(t, now, Granted) =>
      Admission(c.mem, capacity, t.nonce, t.expiry, now, c'.mem) && c'.disk == c'.mem
    case Present(t, now, Unsaved) =>
      Admission(c.mem, capacity, t.nonce, t.expiry, now, c'.mem) && c'.disk == c.disk
    case Present(t, now, Refused) =>
      (t.expiry <= now || t.nonce in c.mem) && c' == c
    case Restart(now) => c'.disk == c.disk && c'.mem == Live(c.disk, now)
    case OtherSave(_, copy) => c'.mem == c.mem && c'.disk == copy
  }

  ghost predicate Holds(c: Nonces, t: Ticket)
  {
    t.nonce in c && c[t.nonce] == t.expiry
  }

  /** The step makes memory forget a still valid ticket. */
  ghost predicate Forgets(c: Cache, op: Op, c': Cache, t: Ticket)
  {
    Holds(Live(c.mem, op.at), t) && !Holds(c'.mem, t)
  }

  /** The states a run goes through, one more than there are steps, on a clock that never runs back. */
  ghost predicate Run(cs: seq<Cache>, ops: seq<Op>, capacity: nat)
  {
    && |cs| == |ops| + 1
    && (forall i | 0 <= i < |ops| :: Next(cs[i], capacity, ops[i], cs[i + 1]))
    && (forall i, j | 0 <= i < j < |ops| :: ops[i].at <= ops[j].at)
  }

  /** Memory has the ticket, or it has run out. */
  ghost predicate Remembers(c: Cache, t: Ticket, now: int)
  {
    t.expiry <= now || Holds(c.mem, t)
  }

  // ---------------------------------------------------------------------------
  // When a step forgets
  // ---------------------------------------------------------------------------

  lemma {:induction false} SomeDropped(kept: Nonces, all: Nonces)
    requires KeepsLatest(kept, all) && |kept| < |all|
    ensures exists n :: n in all && n !in kept
  {
    var dropped := all.Keys - kept.Keys;
    assert all.Keys == kept.Keys + dropped;
    assert dropped != {};
    var n :| n in dropped;
    assert n in all && n !in kept;
  }

  /** Letting a new nonce in forgets something exactly when the still valid entries fill the capacity. */
  lemma ForgetsIffFull(c: Cache, capacity: nat, op: Op, c': Cache)
    requires Next(c, capacity, op, c') && op.Present? && op.outcome != Refused && capacity >= 1
    ensures (exists t :: Forgets(c, op, c', t)) <==> |Live(c.mem, op.at)| >= capacity
  {
    var live := Live(c.mem, op.at);
    var kept: Nonces :|
      && KeepsLatest(kept, live) && (|live| < capacity ==> kept == live)
      && (|live| >= capacity ==> |kept| == capacity - 1) && c'.mem == kept[op.ticket.nonce := op.ticket.expiry];
    if |live| >= capacity {
      SomeDropped(kept, live);
      var n :| n in live && n !in kept;
      assert Forgets(c, op, c', Ticket(n, live[n]));
    }
  }

  /** The entries that expire after `expiry`. */
  function Later(c: Nonces, expiry: int): set<string>
  {
    set n | n in c && c[n] > expiry
  }

  ghost predicate DistinctDeadlines(c: Nonces)
  {
    forall n, m | n in c && m in c && n != m :: c[n] != c[m]
  }

  /** Of entries with distinct deadlines, the ones kept are the last to expire, as many as there is room for. */
  lemma KeptAreLast(kept: Nonces, all: Nonces, n: string)
    requires KeepsLatest(kept, all) && DistinctDeadlines(all) && n in all
    ensures n !in kept ==> |kept| <= |Later(all, all[n])|
    ensures n in kept ==> |Later(all, all[n])| < |kept|
  {
    var later := Later(all, all[n]);
    if n !in kept {
      SubsetSize(kept.Keys, later);
    } else {
      assert later <= kept.Keys - {n};
      SubsetSize(later, kept.Keys - {n});
      assert kept.Keys == (kept.Keys - {n}) + {n};
    }
  }

  /**
    Which tickets a new nonce makes memory forget can be read off the deadlines: with
    distinct ones, exactly those that at least `capacity - 1` valid entries outlast. In a
    cache just full that is the one to expire soonest.
   */
  lemma ForgetsTheSoonest(c: Cache, capacity: nat, op: Op, c': Cache, t: Ticket)
    requires Next(c, capacity, op, c') && op.Present? && op.outcome != Refused && capacity >= 1
    requires DistinctDeadlines(Live(c.mem, op.at))
    ensures Forgets(c, op, c', t) <==>
      Holds(Live(c.mem, op.at), t) && |Later(Live(c.mem, op.at), t.expiry)| >= capacity - 1
  {
    var live := Live(c.mem, op.at);
    var kept: Nonces :|
      && KeepsLatest(kept, live) && (|live| < capacity ==> kept == live)
      && (|live| >= capacity ==> |kept| == capacity - 1) && c'.mem == kept[op.ticket.nonce := op.ticket.expiry];
    if Holds(live, t) {
      KeptAreLast(kept, live, t.nonce);
    }
  }

  /** Nothing else forgets, but a restart forgets exactly the valid tickets the file does not hold. */
  lemma WhatElseForgets(c: Cache, capacity: nat, op: Op, c': Cache, t: Ticket)
    requires Next(c, capacity, op, c') && (op.Present? ==> op.outcome == Refused)
    ensures Forgets(c, op, c', t) <==>
      op.Restart? && t.expiry > op.at && Holds(c.mem, t) && !Holds(c.disk, t)
  {
  }

  // ---------------------------------------------------------------------------
  // Once, unless forgotten
  // ---------------------------------------------------------------------------

  lemma RememberStep(c: Cache, capacity: nat, op: Op, c': Cache, t: Ticket, now: int)
    requires Next(c, capacity, op, c') && Remembers(c, t, now) && now <= op.at && !Forgets(c, op, c', t)
    ensures Remembers(c', t, op.at)
  {
  }

  lemma GrantRemembers(c: Cache, capacity: nat, t: Ticket, at: int, c': Cache)
    requires Next(c, capacity, Present(t, at, Granted), c')
    ensures Remembers(c', t, at)
  {
  }

  /** A remembered ticket is not granted. */
  lemma RememberedNotGranted(c: Cache, capacity: nat, op: Op, c': Cache, t: Ticket, now: int)
    requires Next(c, capacity, op, c') && Remembers(c, t, now) && now <= op.at
    ensures op != Present(t, op.at, Granted)
  {
  }

  lemma {:induction false} RememberedThroughout(cs: seq<Cache>, ops: seq<Op>, capacity: nat, i: nat, j: nat, t: Ticket)
    requires Run(cs, ops, capacity) && i < j <= |ops|
    requires ops[i] == Present(t, ops[i].at, Granted)
    requires forall k | i < k < j :: !Forgets(cs[k], ops[k], cs[k + 1], t)
    ensures Remembers(cs[j], t, ops[j - 1].at)
    decreases j
  {
    hide Next, Remembers, Forgets;
    if j == i + 1 {
      GrantRemembers(cs[i], capacity, t, ops[i].at, cs[i + 1]);
    } else {
      RememberedThroughout(cs, ops, capacity, i, j - 1, t);
      RememberStep(cs[j - 1], capacity, ops[j - 1], cs[j], t, ops[j - 2].at);
    }
  }

  /**
    Whatever else is presented, written, not written or overwritten, and however often the
    daemon restarts: unless it is forgotten in between, a granted ticket is not granted again.
   */
  lemma OnceUnlessForgotten(cs: seq<Cache>, ops: seq<Op>, capacity: nat, i: nat, j: nat, t: Ticket)
    requires Run(cs, ops, capacity) && i < j < |ops|
    requires ops[i] == Present(t, ops[i].at, Granted)
    requires forall k | i < k < j :: !Forgets(cs[k], ops[k], cs[k + 1], t)
    ensures ops[j] != Present(t, ops[j].at, Granted)
  {
    hide Next, Remembers, Forgets;
    RememberedThroughout(cs, ops, capacity, i, j, t);
    RememberedNotGranted(cs[j], capacity, ops[j], cs[j + 1], t, ops[j - 1].at);
  }

  // ---------------------------------------------------------------------------
  // And exactly then, when nothing goes wrong with the file
  // ---------------------------------------------------------------------------

  /** Every write of the step reaches the file, and nobody else writes it. */
  predicate Clean(op: Op)
  {
    !op.OtherSave? && (op.Present? ==> op.outcome != Unsaved)
  }

  /** Memory and file agree about the nonce of a ticket that has not run out. */
  ghost predicate Agree(c: Cache, t: Ticket)
  {
    (Holds(c.mem, t) && Holds(c.disk, t)) || (t.nonce !in c.mem && t.nonce !in c.disk)
  }

  lemma AgreeStep(c: Cache, capacity: nat, op: Op, c': Cache, t: Ticket)
    requires Next(c, capacity, op, c') && Clean(op) && Agree(c, t) && op.at < t.expiry
    requires op.Present? ==> op.ticket.nonce != t.nonce
    ensures Agree(c', t)
    ensures Holds(c'.mem, t) <==> Holds(c.mem, t) && !Forgets(c, op, c', t)
  {
  }

  lemma {:induction false} HeldIffNotForgotten(cs: seq<Cache>, ops: seq<Op>, capacity: nat, i: nat, j: nat, t: Ticket)
    requires Run(cs, ops, capacity) && i < j <= |ops| && ops[j - 1].at < t.expiry
    requires ops[i] == Present(t, ops[i].at, Granted)
    requires forall k | i < k < j :: Clean(ops[k]) && (ops[k].Present? ==> ops[k].ticket.nonce != t.nonce)
    ensures Agree(cs[j], t)
    ensures Holds(cs[j].mem, t) <==> forall k | i < k < j :: !Forgets(cs[k], ops[k], cs[k + 1], t)
    decreases j
  {
    hide Next, Forgets, Clean;
    if j == i + 1 {
      GrantedAgree(cs[i], capacity, t, ops[i].at, cs[i + 1]);
    } else {
      assert ops[j - 2].at <= ops[j - 1].at;
      HeldIffNotForgotten(cs, ops, capacity, i, j - 1, t);
      AgreeStep(cs[j - 1], capacity, ops[j - 1], cs[j], t);
    }
  }

  lemma GrantedAgree(c: Cache, capacity: nat, t: Ticket, at: int, c': Cache)
    requires Next(c, capacity, Present(t, at, Granted), c')
    ensures Agree(c', t) && Holds(c'.mem, t)
  {
  }

  /**
    With every write saved and no other writer, a granted ticket presented again before it
    runs out, its nonce not having been used otherwise, is refused if and only if no step
    in between forgot it.
   */
  lemma RefusedIffNotForgotten(cs: seq<Cache>, ops: seq<Op>, capacity: nat, i: nat, j: nat, t: Ticket)
    requires Run(cs, ops, capacity) && i < j < |ops|
    requires ops[i] == Present(t, ops[i].at, Granted)
    requires ops[j].Present? && ops[j].ticket == t && ops[j].at < t.expiry
    requires forall k | i < k < j :: Clean(ops[k]) && (ops[k].Present? ==> ops[k].ticket.nonce != t.nonce)
    ensures ops[j].outcome == Refused <==> forall k | i < k < j :: !Forgets(cs[k], ops[k], cs[k + 1], t)
  {
    hide Forgets, Clean, Admission;
    assert ops[j - 1].at <= ops[j].at;
    HeldIffNotForgotten(cs, ops, capacity, i, j, t);
    NotAdmitted(cs[j].mem, capacity, t, ops[j].at, cs[j + 1].mem);
  }

  /** No step between `i` and `k` forgets the ticket. */
  ghost predicate Keeps(cs: seq<Cache>, ops: seq<Op>, i: nat, k: nat, t: Ticket)
    requires k <= |ops| && |cs| == |ops| + 1
  {
    forall m | i < m < k :: !Forgets(cs[m], ops[m], cs[m + 1], t)
  }

  /** Step `k` lets a nonce in and finds the deadline outlasted by `capacity - 1` valid entries. */
  ghost predicate Crowds(cs: seq<Cache>, ops: seq<Op>, capacity: nat, k: nat, expiry: int)
    requires k < |ops| && |cs| == |ops| + 1
  {
    ops[k].Present? && ops[k].outcome == Granted && |Later(Live(cs[k].mem, ops[k].at), expiry)| >= capacity - 1
  }

  lemma ForgetsByDeadline(cs: seq<Cache>, ops: seq<Op>, capacity: nat, i: nat, k: nat, t: Ticket)
    requires Run(cs, ops, capacity) && i < k < |ops| && capacity >= 1 && ops[k].at < t.expiry
    requires ops[i] == Present(t, ops[i].at, Granted)
    requires forall m | i < m <= k :: Clean(ops[m]) && (ops[m].Present? ==> ops[m].ticket.nonce != t.nonce)
    requires DistinctDeadlines(Live(cs[k].mem, ops[k].at)) && Keeps(cs, ops, i, k, t)
    ensures Forgets(cs[k], ops[k], cs[k + 1], t) <==> Crowds(cs, ops, capacity, k, t.expiry)
  {
    hide Admission, Later, DistinctDeadlines;
    assert ops[k - 1].at <= ops[k].at;
    HeldIffNotForgotten(cs, ops, capacity, i, k, t);
    if ops[k].Present? && ops[k].outcome != Refused {
      ForgetsTheSoonest(cs[k], capacity, ops[k], cs[k + 1], t);
    } else {
      WhatElseForgets(cs[k], capacity, ops[k], cs[k + 1], t);
    }
  }

  lemma {:induction false} KeepsByDeadlines(cs: seq<Cache>, ops: seq<Op>, capacity: nat, i: nat, j: nat, t: Ticket)
    requires Run(cs, ops, capacity) && i < j <= |ops| && capacity >= 1 && ops[j - 1].at < t.expiry
    requires ops[i] == Present(t, ops[i].at, Granted)
    requires forall k | i < k < j :: Clean(ops[k]) && (ops[k].Present? ==> ops[k].ticket.nonce != t.nonce)
    requires forall k | i < k < j :: DistinctDeadlines(Live(cs[k].mem, ops[k].at))
    ensures Keeps(cs, ops, i, j, t) <==> forall k | i < k < j :: !Crowds(cs, ops, capacity, k, t.expiry)
  {
    hide Next, Forgets, Crowds, Clean, DistinctDeadlines, Live;
    if i + 1 < j {
      assert ops[j - 2].at <= ops[j - 1].at;
      KeepsByDeadlines(cs, ops, capacity, i, j - 1, t);
      if Keeps(cs, ops, i, j - 1, t) {
        ForgetsByDeadline(cs, ops, capacity, i, j - 1, t);
      }
    }
  }

  /**
    So with distinct deadlines the deadlines alone decide: the ticket is refused if and only
    if no nonce let in meanwhile found it outlasted by `capacity - 1` valid entries.
   */
  lemma RefusedByDeadlines(cs: seq<Cache>, ops: seq<Op>, capacity: nat, i: nat, j: nat, t: Ticket)
    requires Run(cs, ops, capacity) && i < j < |ops| && capacity >= 1
    requires ops[i] == Present(t, ops[i].at, Granted)
    requires ops[j].Present? && ops[j].ticket == t && ops[j].at < t.expiry
    requires forall k | i < k < j :: Clean(ops[k]) && (ops[k].Present? ==> ops[k].ticket.nonce != t.nonce)
    requires forall k | i < k < j :: DistinctDeadlines(Live(cs[k].mem, ops[k].at))
    ensures ops[j].outcome == Refused <==> forall k | i < k < j :: !Crowds(cs, ops, capacity, k, t.expiry)
  {
    hide Next, Forgets, Crowds, Clean, DistinctDeadlines, Live;
    assert ops[j - 1].at <= ops[j].at;
    RefusedIffNotForgotten(cs, ops, capacity, i, j, t);
    KeepsByDeadlines(cs, ops, capacity, i, j, t);
  }

  lemma NotAdmitted(c: Nonces, capacity: nat, t: Ticket, now: int, c': Nonces)
    ensures Admission(c, capacity, t.nonce, t.expiry, now, c') ==> t.nonce !in c
  {
  }

  // ---------------------------------------------------------------------------
  // Enough room, and a file of one's own
  // ---------------------------------------------------------------------------

  /** The last save before step `k`, if after step `i`, was the other writer's. */
  ghost predicate Overwritten(ops: seq<Op>, i: nat, k: nat)
    requires k <= |ops|
  {
    exists m | i < m < k :: ops[m].OtherSave? && forall l | m < l < k :: ops[l].Present? ==> ops[l].outcome != Granted
  }

  /** Memory has the ticket, and so has the file unless the other writer saved last. */
  ghost predicate Covered(c: Cache, t: Ticket, overwritten: bool, now: int)
  {
    t.expiry <= now || (Holds(c.mem, t) && (overwritten || Holds(c.disk, t)))
  }

  /** How one step changes who saved last. */
  predicate SavedLast(overwritten: bool, op: Op)
  {
    if op.OtherSave? then true else if op.Present? && op.outcome == Granted then false else overwritten
  }

  lemma CoveredStep(c: Cache, capacity: nat, op: Op, c': Cache, t: Ticket, overwritten: bool, now: int)
    requires Next(c, capacity, op, c') && Covered(c, t, overwritten, now) && now <= op.at
    requires op.Present? ==> |Live(c.mem, op.at)| < capacity
    requires op.Restart? ==> !overwritten
    ensures Covered(c', t, SavedLast(overwritten, op), op.at)
  {
  }

  lemma SavedLastIs(ops: seq<Op>, i: nat, k: nat)
    requires i < k < |ops|
    ensures Overwritten(ops, i, k + 1) <==> SavedLast(Overwritten(ops, i, k), ops[k])
  {
    if ops[k].OtherSave? {
      assert Overwritten(ops, i, k + 1);
    } else if Overwritten(ops, i, k + 1) {
      var m :| i < m < k + 1 && ops[m].OtherSave? &&
        forall l | m < l < k + 1 :: ops[l].Present? ==> ops[l].outcome != Granted;
      assert m < k;
    }
  }

  lemma {:induction false} CoveredThroughout(cs: seq<Cache>, ops: seq<Op>, capacity: nat, i: nat, j: nat, t: Ticket)
    requires Run(cs, ops, capacity) && i < j <= |ops|
    requires ops[i] == Present(t, ops[i].at, Granted)
    requires forall k | i < k < j && ops[k].Present? :: |Live(cs[k].mem, ops[k].at)| < capacity
    requires forall k | i < k < j && ops[k].Restart? :: !Overwritten(ops, i, k)
    ensures Covered(cs[j], t, Overwritten(ops, i, j), ops[j - 1].at)
    decreases j
  {
    hide Next, Covered, Live, SavedLast;
    if j == i + 1 {
      GrantCovers(cs[i], capacity, t, ops[i].at, cs[i + 1], Overwritten(ops, i, j));
    } else {
      hide Overwritten;
      CoveredThroughout(cs, ops, capacity, i, j - 1, t);
      CoveredStep(cs[j - 1], capacity, ops[j - 1], cs[j], t, Overwritten(ops, i, j - 1), ops[j - 2].at);
      SavedLastIs(ops, i, j - 1);
    }
  }

  lemma GrantCovers(c: Cache, capacity: nat, t: Ticket, at: int, c': Cache, overwritten: bool)
    requires Next(c, capacity, Present(t, at, Granted), c')
    ensures Covered(c', t, overwritten, at)
  {
  }

  /**
    With room throughout, and no restart while the other writer's save is the last one,
    every ticket is granted at most once, across restarts and failed writes.
   */
  lemma GrantedOnceIfRoom(cs: seq<Cache>, ops: seq<Op>, capacity: nat, i: nat, j: nat, t: Ticket)
    requires Run(cs, ops, capacity) && i < j < |ops|
    requires forall k | i < k < j && ops[k].Present? :: |Live(cs[k].mem, ops[k].at)| < capacity
    requires forall k | i < k < j && ops[k].Restart? :: !Overwritten(ops, i, k)
    requires ops[i] == Present(t, ops[i].at, Granted)
    ensures ops[j] != Present(t, ops[j].at, Granted)
  {
    hide Next, Live, Overwritten;
    CoveredThroughout(cs, ops, capacity, i, j, t);
    RememberedNotGranted(cs[j], capacity, ops[j], cs[j + 1], t, ops[j - 1].at);
  }

  // ---------------------------------------------------------------------------
  // Runs that grant twice
  // ---------------------------------------------------------------------------

  lemma ThreeSteps(cs: seq<Cache>, ops: seq<Op>, capacity: nat)
    requires |cs| == 4 && |ops| == 3 && ops[0].at <= ops[1].at <= ops[2].at
    requires Next(cs[0], capacity, ops[0], cs[1]) && Next(cs[1], capacity, ops[1], cs[2])
    requires Next(cs[2], capacity, ops[2], cs[3])
    ensures Run(cs, ops, capacity)
  {
    hide Next;
    forall i | 0 <= i < 3
      ensures Next(cs[i], capacity, ops[i], cs[i + 1])
    {
      assert i == 0 || i == 1 || i == 2;
    }
  }

  /** A cache with room takes a new nonce in. */
  lemma TakesIn(c: Nonces, capacity: nat, nonce: string, expiry: int, now: int)
    requires |c| < capacity && nonce !in c && now < expiry && forall n | n in c :: c[n] > now
    ensures Admission(c, capacity, nonce, expiry, now, c[nonce := expiry])
  {
    assert Live(c, now) == c;
    assert KeepsLatest(c, Live(c, now));
  }

  /** A full cache makes room for a new nonce by dropping an entry that expires no later than the rest. */
  lemma Displaces(c: Nonces, capacity: nat, victim: string, nonce: string, expiry: int, now: int)
    requires |c| == capacity && victim in c && nonce !in c && now < expiry
    requires forall n | n in c :: now < c[victim] <= c[n]
    ensures Admission(c, capacity, nonce, expiry, now, (c - {victim})[nonce := expiry])
  {
    assert Live(c, now) == c;
    RemoveKey(c, victim);
    assert KeepsLatest(c - {victim}, Live(c, now));
  }

  lemma OneMore(c: Nonces, n: string, expiry: int)
    requires n !in c
    ensures c[n := expiry] - {n} == c && |c[n := expiry]| == |c| + 1
  {
    RemoveKey(c[n := expiry], n);
    assert c[n := expiry] - {n} == c;
  }

  /**
    A cache of any capacity that is one entry short of full: granting `a`, then another
    ticket that expires later, and then `a` again, each as the code demands.
   */
  lemma FullCacheGrantsTwice(capacity: nat, others: Nonces, a: string, b: string)
      returns (cs: seq<Cache>, ops: seq<Op>)
    requires capacity >= 1 && |others| == capacity - 1 && a != b && a !in others && b !in others
    requires forall n | n in others :: others[n] == 200
    ensures Run(cs, ops, capacity) && |ops| == 3 && cs[0] == Cache(others, others)
    ensures ops[0] == Present(Ticket(a, 100), 1, Granted) && ops[2] == Present(Ticket(a, 100), 3, Granted)
  {
    hide Admission, Run;
    var withA, withB := others[a := 100], others[b := 200];
    OneMore(others, a, 100);
    OneMore(others, b, 200);
    TakesIn(others, capacity, a, 100, 1);
    Displaces(withA, capacity, a, b, 200, 2);
    Displaces(withB, capacity, b, a, 100, 3);
    cs := [Cache(others, others), Cache(withA, withA), Cache(withB, withB), Cache(withA, withA)];
    ops := [Present(Ticket(a, 100), 1, Granted), Present(Ticket(b, 200), 2, Granted),
            Present(Ticket(a, 100), 3, Granted)];
    ThreeSteps(cs, ops, capacity);
  }

  /** Such a cache exists at every capacity, whatever the two nonces. */
  lemma {:induction false} AlmostFull(size: nat, a: string, b: string) returns (others: Nonces)
    ensures |others| == size && a !in others && b !in others
    ensures forall n | n in others :: others[n] == 200 && |n| <= |a| + |b| + size
  {
    if size == 0 {
      others := map[];
    } else {
      others := AlmostFull(size - 1, a, b);
      var name := seq(|a| + |b| + size, i => 'x');
      var more := others[name := 200];
      assert more - {name} == others;
      RemoveKey(more, name);
      others := more;
    }
  }

  /**
    Room is not enough when the file has another writer. That writer loaded the file before
    `a` was granted and saves its own copy, with a nonce of its own, after; then the daemon
    restarts, and `a` is granted again, long before it runs out.
   */
  lemma OtherWriterGrantsTwice(capacity: nat, a: string, b: string) returns (cs: seq<Cache>, ops: seq<Op>)
    requires capacity >= 2 && a != b
    ensures Run(cs, ops, capacity) && |ops| == 4
    ensures ops[0] == Present(Ticket(a, 100), 1, Granted) && ops[3] == Present(Ticket(a, 100), 4, Granted)
    ensures ops[1].OtherSave? && Admission(Live(cs[0].disk, 0), capacity, b, 100, 2, ops[1].copy)
    ensures ops[2] == Restart(3)
    ensures forall k | 0 <= k < 4 && ops[k].Present? :: |Live(cs[k].mem, ops[k].at)| < capacity
  {
    hide Admission;
    var none: Nonces, ma: Nonces, mb: Nonces := map[], map[a := 100], map[b := 100];
    var both := mb[a := 100];
    TakesIn(none, capacity, a, 100, 1);
    TakesIn(none, capacity, b, 100, 2);
    TakesIn(mb, capacity, a, 100, 4);
    assert Live(none, 0) == none && Live(none, 1) == none && Live(mb, 3) == mb && Live(mb, 4) == mb;
    assert none[a := 100] == ma && none[b := 100] == mb;
    cs := [Cache(none, none), Cache(ma, ma), Cache(ma, mb), Cache(mb, mb), Cache(both, both)];
    ops := [Present(Ticket(a, 100), 1, Granted), OtherSave(2, mb), Restart(3), Present(Ticket(a, 100), 4, Granted)];
    forall i | 0 <= i < 4
      ensures Next(cs[i], capacity, ops[i], cs[i + 1])
    {
      assert i == 0 || i == 1 || i == 2 || i == 3;
    }
  }

  /**
    A nonce presented again with a later deadline is another ticket: once the first one has
    run out and been dropped, it is granted again, however much room there is.
   */
  lemma ReusedNonceGrantedTwice(nonce: string, capacity: nat) returns (cs: seq<Cache>, ops: seq<Op>)
    requires capacity >= 1
    ensures Run(cs, ops, capacity) && |ops| == 3
    ensures ops[0] == Present(Ticket(nonce, 10), 1, Granted) && ops[2] == Present(Ticket(nonce, 50), 30, Granted)
  {
    hide Admission, Run;
    var none: Nonces, early: Nonces, late: Nonces := map[], map[nonce := 10], map[nonce := 50];
    assert Live(early, 20) == none;
    assert none[nonce := 10] == early && none[nonce := 50] == late;
    TakesIn(none, capacity, nonce, 10, 1);
    TakesIn(none, capacity, nonce, 50, 30);
    cs := [Cache(none, none), Cache(early, early), Cache(none, early), Cache(late, late)];
    ops := [Present(Ticket(nonce, 10), 1, Granted), Restart(20), Present(Ticket(nonce, 50), 30, Granted)];
    ThreeSteps(cs, ops, capacity);
  }
}
