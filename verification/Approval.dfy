/**
  Approval holds and decisions: the local queue of held requests, what it takes for a
  decision to be believed, and the newest-first scan of a room's decisions.
 */
module Approval {
  import opened Basics
  import opened Timestamps

  const DECISION_APPROVED := "approved"
  const APPROVAL_REQUEST_TTL: nat := 3600

  /** The original signed request, kept so that an approval can run exactly it. */
  datatype HeldRequest = Exec(exec: string) | Call(call: string)

  /** `held` is absent for task-backed holds, which the scheduler releases. */
  datatype Hold = Hold(roomId: string, requestId: string, held: Option<HeldRequest>, requesterUser: Option<string>,
                       expiresAt: string)

  // ---------------------------------------------------------------------------
  // The queue
  // ---------------------------------------------------------------------------

  function Lookup(q: seq<Hold>, id: string): Option<Hold>
  {
    if q == [] then None
    else if q[0].requestId == id then Some(q[0])
    else Lookup(q[1..], id)
  }

  function Enqueued(q: seq<Hold>, p: Hold): seq<Hold>
  {
    if q == [] then [p]
    else if q[0].requestId == p.requestId then [p] + q[1..]
    else [q[0]] + Enqueued(q[1..], p)
  }

  function Removed(q: seq<Hold>, id: string): seq<Hold>
  {
    if q == [] then []
    else if q[0].requestId == id then q[1..]
    else [q[0]] + Removed(q[1..], id)
  }

  /** The holds with another id, in their order. */
  function Others(q: seq<Hold>, id: string): seq<Hold>
  {
    if q == [] then []
    else if q[0].requestId == id then Others(q[1..], id)
    else [q[0]] + Others(q[1..], id)
  }

  /** One hold per request id. */
  ghost predicate Unique(q: seq<Hold>)
  {
    q == [] || (Lookup(q[1..], q[0].requestId) == None && Unique(q[1..]))
  }

  lemma {:induction false} LookupMatches(q: seq<Hold>, id: string)
    ensures Lookup(q, id).Some? ==> Lookup(q, id).value.requestId == id && Lookup(q, id).value in q
    ensures Lookup(q, id) == None <==> Others(q, id) == q
    ensures |Others(q, id)| <= |q|
  {
    if q != [] {
      LookupMatches(q[1..], id);
      if Lookup(q[1..], id) == None && q[0].requestId != id {
        assert q == [q[0]] + q[1..];
      } else if q[0].requestId == id {
        assert |Others(q, id)| < |q|;
      } else {
        assert Others(q, id)[1..] == Others(q[1..], id);
      }
    }
  }

  /** Enqueuing replaces in place or appends: the id maps to the new hold, every other hold stands. */
  lemma {:induction false} EnqueuedIs(q: seq<Hold>, p: Hold, id: string)
    ensures Lookup(Enqueued(q, p), id) == if id == p.requestId then Some(p) else Lookup(q, id)
    ensures Unique(q) ==> Unique(Enqueued(q, p)) && Others(Enqueued(q, p), p.requestId) == Others(q, p.requestId)
    ensures Enqueued(Enqueued(q, p), p) == Enqueued(q, p)
  {
    if q != [] {
      EnqueuedIs(q[1..], p, id);
      EnqueuedIs(q[1..], p, q[0].requestId);
      var r := Enqueued(q, p);
      assert r[1..] == if q[0].requestId == p.requestId then q[1..] else Enqueued(q[1..], p);
      assert q[0].requestId == p.requestId ==> [p] + r[1..] == r;
    }
  }

  /** Removing takes out the one hold of that id and leaves the others, in order. */
  lemma {:induction false} RemovedIs(q: seq<Hold>, id: string, other: string)
    requires Unique(q)
    ensures Removed(q, id) == Others(q, id)
    ensures Unique(Removed(q, id))
    ensures Lookup(Removed(q, id), other) == if other == id then None else Lookup(q, other)
  {
    if q != [] {
      LookupMatches(q[1..], id);
      if q[0].requestId != id {
        RemovedIs(q[1..], id, other);
        RemovedIs(q[1..], id, q[0].requestId);
        var r := Removed(q, id);
        assert r[0] == q[0] && r[1..] == Removed(q[1..], id);
      }
    }
  }

  // ---------------------------------------------------------------------------
  // What a pass of the scheduler does to its copy of the queue
  // ---------------------------------------------------------------------------

  /** The gate holds a task or lets go of one; the sweep takes out a live hold whose window has passed. */
  datatype Edit = GateHolds(hold: Hold) | GateDrops(id: string) | Sweeps(id: string)

  function AsTask(h: Hold): Hold { h.(held := None, requesterUser := None) }

  predicate IsSwept(q: seq<Hold>, id: string, now: int)
  {
    && Lookup(q, id).Some? && Lookup(q, id).value.held.Some?
    && RequestExpired(Lookup(q, id).value.expiresAt, now)
  }

  function EditOne(q: seq<Hold>, e: Edit, now: int): seq<Hold>
  {
    match e
    case GateHolds(h) => Enqueued(q, AsTask(h))
    case GateDrops(id) => Removed(q, id)
    case Sweeps(id) => if IsSwept(q, id, now) then Removed(q, id) else q
  }

  function Edited(q: seq<Hold>, edits: seq<Edit>, now: int): seq<Hold>
  {
    if edits == [] then q else EditOne(Edited(q, edits[..|edits| - 1], now), edits[|edits| - 1], now)
  }

  /** The holds a pass puts in, in order. */
  function Added(edits: seq<Edit>): seq<Hold>
  {
    if edits == [] then []
    else
      var e := edits[|edits| - 1];
      Added(edits[..|edits| - 1]) + if e.GateHolds? then [AsTask(e.hold)] else []
  }

  /** The edit is the gate's, and about request `id`. */
  predicate Gates(e: Edit, id: string)
  {
    (e.GateHolds? && e.hold.requestId == id) || (e.GateDrops? && e.id == id)
  }

  /**
    A pass keeps ids unique and never brings a live hold in. What stands for a request that
    the gate does not touch changes only if it is a live hold, the sweep names it, and its
    window has passed; then it is gone.
   */
  lemma {:induction false} EditedIs(q: seq<Hold>, edits: seq<Edit>, now: int, id: string)
    requires Unique(q)
    ensures Unique(Edited(q, edits, now))
    ensures var after := Lookup(Edited(q, edits, now), id);
      && (after.Some? && after.value.held.Some? ==> after == Lookup(q, id))
      && ((forall e | e in edits :: !Gates(e, id)) && after != Lookup(q, id) ==>
            after == None && IsSwept(q, id, now) && Sweeps(id) in edits)
  {
    hide Lookup, Enqueued, Removed, Unique, RequestExpired;
    if edits != [] {
      var before, e := edits[..|edits| - 1], edits[|edits| - 1];
      assert e in edits && forall x | x in before :: x in edits;
      EditedIs(q, before, now, id);
      var mid := Edited(q, before, now);
      match e
      case GateHolds(h) =>
        EnqueuedIs(mid, AsTask(h), id);
      case GateDrops(i) =>
        RemovedIs(mid, i, id);
      case Sweeps(i) =>
        RemovedIs(mid, i, id);
    }
  }

  class ApprovalQueue {
    var pending: seq<Hold>

    constructor (loaded: seq<Hold>)
      ensures pending == loaded
    {
      pending := loaded;
    }

    /** The index of the first hold with this id, or the length. */
    method Position(id: string) returns (i: nat)
      ensures i <= |pending|
      ensures forall j | 0 <= j < i :: pending[j].requestId != id
      ensures i < |pending| ==> pending[i].requestId == id
    {
      i := 0;
      while i < |pending| && pending[i].requestId != id
        invariant i <= |pending|
        invariant forall j | 0 <= j < i :: pending[j].requestId != id
      {
        i := i + 1;
      }
    }

    method Get(id: string) returns (r: Option<Hold>)
      ensures r == Lookup(pending, id)
    {
      var i := Position(id);
      AtPosition(pending, id, i);
      r := if i < |pending| then Some(pending[i]) else None;
    }

    method Enqueue(p: Hold)
      modifies this
      ensures pending == Enqueued(old(pending), p)
    {
      var i := Position(p.requestId);
      EnqueuedAt(pending, p, i);
      if i < |pending| {
        pending := pending[i := p];
      } else {
        pending := pending + [p];
      }
    }

    method Remove(id: string) returns (r: Option<Hold>)
      modifies this
      ensures pending == Removed(old(pending), id) && r == Lookup(old(pending), id)
    {
      var i := Position(id);
      AtPosition(pending, id, i);
      RemovedAt(pending, id, i);
      if i < |pending| {
        r := Some(pending[i]);
        pending := pending[..i] + pending[i + 1..];
      } else {
        r := None;
      }
    }
  }

  ghost predicate FirstAt(q: seq<Hold>, id: string, i: nat)
  {
    && i <= |q| && (forall j | 0 <= j < i :: q[j].requestId != id)
    && (i < |q| ==> q[i].requestId == id)
  }

  lemma {:induction false} AtPosition(q: seq<Hold>, id: string, i: nat)
    requires FirstAt(q, id, i)
    ensures Lookup(q, id) == if i < |q| then Some(q[i]) else None
  {
    if i > 0 {
      AtPosition(q[1..], id, i - 1);
    }
  }

  lemma {:induction false} EnqueuedAt(q: seq<Hold>, p: Hold, i: nat)
    requires FirstAt(q, p.requestId, i)
    ensures Enqueued(q, p) == if i < |q| then q[i := p] else q + [p]
  {
    if i > 0 {
      EnqueuedAt(q[1..], p, i - 1);
      assert q == [q[0]] + q[1..];
    } else if q != [] {
      assert q[0 := p] == [p] + q[1..];
    }
  }

  lemma {:induction false} RemovedAt(q: seq<Hold>, id: string, i: nat)
    requires FirstAt(q, id, i)
    ensures Removed(q, id) == if i < |q| then q[..i] + q[i + 1..] else q
  {
    if i > 0 {
      RemovedAt(q[1..], id, i - 1);
      assert q == [q[0]] + q[1..];
      if i < |q| {
        assert q[1..][..i - 1] == q[1..i] && q[1..][i..] == q[i + 1..];
      }
    }
  }

  // ---------------------------------------------------------------------------
  // Believing a decision
  // ---------------------------------------------------------------------------

  datatype Signature = Signature(keyId: string, bytes: string)

  datatype Decision = Decision(requestId: string, decision: string, nonce: Option<string>,
                               expiresAt: Option<string>, signature: Option<Signature>)

  /** Signature verification: whether this key's material signed this decision. */
  type Verifier = (string, Decision) -> bool

  /** What a decision is checked against. */
  datatype Anchors = Anchors(localUser: string, approvers: set<string>, keys: map<string, string>,
                             trusted: set<string>, now: int)

  datatype Reason = UntrustedSender | MissingSignature | UnresolvedKey | UntrustedKey | InvalidSignature
                  | MissingReplayMaterial | MalformedExpiry | DecisionExpired

  function VerificationFailure(d: Decision, sender: string, ctx: Anchors, verify: Verifier): Option<Reason>
  {
    if sender == "" || (sender != ctx.localUser && sender !in ctx.approvers) then Some(UntrustedSender)
    else if d.signature.None? then Some(MissingSignature)
    else
      var keyId := d.signature.value.keyId;
      if keyId !in ctx.keys then Some(UnresolvedKey)
      else if keyId !in ctx.trusted then Some(UntrustedKey)
      else if !verify(ctx.keys[keyId], d) then Some(InvalidSignature)
      else if d.nonce.None? || d.expiresAt.None? then Some(MissingReplayMaterial)
      else
        match ParseRfc3339(d.expiresAt.value)
        case None => Some(MalformedExpiry)
        case Some(expiry) => if expiry <= ctx.now then Some(DecisionExpired) else None
  }

  predicate Verified(d: Decision, sender: string, ctx: Anchors, verify: Verifier)
  {
    VerificationFailure(d, sender, ctx, verify) == None
  }

  predicate PermitsSpawn(d: Decision) { d.decision == DECISION_APPROVED }

  /** `b` trusts whatever `a` trusts, at a moment no later. */
  ghost predicate NoStricter(b: Anchors, a: Anchors)
  {
    && b.localUser == a.localUser && a.approvers <= b.approvers && a.trusted <= b.trusted
    && (forall k | k in a.keys :: k in b.keys && b.keys[k] == a.keys[k])
    && b.now <= a.now
  }

  /** The decision is signed with a key that is both published and locally trusted. */
  ghost predicate SignedByTrusted(d: Decision, ctx: Anchors, verify: Verifier)
  {
    && d.signature.Some? && d.signature.value.keyId in ctx.keys && d.signature.value.keyId in ctx.trusted
    && verify(ctx.keys[d.signature.value.keyId], d)
  }

  /** The decision carries a nonce and a deadline that can be read and lies ahead. */
  ghost predicate StillOpen(d: Decision, now: int)
  {
    && d.nonce.Some? && d.expiresAt.Some? && ParseRfc3339(d.expiresAt.value).Some?
    && now < ParseRfc3339(d.expiresAt.value).value
  }

  /**
    A decision passes exactly when its sender may approve, its key is both published and
    locally trusted and did sign it, and its deadline can be read and lies ahead; so taking
    away approvers, keys or trust, or letting time pass, can only make it fail.
   */
  lemma VerificationIsMonotone(d: Decision, sender: string, a: Anchors, b: Anchors, verify: Verifier)
    requires NoStricter(b, a)
    ensures Verified(d, sender, a, verify) <==>
      && sender != "" && (sender == a.localUser || sender in a.approvers)
      && SignedByTrusted(d, a, verify) && StillOpen(d, a.now)
    ensures Verified(d, sender, a, verify) ==> Verified(d, sender, b, verify)
  {
    hide ParseRfc3339;
  }

  /** A decision stamped when it is made is believed on the expiry axis for exactly its lifetime. */
  lemma DecisionLifetime(d: Decision, made: nat, sender: string, ctx: Anchors, verify: Verifier)
    requires d.expiresAt == Some(RequestExpiry(made, APPROVAL_REQUEST_TTL))
    requires Verified(d, sender, ctx.(now := made), verify)
    ensures Verified(d, sender, ctx, verify) <==> ctx.now < made + 3600
  {
    hide ParseRfc3339, RequestExpiry;
    ExpiryIsHonoured(made, APPROVAL_REQUEST_TTL, ctx.now);
  }

  // ---------------------------------------------------------------------------
  // Scanning a room's decisions, newest first
  // ---------------------------------------------------------------------------

  datatype TimelineEvent = TimelineEvent(isDecision: bool, sender: Option<string>, content: Option<Decision>)

  /** The event carries a decision that is believed. */
  predicate Counts(e: TimelineEvent, ctx: Anchors, verify: Verifier)
  {
    && e.isDecision && e.content.Some?
    && Verified(e.content.value, if e.sender.Some? then e.sender.value else "", ctx, verify)
  }

  /** The newest believed decision about `id` in a newest-first chunk. */
  ghost function Newest(chunk: seq<TimelineEvent>, id: string, ctx: Anchors, verify: Verifier): Option<Decision>
  {
    if chunk == [] then None
    else if Counts(chunk[0], ctx, verify) && chunk[0].content.value.requestId == id then chunk[0].content
    else Newest(chunk[1..], id, ctx, verify)
  }

  /** The decisions found in `m`, falling back on those of `older`. */
  ghost function Else(m: map<string, Decision>, id: string, older: Option<Decision>): Option<Decision>
  {
    if id in m then Some(m[id]) else older
  }

  method ReadVerifiedDecisions(chunk: seq<TimelineEvent>, ctx: Anchors, verify: Verifier)
    returns (decisions: map<string, Decision>)
    ensures forall id ::
      (if id in decisions then Some(decisions[id]) else None) == Newest(chunk, id, ctx, verify)
  {
    hide VerificationFailure;
    decisions := map[];
    for i := 0 to |chunk|
      invariant forall id :: Else(decisions, id, Newest(chunk[i..], id, ctx, verify)) == Newest(chunk, id, ctx, verify)
    {
      var e := chunk[i];
      assert chunk[i..][0] == e && chunk[i..][1..] == chunk[i + 1..];
      ghost var before := decisions;
      if e.isDecision && e.content.Some? {
        var sender := if e.sender.Some? then e.sender.value else "";
        var d := e.content.value;
        if VerificationFailure(d, sender, ctx, verify) == None {
          if d.requestId !in decisions {
            decisions := decisions[d.requestId := d];
          }
        }
      }
      forall id
        ensures Else(decisions, id, Newest(chunk[i + 1..], id, ctx, verify)) ==
                Else(before, id, Newest(chunk[i..], id, ctx, verify))
      {
      }
    }
    assert chunk[|chunk|..] == [];
  }

  /** The believed events of a chunk, in order. */
  ghost function Believed(chunk: seq<TimelineEvent>, ctx: Anchors, verify: Verifier): seq<TimelineEvent>
  {
    if chunk == [] then []
    else if Counts(chunk[0], ctx, verify) then [chunk[0]] + Believed(chunk[1..], ctx, verify)
    else Believed(chunk[1..], ctx, verify)
  }

  /**
    Only believed events matter: two chunks with the same believed events, whatever forged,
    malformed or foreign events are mixed into them and wherever, yield the same decisions.
   */
  lemma {:induction false} NoiseIsIgnored(a: seq<TimelineEvent>, b: seq<TimelineEvent>, id: string, ctx: Anchors,
                                          verify: Verifier)
    requires Believed(a, ctx, verify) == Believed(b, ctx, verify)
    ensures Newest(a, id, ctx, verify) == Newest(b, id, ctx, verify)
    decreases |a| + |b|
  {
    hide VerificationFailure;
    if a != [] && !Counts(a[0], ctx, verify) {
      NoiseIsIgnored(a[1..], b, id, ctx, verify);
    } else if b != [] && !Counts(b[0], ctx, verify) {
      NoiseIsIgnored(a, b[1..], id, ctx, verify);
    } else if a != [] && b != [] {
      assert Believed(a, ctx, verify)[1..] == Believed(a[1..], ctx, verify);
      assert Believed(b, ctx, verify)[1..] == Believed(b[1..], ctx, verify);
      assert a[0] == Believed(a, ctx, verify)[0] && b[0] == Believed(b, ctx, verify)[0];
      NoiseIsIgnored(a[1..], b[1..], id, ctx, verify);
    }
  }

  /** The decision returned stands in the chunk, is believed, and nothing newer about the id is. */
  lemma {:induction false} NewestIsNewest(chunk: seq<TimelineEvent>, id: string, ctx: Anchors, verify: Verifier)
    ensures Newest(chunk, id, ctx, verify) == None <==>
      forall e | e in chunk && Counts(e, ctx, verify) :: e.content.value.requestId != id
    ensures Newest(chunk, id, ctx, verify).Some? ==> exists i ::
      && 0 <= i < |chunk| && Counts(chunk[i], ctx, verify)
      && chunk[i].content == Newest(chunk, id, ctx, verify) && chunk[i].content.value.requestId == id
      && forall j | 0 <= j < i && Counts(chunk[j], ctx, verify) :: chunk[j].content.value.requestId != id
  {
    hide VerificationFailure;
    if chunk != [] {
      assert chunk == [chunk[0]] + chunk[1..];
      if Counts(chunk[0], ctx, verify) && chunk[0].content.value.requestId == id {
        assert chunk[0] in chunk;
      } else {
        NewestIsNewest(chunk[1..], id, ctx, verify);
        if Newest(chunk, id, ctx, verify).Some? {
          var i :| 0 <= i < |chunk| - 1 && Counts(chunk[1..][i], ctx, verify)
            && chunk[1..][i].content == Newest(chunk[1..], id, ctx, verify)
            && chunk[1..][i].content.value.requestId == id
            && forall j | 0 <= j < i && Counts(chunk[1..][j], ctx, verify) ::
              chunk[1..][j].content.value.requestId != id;
          assert chunk[i + 1] == chunk[1..][i];
          forall j | 0 <= j < i + 1 && Counts(chunk[j], ctx, verify)
            ensures chunk[j].content.value.requestId != id
          {
            assert j > 0 ==> chunk[j] == chunk[1..][j - 1];
          }
        }
      }
    }
  }
}
