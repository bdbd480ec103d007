/**
  The closed-form law of one stream's reorder buffer.

  A stream's past is a sequence of events: chunk arrivals and flushes. Everything the
  buffer does is determined by that past and by the window, and this module says how,
  without any loop or buffer: which numbers have been received, which have been given
  up for lost, where the boundary of released output lies, and what lies on each side.
  The classes StreamReorder and ReorderBuffer are proved to keep exactly this account.
 */
module ReorderLaw {
  import opened Basics

  datatype StreamKind = Stdout | Stderr | Pty | Stdin | Control

  datatype Chunk = Chunk(stream: StreamKind, num: nat, encoding: string, data: string, sha256: Option<string>,
                         eof: bool)

  datatype Event = Arrive(chunk: Chunk) | Flush

  // ---------------------------------------------------------------------------
  // What has arrived
  // ---------------------------------------------------------------------------

  ghost function Init(h: seq<Event>): (r: seq<Event>)
    requires h != []
  {
    h[..|h| - 1]
  }

  ghost function Last(h: seq<Event>): Event
    requires h != []
  {
    h[|h| - 1]
  }

  ghost function Received(h: seq<Event>): set<nat>
  {
    if h == [] then {}
    else if Last(h).Arrive? then Received(Init(h)) + {Last(h).chunk.num}
    else Received(Init(h))
  }

  /** The first-arrived copy of number `n`. */
  ghost function First(h: seq<Event>, n: nat): Chunk
    requires n in Received(h)
  {
    if n in Received(Init(h)) then First(Init(h), n) else Last(h).chunk
  }

  /** The received numbers that have overtaken `n`. */
  ghost function Above(h: seq<Event>, n: nat): set<nat>
  {
    set x | x in Received(h) && n < x
  }

  // ---------------------------------------------------------------------------
  // What has been lost, and where the boundary lies
  // ---------------------------------------------------------------------------

  /** How many overtaking chunks the last event tolerates. */
  ghost function Limit(h: seq<Event>, w: nat): nat
    requires h != []
  {
    if Last(h).Flush? then 0 else w
  }

  /** The last event of `h` is one at which `n` is missing and overtaken too often. */
  ghost predicate GivenUp(h: seq<Event>, w: nat, n: nat)
  {
    h != [] && n !in Received(h) && |Above(h, n)| > Limit(h, w)
  }

  /** At some moment of the past, `n` was given up. */
  ghost predicate Lost(h: seq<Event>, w: nat, n: nat)
  {
    h != [] && (Lost(Init(h), w, n) || GivenUp(h, w, n))
  }

  ghost predicate Settled(h: seq<Event>, w: nat, n: nat)
  {
    n in Received(h) || Lost(h, w, n)
  }

  ghost predicate SettledBelow(h: seq<Event>, w: nat, p: nat)
  {
    forall n: nat | n < p :: Settled(h, w, n)
  }

  ghost predicate IsFrontier(h: seq<Event>, w: nat, f: nat)
  {
    SettledBelow(h, w, f) && !Settled(h, w, f)
  }

  /** The lowest number neither received nor lost. */
  ghost function Frontier(h: seq<Event>, w: nat): (f: nat)
    ensures IsFrontier(h, w, f)
  {
    FrontierExists(h, w);
    var f: nat :| IsFrontier(h, w, f);
    f
  }

  /** The numbers below `p` that were lost, ascending. */
  ghost function LostBelow(h: seq<Event>, w: nat, p: nat): seq<nat>
  {
    if p == 0 then []
    else if Lost(h, w, p - 1) then LostBelow(h, w, p - 1) + [p - 1]
    else LostBelow(h, w, p - 1)
  }

  /** The first copies of the numbers below `p` that arrived before being lost, ascending. */
  ghost function KeptBelow(h: seq<Event>, w: nat, p: nat): seq<Chunk>
  {
    if p == 0 then []
    else if p - 1 in Received(h) && !Lost(h, w, p - 1) then KeptBelow(h, w, p - 1) + [First(h, p - 1)]
    else KeptBelow(h, w, p - 1)
  }

  ghost function LostNumbers(h: seq<Event>, w: nat): seq<nat> { LostBelow(h, w, Frontier(h, w)) }

  ghost function Released(h: seq<Event>, w: nat): seq<Chunk> { KeptBelow(h, w, Frontier(h, w)) }

  /** The received chunks not below `p`, keyed by number. */
  ghost function Pending(h: seq<Event>, p: nat): map<nat, Chunk>
  {
    map n | n in Received(h) && p <= n :: First(h, n)
  }

  // ---------------------------------------------------------------------------
  // The boundary exists and is unique
  // ---------------------------------------------------------------------------

  ghost function Top(h: seq<Event>): nat
  {
    if h == [] then 0
    else if Last(h).Arrive? && Last(h).chunk.num >= Top(Init(h)) then Last(h).chunk.num + 1
    else Top(Init(h))
  }

  lemma {:induction false} TopBounds(h: seq<Event>, w: nat, n: nat)
    ensures n in Received(h) ==> n < Top(h)
    ensures Lost(h, w, n) ==> n < Top(h)
    ensures 0 < Top(h) ==> Top(h) - 1 in Received(h)
  {
    if h != [] {
      TopBounds(Init(h), w, n);
      if GivenUp(h, w, n) {
        assert Above(h, n) != {};
        var x :| x in Above(h, n);
        TopBounds(Init(h), w, x);
      }
    }
  }

  lemma FrontierExists(h: seq<Event>, w: nat)
    ensures exists f: nat :: IsFrontier(h, w, f)
  {
    var f: nat := 0;
    while Settled(h, w, f)
      invariant SettledBelow(h, w, f)
      invariant f <= Top(h)
      decreases Top(h) - f
    {
      TopBounds(h, w, f);
      f := f + 1;
    }
    assert IsFrontier(h, w, f);
  }

  lemma FrontierUnique(h: seq<Event>, w: nat, f: nat)
    requires IsFrontier(h, w, f)
    ensures f == Frontier(h, w)
  {
  }

  // ---------------------------------------------------------------------------
  // How one more event changes the account
  // ---------------------------------------------------------------------------

  lemma AboveShrinks(h: seq<Event>, m: nat, n: nat)
    requires m <= n
    ensures |Above(h, n)| <= |Above(h, m)|
  {
    SubsetSize(Above(h, n), Above(h, m));
  }

  /** No number at or above the boundary has ever been lost. */
  lemma {:induction false} LossStaysBelow(h: seq<Event>, w: nat, f: nat, n: nat)
    requires IsFrontier(h, w, f)
    requires f <= n
    ensures !Lost(h, w, n)
  {
    if h != [] {
      AboveShrinks(h, f, n);
      assert !GivenUp(h, w, f) && !Settled(Init(h), w, f);
      LossStaysBelow(Init(h), w, Frontier(Init(h), w), n);
    }
  }

  lemma Extend(h: seq<Event>, e: Event)
    ensures Init(h + [e]) == h && Last(h + [e]) == e
  {
  }

  /** Below the old boundary nothing about a number's fate changes any more. */
  lemma {:induction false} FateIsFinal(h: seq<Event>, w: nat, e: Event, p: nat)
    requires SettledBelow(h, w, p)
    ensures SettledBelow(h + [e], w, p)
    ensures LostBelow(h + [e], w, p) == LostBelow(h, w, p)
    ensures KeptBelow(h + [e], w, p) == KeptBelow(h, w, p)
  {
    Extend(h, e);
    if p > 0 {
      FateIsFinal(h, w, e, p - 1);
      assert Settled(h, w, p - 1);
    }
  }

  lemma FrontierAdvances(h: seq<Event>, w: nat, e: Event)
    ensures Frontier(h, w) <= Frontier(h + [e], w)
  {
    Extend(h, e);
    assert !Settled(h, w, Frontier(h + [e], w));
  }

  /** The chunks that event `e`, coming after `h`, makes ready on its stream. */
  ghost function NewlyReleased(h: seq<Event>, w: nat, e: Event): seq<Chunk>
  {
    ReleasedGrows(h, w, e);
    Released(h + [e], w)[|Released(h, w)|..]
  }

  /** The numbers that event `e`, coming after `h`, gives up on its stream. */
  ghost function NewlyLost(h: seq<Event>, w: nat, e: Event): seq<nat>
  {
    ReleasedGrows(h, w, e);
    LostNumbers(h + [e], w)[|LostNumbers(h, w)|..]
  }

  lemma NewlyExtends(h: seq<Event>, w: nat, e: Event)
    ensures Released(h + [e], w) == Released(h, w) + NewlyReleased(h, w, e)
    ensures LostNumbers(h + [e], w) == LostNumbers(h, w) + NewlyLost(h, w, e)
  {
    ReleasedGrows(h, w, e);
  }

  lemma ReleasedGrows(h: seq<Event>, w: nat, e: Event)
    ensures Released(h, w) <= Released(h + [e], w)
    ensures LostNumbers(h, w) <= LostNumbers(h + [e], w)
  {
    var f := Frontier(h, w);
    FateIsFinal(h, w, e, f);
    FrontierAdvances(h, w, e);
    BelowGrows(h + [e], w, f, Frontier(h + [e], w));
  }

  lemma {:induction false} BelowGrows(h: seq<Event>, w: nat, p: nat, q: nat)
    requires p <= q
    ensures KeptBelow(h, w, p) <= KeptBelow(h, w, q)
    ensures LostBelow(h, w, p) <= LostBelow(h, w, q)
  {
    if p < q {
      BelowGrows(h, w, p, q - 1);
    }
  }

  // ---------------------------------------------------------------------------
  // Moving the boundary one number at a time
  // ---------------------------------------------------------------------------

  /**
    Mid-way through handling the last event of `h`: everything below `p` is settled,
    nothing received from there on has been lost, and `ahead` holds exactly that.
   */
  ghost predicate Moving(h: seq<Event>, w: nat, p: nat, ahead: map<nat, Chunk>)
  {
    && SettledBelow(h, w, p)
    && ahead == Pending(h, p)
    && (forall n | n in Received(h) && p <= n :: !Lost(h, w, n))
  }

  /**
    The boundary has moved from `f` to `p`, handing over `ready` and giving up `missing`
    on the way.
   */
  ghost predicate Moved(h: seq<Event>, w: nat, f: nat, p: nat, ahead: map<nat, Chunk>,
                        ready: seq<Chunk>, missing: seq<nat>)
  {
    && f <= p
    && Moving(h, w, p, ahead)
    && KeptBelow(h, w, p) == KeptBelow(h, w, f) + ready
    && LostBelow(h, w, p) == LostBelow(h, w, f) + missing
  }

  lemma PendingShrinks(h: seq<Event>, p: nat)
    ensures Pending(h, p + 1) == Pending(h, p) - {p}
  {
  }

  lemma PassKept(h: seq<Event>, w: nat, f: nat, p: nat, ahead: map<nat, Chunk>,
                 ready: seq<Chunk>, missing: seq<nat>)
    requires Moved(h, w, f, p, ahead, ready, missing) && p in ahead
    ensures Moved(h, w, f, p + 1, ahead - {p}, ready + [ahead[p]], missing)
    ensures |ahead - {p}| == |ahead| - 1
  {
    assert p in Received(h) && Settled(h, w, p);
    PendingShrinks(h, p);
    RemoveKey(ahead, p);
  }

  lemma PassGap(h: seq<Event>, w: nat, f: nat, p: nat, ahead: map<nat, Chunk>,
                ready: seq<Chunk>, missing: seq<nat>)
    requires h != [] && Moved(h, w, f, p, ahead, ready, missing)
    requires p !in ahead && |ahead| > Limit(h, w)
    ensures Moved(h, w, f, p + 1, ahead, ready, missing + [p])
  {
    assert p !in Received(h);
    assert Above(h, p) == ahead.Keys;
    assert GivenUp(h, w, p) && Settled(h, w, p);
    assert ahead == Pending(h, p + 1);
  }

  /** Event `e` leaves every fate below the boundary alone and loses nothing received. */
  lemma FatesCarryOver(h: seq<Event>, w: nat, e: Event)
    ensures SettledBelow(h + [e], w, Frontier(h, w))
    ensures forall n | n in Received(h + [e]) && Frontier(h, w) <= n :: !Lost(h + [e], w, n)
  {
    var f := Frontier(h, w);
    Extend(h, e);
    FateIsFinal(h, w, e, f);
    forall n | n in Received(h + [e]) && f <= n
      ensures !Lost(h + [e], w, n)
    {
      LossStaysBelow(h, w, f, n);
    }
  }

  /** Handling an event that brings nothing new starts at the old boundary. */
  lemma StartsStale(h: seq<Event>, w: nat, e: Event, ahead: map<nat, Chunk>)
    requires ahead == Pending(h, Frontier(h, w))
    requires e.Flush? || e.chunk.num < Frontier(h, w) || e.chunk.num in ahead
    ensures Moved(h + [e], w, Frontier(h, w), Frontier(h, w), ahead, [], [])
    ensures Frontier(h, w) !in ahead
  {
    Extend(h, e);
    FatesCarryOver(h, w, e);
    assert Pending(h + [e], Frontier(h, w)) == ahead;
  }

  /** Handling a new chunk starts with that chunk among the waiting ones. */
  lemma StartsFresh(h: seq<Event>, w: nat, c: Chunk, ahead: map<nat, Chunk>)
    requires ahead == Pending(h, Frontier(h, w))
    requires Frontier(h, w) <= c.num && c.num !in ahead
    ensures Moved(h + [Arrive(c)], w, Frontier(h, w), Frontier(h, w), ahead[c.num := c], [], [])
    ensures Frontier(h, w) !in ahead
  {
    Extend(h, Arrive(c));
    FatesCarryOver(h, w, Arrive(c));
    assert Pending(h + [Arrive(c)], Frontier(h, w)) == ahead[c.num := c];
  }

  /** A chunk that fills the boundary is handed over at once. */
  lemma StartsFilling(h: seq<Event>, w: nat, c: Chunk, ahead: map<nat, Chunk>)
    requires ahead == Pending(h, Frontier(h, w)) && Frontier(h, w) == c.num
    ensures Moved(h + [Arrive(c)], w, c.num, c.num + 1, ahead, [c], [])
  {
    assert c.num !in ahead;
    StartsFresh(h, w, c, ahead);
    PassKept(h + [Arrive(c)], w, c.num, c.num, ahead[c.num := c], [], []);
    assert ahead[c.num := c] - {c.num} == ahead;
  }

  /** The boundary rests where too few chunks wait to force it on. */
  lemma Rests(h: seq<Event>, w: nat, e: Event, p: nat, ahead: map<nat, Chunk>,
              ready: seq<Chunk>, missing: seq<nat>)
    requires Moved(h + [e], w, Frontier(h, w), p, ahead, ready, missing)
    requires p !in ahead && |ahead| <= Limit(h + [e], w)
    ensures p == Frontier(h + [e], w) && ahead == Pending(h + [e], p)
    ensures ready == NewlyReleased(h, w, e) && missing == NewlyLost(h, w, e)
  {
    var f := Frontier(h, w);
    Extend(h, e);
    FateIsFinal(h, w, e, f);
    LossStaysBelow(h, w, f, p);
    assert p !in Received(h + [e]);
    assert Above(h + [e], p) == ahead.Keys;
    assert !Settled(h + [e], w, p);
    FrontierUnique(h + [e], w, p);
  }

  /** A past without chunks leaves the boundary at zero. */
  lemma NothingYet(h: seq<Event>, w: nat)
    requires Received(h) == {}
    ensures Frontier(h, w) == 0 && Pending(h, 0) == map[]
  {
    TopBounds(h, w, 0);
    FrontierUnique(h, w, 0);
  }
}
