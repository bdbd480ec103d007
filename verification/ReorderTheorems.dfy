/**
  What the account of ReorderLaw promises: exactly which numbers are lost, that released
  and lost numbers partition everything below the boundary, that repeats are harmless,
  and that without loss the order of arrival does not matter.
 */
module ReorderTheorems {
  import opened Basics
  import opened ReorderLaw

  ghost predicate OnlyArrivals(h: seq<Event>)
  {
    forall e | e in h :: e.Arrive?
  }

  /** The past up to, and not including, the first arrival of `n`. */
  ghost function Before(h: seq<Event>, n: nat): (r: seq<Event>)
    ensures n !in Received(r) && r <= h
  {
    if n !in Received(h) then h
    else if n in Received(Init(h)) then Before(Init(h), n)
    else Init(h)
  }

  // ---------------------------------------------------------------------------
  // The exact loss law
  // ---------------------------------------------------------------------------

  /**
    While chunks are being accepted, `n` is declared lost exactly when more than `w`
    distinct higher numbers arrived before the first arrival of `n` (or ever, if `n`
    never arrives).
   */
  lemma {:induction false} LossLaw(h: seq<Event>, w: nat, n: nat)
    requires OnlyArrivals(h)
    ensures Lost(h, w, n) <==> |Above(Before(h, n), n)| > w
  {
    if h != [] {
      LossLaw(Init(h), w, n);
      if n !in Received(h) {
        assert Last(h) in h;
        assert Above(Init(h), n) <= Above(h, n);
        SubsetSize(Above(Init(h), n), Above(h, n));
      }
    } else {
      assert Above(h, n) == {};
    }
  }

  /** Nothing is lost exactly when every number is overtaken by at most `w` higher ones. */
  lemma NothingLostIffOvertakenAtMostWindow(h: seq<Event>, w: nat)
    requires OnlyArrivals(h)
    ensures LostNumbers(h, w) == [] <==> forall n: nat :: |Above(Before(h, n), n)| <= w
  {
    var f := Frontier(h, w);
    forall n: nat
      ensures n in LostNumbers(h, w) <==> |Above(Before(h, n), n)| > w
    {
      LossLaw(h, w, n);
      InLostBelow(h, w, f, n);
      if f <= n {
        LossStaysBelow(h, w, f, n);
      }
    }
    if LostNumbers(h, w) != [] {
      var n := LostNumbers(h, w)[0];
      assert n in LostNumbers(h, w) && |Above(Before(h, n), n)| > w;
    }
  }

  /** What was lost at some moment stays lost, even if it arrives later. */
  lemma {:induction false} LossIsForGood(h: seq<Event>, w: nat, k: nat, n: nat)
    requires k <= |h| && Lost(h[..k], w, n)
    ensures Lost(h, w, n)
  {
    if k == |h| {
      assert h[..k] == h;
    } else {
      assert Init(h)[..k] == h[..k];
      LossIsForGood(Init(h), w, k, n);
    }
  }

  // ---------------------------------------------------------------------------
  // Accounting
  // ---------------------------------------------------------------------------

  lemma {:induction false} InLostBelow(h: seq<Event>, w: nat, p: nat, n: nat)
    ensures n in LostBelow(h, w, p) <==> n < p && Lost(h, w, n)
  {
    if p > 0 {
      InLostBelow(h, w, p - 1, n);
    }
  }

  lemma {:induction false} InKeptBelow(h: seq<Event>, w: nat, p: nat, c: Chunk)
    ensures c in KeptBelow(h, w, p) <==>
      c.num < p && c.num in Received(h) && !Lost(h, w, c.num) && c == First(h, c.num)
  {
    if p > 0 {
      FirstNum(h, p - 1);
      InKeptBelow(h, w, p - 1, c);
    }
  }

  lemma {:induction false} FirstNum(h: seq<Event>, n: nat)
    ensures n in Received(h) ==> First(h, n).num == n && Arrive(First(h, n)) in h
  {
    if h != [] {
      FirstNum(Init(h), n);
      assert forall e | e in Init(h) :: e in h;
    }
  }

  ghost predicate Ascending(s: seq<nat>)
  {
    forall i, j | 0 <= i < j < |s| :: s[i] < s[j]
  }

  ghost function Numbers(s: seq<Chunk>): (r: seq<nat>)
    ensures |r| == |s| && forall i | 0 <= i < |s| :: r[i] == s[i].num
  {
    seq(|s|, i requires 0 <= i < |s| => s[i].num)
  }

  lemma AscendingAppend(s: seq<nat>, x: nat)
    requires Ascending(s) && forall y | y in s :: y < x
    ensures Ascending(s + [x])
  {
    forall i | 0 <= i < |s|
      ensures s[i] < x
    {
      assert s[i] in s;
    }
  }

  lemma {:induction false} LostAscends(h: seq<Event>, w: nat, p: nat)
    ensures Ascending(LostBelow(h, w, p))
  {
    if p > 0 {
      LostAscends(h, w, p - 1);
      var lost := LostBelow(h, w, p - 1);
      forall n | n in lost
        ensures n < p - 1
      {
        InLostBelow(h, w, p - 1, n);
      }
      AscendingAppend(lost, p - 1);
    }
  }

  lemma {:induction false} KeptAscends(h: seq<Event>, w: nat, p: nat)
    ensures Ascending(Numbers(KeptBelow(h, w, p)))
  {
    if p > 0 {
      KeptAscends(h, w, p - 1);
      FirstNum(h, p - 1);
      var kept := KeptBelow(h, w, p - 1);
      forall c | c in kept
        ensures c.num < p - 1
      {
        InKeptBelow(h, w, p - 1, c);
      }
      assert forall n | n in Numbers(kept) :: n < p - 1;
      AscendingAppend(Numbers(kept), p - 1);
      if p - 1 in Received(h) && !Lost(h, w, p - 1) {
        assert Numbers(kept + [First(h, p - 1)]) == Numbers(kept) + [p - 1];
      }
    }
  }

  lemma {:induction false} BelowCounts(h: seq<Event>, w: nat, p: nat)
    requires SettledBelow(h, w, p)
    ensures |LostBelow(h, w, p)| + |KeptBelow(h, w, p)| == p
  {
    if p > 0 {
      BelowCounts(h, w, p - 1);
      assert Settled(h, w, p - 1);
    }
  }

  /**
    After any past, released and lost numbers each ascend strictly, together are exactly
    the numbers below the boundary, and share none; a released chunk is the first copy
    of its number.
   */
  lemma Accounting(h: seq<Event>, w: nat)
    ensures Ascending(LostNumbers(h, w)) && Ascending(Numbers(Released(h, w)))
    ensures |LostNumbers(h, w)| + |Released(h, w)| == Frontier(h, w)
    ensures forall n: nat :: n < Frontier(h, w) <==> n in LostNumbers(h, w) || n in Numbers(Released(h, w))
    ensures forall n: nat :: !(n in LostNumbers(h, w) && n in Numbers(Released(h, w)))
    ensures forall c | c in Released(h, w) :: c.num in Received(h) && c == First(h, c.num)
  {
    LostAscends(h, w, Frontier(h, w));
    KeptAscends(h, w, Frontier(h, w));
    BelowCounts(h, w, Frontier(h, w));
    forall n: nat
      ensures n in LostNumbers(h, w) <==> n < Frontier(h, w) && Lost(h, w, n)
      ensures n in Numbers(Released(h, w)) <==> n < Frontier(h, w) && !Lost(h, w, n)
    {
      InLostBelow(h, w, Frontier(h, w), n);
      ReleasedNumber(h, w, n);
    }
    forall c | c in Released(h, w)
      ensures c.num in Received(h) && c == First(h, c.num)
    {
      InKeptBelow(h, w, Frontier(h, w), c);
    }
  }

  /** What waits lies strictly above the boundary, and at most `w` chunks wait. */
  lemma WaitingIsBounded(h: seq<Event>, w: nat)
    ensures forall n | n in Pending(h, Frontier(h, w)) :: Frontier(h, w) < n
    ensures |Pending(h, Frontier(h, w))| <= w
  {
    var f := Frontier(h, w);
    assert !Settled(h, w, f);
    assert Above(h, f) == Pending(h, f).Keys;
  }

  lemma ReleasedNumber(h: seq<Event>, w: nat, n: nat)
    ensures n in Numbers(Released(h, w)) <==> n < Frontier(h, w) && !Lost(h, w, n)
  {
    var f := Frontier(h, w);
    var r := Released(h, w);
    if n < f && !Lost(h, w, n) {
      assert Settled(h, w, n);
      FirstNum(h, n);
      InKeptBelow(h, w, f, First(h, n));
      var i :| 0 <= i < |r| && r[i] == First(h, n);
      assert Numbers(r)[i] == n;
    }
    if n in Numbers(r) {
      var i :| 0 <= i < |r| && Numbers(r)[i] == n;
      InKeptBelow(h, w, f, r[i]);
    }
  }

  /** A repeat of any received number changes nothing at all. */
  lemma RepeatChangesNothing(h: seq<Event>, w: nat, c: Chunk)
    requires c.num in Received(h) || c.num < Frontier(h, w)
    ensures Frontier(h + [Arrive(c)], w) == Frontier(h, w)
    ensures Released(h + [Arrive(c)], w) == Released(h, w)
    ensures LostNumbers(h + [Arrive(c)], w) == LostNumbers(h, w)
    ensures Pending(h + [Arrive(c)], Frontier(h, w)) == Pending(h, Frontier(h, w))
  {
    var f := Frontier(h, w);
    WaitingIsBounded(h, w);
    Extend(h, Arrive(c));
    StartsStale(h, w, Arrive(c), Pending(h, f));
    Rests(h, w, Arrive(c), f, Pending(h, f), [], []);
    NewlyExtends(h, w, Arrive(c));
  }

  // ---------------------------------------------------------------------------
  // Flush and order independence
  // ---------------------------------------------------------------------------

  /** The received chunks numbered below `p`, in order. */
  ghost function SortedBelow(h: seq<Event>, p: nat): seq<Chunk>
  {
    if p == 0 then []
    else if p - 1 in Received(h) then SortedBelow(h, p - 1) + [First(h, p - 1)]
    else SortedBelow(h, p - 1)
  }

  /** The numbers below `p` that never arrived, in order. */
  ghost function GapsBelow(h: seq<Event>, p: nat): seq<nat>
  {
    if p == 0 then []
    else if p - 1 in Received(h) then GapsBelow(h, p - 1)
    else GapsBelow(h, p - 1) + [p - 1]
  }

  /**
    After a flush, lost is what was lost while accepting and what is still missing below
    the highest number received. A number lost while accepting stays lost although it
    may have arrived since.
   */
  lemma FlushLossLaw(h: seq<Event>, w: nat, n: nat)
    ensures Lost(h + [Flush], w, n) <==> Lost(h, w, n) || (n < Top(h) && n !in Received(h))
  {
    var g := h + [Flush];
    Extend(h, Flush);
    TopBounds(h, w, n);
    if n < Top(h) && n !in Received(h) {
      assert Top(h) - 1 in Above(g, n);
    }
    if GivenUp(g, w, n) {
      var m :| m in Above(g, n);
      TopBounds(h, w, m);
    }
  }

  /** A flush moves the boundary just past the highest number received. */
  lemma FlushReachesTop(h: seq<Event>, w: nat)
    ensures Frontier(h + [Flush], w) == Top(h)
    ensures Pending(h + [Flush], Top(h)) == map[]
  {
    var g := h + [Flush];
    Extend(h, Flush);
    forall n: nat
      ensures n < Top(h) <==> Settled(g, w, n)
    {
      TopBounds(h, w, n);
      TopBounds(g, w, n);
      if n < Top(h) && n !in Received(h) {
        assert Top(h) - 1 in Above(g, n);
        assert GivenUp(g, w, n);
      }
    }
    FrontierUnique(g, w, Top(h));
    forall n | n in Received(h)
      ensures n < Top(h)
    {
      TopBounds(h, w, n);
    }
  }

  lemma {:induction false} BelowWithoutLoss(h: seq<Event>, w: nat, p: nat)
    requires LostNumbers(h, w) == [] && p <= Top(h)
    ensures KeptBelow(h + [Flush], w, p) == SortedBelow(h, p)
    ensures LostBelow(h + [Flush], w, p) == GapsBelow(h, p)
  {
    if p > 0 {
      BelowWithoutLoss(h, w, p - 1);
      var g := h + [Flush];
      Extend(h, Flush);
      NeverLost(h, w, p - 1);
      if p - 1 !in Received(h) {
        TopBounds(h, w, p - 1);
        assert Top(h) - 1 in Above(g, p - 1);
        assert GivenUp(g, w, p - 1);
      }
    }
  }

  lemma NeverLost(h: seq<Event>, w: nat, n: nat)
    requires LostNumbers(h, w) == []
    ensures !Lost(h, w, n)
  {
    var f := Frontier(h, w);
    if n < f {
      InLostBelow(h, w, f, n);
    } else {
      LossStaysBelow(h, w, f, n);
    }
  }

  /** Every copy of a number carries the same chunk in both pasts. */
  ghost predicate SameContent(h1: seq<Event>, h2: seq<Event>)
  {
    forall c1, c2 | Arrive(c1) in h1 && Arrive(c2) in h2 && c1.num == c2.num :: c1 == c2
  }

  lemma {:induction false} SortedAgrees(h1: seq<Event>, h2: seq<Event>, p: nat)
    requires Received(h1) == Received(h2) && SameContent(h1, h2)
    ensures SortedBelow(h1, p) == SortedBelow(h2, p)
    ensures GapsBelow(h1, p) == GapsBelow(h2, p)
  {
    if p > 0 {
      SortedAgrees(h1, h2, p - 1);
      FirstNum(h1, p - 1);
      FirstNum(h2, p - 1);
    }
  }

  lemma TopAgrees(h1: seq<Event>, h2: seq<Event>)
    requires Received(h1) == Received(h2)
    ensures Top(h1) == Top(h2)
  {
    TopBounds(h1, 0, if Top(h2) == 0 then 0 else Top(h2) - 1);
    TopBounds(h2, 0, if Top(h1) == 0 then 0 else Top(h1) - 1);
  }

  /**
    Two pasts that brought the same chunks, in whatever order, with whatever repeats and
    under whatever windows, and lost none while accepting, release after a flush the same
    chunks (those received, in order) and report the same losses (the numbers below the
    highest that never came).
   */
  lemma OrderIndependence(h1: seq<Event>, w1: nat, h2: seq<Event>, w2: nat)
    requires Received(h1) == Received(h2) && SameContent(h1, h2)
    requires LostNumbers(h1, w1) == [] && LostNumbers(h2, w2) == []
    ensures Released(h1 + [Flush], w1) == Released(h2 + [Flush], w2) == SortedBelow(h1, Top(h1))
    ensures LostNumbers(h1 + [Flush], w1) == LostNumbers(h2 + [Flush], w2) == GapsBelow(h1, Top(h1))
  {
    FlushReachesTop(h1, w1);
    FlushReachesTop(h2, w2);
    TopAgrees(h1, h2);
    BelowWithoutLoss(h1, w1, Top(h1));
    BelowWithoutLoss(h2, w2, Top(h2));
    SortedAgrees(h1, h2, Top(h1));
  }

  /** A stream that lost nothing, not even at its flush, was rendered whole: 0, 1, 2, ... */
  lemma {:induction false} WholeStream(h: seq<Event>, w: nat)
    requires LostNumbers(h + [Flush], w) == []
    ensures |Released(h + [Flush], w)| == Top(h)
    ensures forall i: nat | i < Top(h) ::
      i in Received(h) && Released(h + [Flush], w)[i] == First(h, i)
  {
    FlushReachesTop(h, w);
    var g := h + [Flush];
    Extend(h, Flush);
    Accounting(g, w);
    WholeBelow(g, w, Top(h));
    forall i: nat | i < Top(h)
      ensures i in Received(h) && Released(g, w)[i] == First(h, i)
    {
      NeverLost(g, w, i);
      assert Settled(g, w, i);
    }
  }

  lemma {:induction false} WholeBelow(h: seq<Event>, w: nat, p: nat)
    requires LostNumbers(h, w) == [] && p <= Frontier(h, w)
    ensures |KeptBelow(h, w, p)| == p
    ensures forall i: nat | i < p :: i in Received(h) && KeptBelow(h, w, p)[i] == First(h, i)
  {
    if p > 0 {
      WholeBelow(h, w, p - 1);
      NeverLost(h, w, p - 1);
      assert Settled(h, w, p - 1);
    }
  }
}
