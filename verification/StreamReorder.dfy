/**
  One stream's reorder state, updated in place, proved to keep the account of ReorderLaw.
 */
module StreamReorderBuffer {
  import opened ReorderLaw

  predicate IsLeast(m: nat, s: set<nat>)
  {
    m in s && forall k | k in s :: m <= k
  }

  lemma {:induction false} LeastExists(s: set<nat>)
    requires s != {}
    ensures exists m :: IsLeast(m, s)
  {
    var x :| x in s;
    var rest := s - {x};
    assert s == rest + {x};
    if rest == {} {
      assert IsLeast(x, s);
    } else {
      LeastExists(rest);
      var m :| IsLeast(m, rest);
      assert IsLeast(if x < m then x else m, s);
    }
  }

  class StreamReorder {
    /** The boundary: every number below it has been handed over or given up. */
    var nextExpected: nat
    /** Accepted chunks above the boundary, keyed by sequence number. */
    var ahead: map<nat, Chunk>
    /** Everything that ever happened to this stream. */
    ghost var history: seq<Event>
    /** The stream this state belongs to. */
    ghost const kind: StreamKind

    /** The state is the one the past demands, and no more than `w` chunks wait. */
    ghost predicate Valid(w: nat)
      reads this
    {
      && nextExpected == Frontier(history, w)
      && ahead == Pending(history, nextExpected)
      && |ahead| <= w
    }

    /** A stream that has seen no chunk yet; `past` can only hold flushes of nothing. */
    constructor (ghost k: StreamKind, ghost past: seq<Event>)
      requires Received(past) == {}
      ensures kind == k && history == past && forall w: nat :: Valid(w)
      ensures nextExpected == 0 && ahead == map[]
    {
      nextExpected, ahead, history, kind := 0, map[], past, k;
      new;
      forall w: nat
        ensures Valid(w)
      {
        NothingYet(past, w);
      }
    }

    /** Move the boundary on for as long as the chunk it waits for is at hand. */
    method DrainContiguous(ready0: seq<Chunk>, ghost missing: seq<nat>, ghost w: nat, ghost f: nat)
      returns (ready: seq<Chunk>)
      requires Moved(history, w, f, nextExpected, ahead, ready0, missing)
      modifies this`nextExpected, this`ahead
      ensures Moved(history, w, f, nextExpected, ahead, ready, missing)
      ensures nextExpected !in ahead
      ensures |ahead| <= old(|ahead|) && (old(nextExpected in ahead) ==> |ahead| < old(|ahead|))
    {
      hide Moved;
      ready := ready0;
      while nextExpected in ahead
        invariant Moved(history, w, f, nextExpected, ahead, ready, missing)
        invariant |ahead| < old(|ahead|) || (nextExpected == old(nextExpected) && ahead == old(ahead))
        decreases |ahead|
      {
        PassKept(history, w, f, nextExpected, ahead, ready, missing);
        ready := ready + [ahead[nextExpected]];
        ahead := ahead - {nextExpected};
        nextExpected := nextExpected + 1;
      }
    }

    /** Give up the gap between the boundary and the first chunk that waits. */
    method SkipGap(ghost ready: seq<Chunk>, missing0: seq<nat>, ghost w: nat, ghost f: nat)
      returns (missing: seq<nat>)
      requires Moved(history, w, f, nextExpected, ahead, ready, missing0)
      requires history != [] && |ahead| > Limit(history, w)
      modifies this`nextExpected
      ensures Moved(history, w, f, nextExpected, ahead, ready, missing)
      ensures nextExpected in ahead
    {
      LeastExists(ahead.Keys);
      var first :| IsLeast(first, ahead.Keys);
      missing := missing0;
      while nextExpected < first
        invariant nextExpected <= first
        invariant Moved(history, w, f, nextExpected, ahead, ready, missing)
      {
        PassGap(history, w, f, nextExpected, ahead, ready, missing);
        missing := missing + [nextExpected];
        nextExpected := nextExpected + 1;
      }
    }

    /** Accept `chunk`; return what may now be rendered and which numbers were given up. */
    method Push(chunk: Chunk, window: nat) returns (ready: seq<Chunk>, missing: seq<nat>)
      requires Valid(window)
      modifies this
      ensures Valid(window) && history == old(history) + [Arrive(chunk)]
      ensures ready == NewlyReleased(old(history), window, Arrive(chunk))
      ensures missing == NewlyLost(old(history), window, Arrive(chunk))
    {
      hide Moved;
      ghost var f := nextExpected;
      ready, missing := [], [];
      var num := chunk.num;
      if num < nextExpected || num in ahead {
        StartsStale(history, window, Arrive(chunk), ahead);
        history := history + [Arrive(chunk)];
        Rests(old(history), window, Arrive(chunk), f, ahead, ready, missing);
        return;
      }
      if num == nextExpected {
        StartsFilling(history, window, chunk, ahead);
        history := history + [Arrive(chunk)];
        ready := [chunk];
        nextExpected := nextExpected + 1;
        ready := DrainContiguous(ready, missing, window, f);
      } else {
        StartsFresh(history, window, chunk, ahead);
        history := history + [Arrive(chunk)];
        ahead := ahead[num := chunk];
      }
      while |ahead| > window
        invariant Moved(history, window, f, nextExpected, ahead, ready, missing)
        invariant history == old(history) + [Arrive(chunk)] && nextExpected !in ahead
        decreases |ahead|
      {
        missing := SkipGap(ready, missing, window, f);
        ready := DrainContiguous(ready, missing, window, f);
      }
      Rests(old(history), window, Arrive(chunk), nextExpected, ahead, ready, missing);
    }

    /** No more chunks will come: hand over whatever waits and give up what it waited for. */
    method FlushAll(ghost window: nat) returns (ready: seq<Chunk>, missing: seq<nat>)
      requires Valid(window)
      modifies this
      ensures Valid(window) && history == old(history) + [Flush] && ahead == map[]
      ensures ready == NewlyReleased(old(history), window, Flush)
      ensures missing == NewlyLost(old(history), window, Flush)
    {
      hide Moved;
      ghost var f := nextExpected;
      StartsStale(history, window, Flush, ahead);
      history := history + [Flush];
      ready, missing := [], [];
      while |ahead| > 0
        invariant Moved(history, window, f, nextExpected, ahead, ready, missing)
        invariant history == old(history) + [Flush] && nextExpected !in ahead
        decreases |ahead|
      {
        missing := SkipGap(ready, missing, window, f);
        ready := DrainContiguous(ready, missing, window, f);
      }
      Rests(old(history), window, Flush, nextExpected, ahead, ready, missing);
    }
  }
}
