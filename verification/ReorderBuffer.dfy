/**
  The buffer over all streams of an invocation. Each stream keeps its own account of its
  own sub-sequence of events; no stream sees another.
 */
module ReorderBuffers {
  import opened Basics
  import opened ReorderLaw
  import opened StreamReorderBuffer

  datatype MissingChunk = MissingChunk(stream: StreamKind, num: nat)

  /** The events that concern stream `k`. */
  ghost function Project(h: seq<Event>, k: StreamKind): seq<Event>
  {
    if h == [] then []
    else if Last(h).Flush? || Last(h).chunk.stream == k then Project(Init(h), k) + [Last(h)]
    else Project(Init(h), k)
  }

  /** What stream `k` has seen once event `e` has been handled after `h`. */
  ghost function Seen(h: seq<Event>, e: Event, k: StreamKind): seq<Event>
  {
    if e.Flush? || e.chunk.stream == k then Project(h, k) + [e] else Project(h, k)
  }

  lemma ProjectExtend(h: seq<Event>, e: Event, k: StreamKind)
    ensures Project(h + [e], k) == Seen(h, e, k)
  {
    Extend(h, e);
  }

  function Tagged(k: StreamKind, nums: seq<nat>): seq<MissingChunk>
  {
    if nums == [] then [] else [MissingChunk(k, nums[0])] + Tagged(k, nums[1..])
  }

  /** What flushing the streams in the given order hands over. */
  ghost function FlushReady(h: seq<Event>, w: nat, order: seq<StreamKind>): seq<Chunk>
  {
    if order == [] then []
    else FlushReady(h, w, order[..|order| - 1]) + NewlyReleased(Project(h, order[|order| - 1]), w, Flush)
  }

  /** What flushing the streams in the given order gives up. */
  ghost function FlushMissing(h: seq<Event>, w: nat, order: seq<StreamKind>): seq<MissingChunk>
  {
    if order == [] then []
    else
      var k := order[|order| - 1];
      FlushMissing(h, w, order[..|order| - 1]) + Tagged(k, NewlyLost(Project(h, k), w, Flush))
  }

  /** An iteration order of the stream table: every kind has one rank. */
  ghost predicate IsOrder(order: seq<StreamKind>)
  {
    && (forall k: StreamKind :: k in order)
    && NoDuplicates(order)
  }

  /** A stream that has received nothing hands over nothing at a flush. */
  lemma NothingToFlush(h: seq<Event>, w: nat)
    requires Received(h) == {}
    ensures NewlyReleased(h, w, Flush) == [] && NewlyLost(h, w, Flush) == []
  {
    Extend(h, Flush);
    NothingYet(h, w);
    NothingYet(h + [Flush], w);
  }

  class ReorderBuffer {
    var streams: map<StreamKind, StreamReorder>
    const window: nat
    /** Every event of the whole invocation. */
    ghost var history: seq<Event>

    /** Stream `k` is kept by an object of its own, up to date with its share of the past. */
    ghost predicate Keeps(k: StreamKind, past: seq<Event>)
      requires k in streams
      reads this`streams, streams[k]
    {
      streams[k].kind == k && streams[k].Valid(window) && streams[k].history == past
    }

    ghost predicate Valid()
      reads this, streams.Values
    {
      && 1 <= window
      && (forall k | k in streams :: Keeps(k, Project(history, k)))
      && (forall k: StreamKind | k !in streams :: Received(Project(history, k)) == {})
    }

    /** Once every kept stream has seen `e` where it concerns it, the buffer is in order again. */
    lemma UpToDate(past: seq<Event>, e: Event)
      requires 1 <= window && history == past + [e]
      requires forall k | k in streams :: Keeps(k, Seen(past, e, k))
      requires forall k: StreamKind | k !in streams :: Received(Project(past, k)) == {}
      requires e.Arrive? ==> e.chunk.stream in streams
      ensures Valid()
    {
      forall k: StreamKind
        ensures k in streams ==> Keeps(k, Project(history, k))
        ensures k !in streams ==> Received(Project(history, k)) == {}
      {
        ProjectExtend(past, e, k);
        Extend(Project(past, k), e);
      }
    }

    /** A zero window would defeat reordering; at least one slot is kept. */
    constructor (w: nat)
      ensures Valid() && history == [] && streams == map[]
      ensures window == if w < 1 then 1 else w
    {
      streams, history := map[], [];
      window := if w < 1 then 1 else w;
    }

    /** The state of stream `k`, created empty on its first chunk. */
    method EntryOrDefault(k: StreamKind)
      requires Valid()
      modifies this`streams
      ensures Valid() && k in streams
      ensures streams == old(streams) ||
        (k !in old(streams) && fresh(streams[k]) && streams == old(streams)[k := streams[k]])
    {
      if k !in streams {
        var created := new StreamReorder(k, Project(history, k));
        streams := streams[k := created];
      }
    }

    method PushStream(chunk: Chunk) returns (ready: seq<Chunk>, missing: seq<MissingChunk>)
      requires Valid() && chunk.stream in streams
      modifies streams.Values
      ensures forall k | k in streams :: Keeps(k, Seen(history, Arrive(chunk), k))
      ensures ready == NewlyReleased(Project(history, chunk.stream), window, Arrive(chunk))
      ensures missing ==
        Tagged(chunk.stream, NewlyLost(Project(history, chunk.stream), window, Arrive(chunk)))
    {
      assert Keeps(chunk.stream, Project(history, chunk.stream));
      var lost;
      ready, lost := streams[chunk.stream].Push(chunk, window);
      missing := Tagged(chunk.stream, lost);
    }

    /** Accept `chunk`: its own stream moves as the law says, every other stream stands still. */
    method Accept(chunk: Chunk) returns (ready: seq<Chunk>, missing: seq<MissingChunk>)
      requires Valid()
      modifies this, streams.Values
      ensures Valid() && history == old(history) + [Arrive(chunk)]
      ensures fresh(streams.Values - old(streams.Values))
      ensures ready == NewlyReleased(Project(old(history), chunk.stream), window, Arrive(chunk))
      ensures missing ==
        Tagged(chunk.stream, NewlyLost(Project(old(history), chunk.stream), window, Arrive(chunk)))
    {
      hide StreamReorder.Valid, Project, NewlyReleased, NewlyLost, Received;
      EntryOrDefault(chunk.stream);
      ready, missing := PushStream(chunk);
      history := history + [Arrive(chunk)];
      UpToDate(old(history), Arrive(chunk));
    }

    /** Part-way through a flush: the streams in `done` have been flushed, the others not yet. */
    ghost predicate Flushing(done: set<StreamKind>)
      reads this, streams.Values
    {
      && 1 <= window
      && (forall k | k in streams :: Keeps(k, if k in done then Seen(history, Flush, k) else Project(history, k)))
      && (forall k: StreamKind | k !in streams :: Received(Project(history, k)) == {})
    }

    method FlushStream(k: StreamKind, ghost done: set<StreamKind>)
      returns (ready: seq<Chunk>, missing: seq<MissingChunk>)
      requires Flushing(done) && k !in done
      modifies streams.Values
      ensures Flushing(done + {k})
      ensures ready == NewlyReleased(Project(history, k), window, Flush)
      ensures missing == Tagged(k, NewlyLost(Project(history, k), window, Flush))
    {
      hide StreamReorder.Valid, Project, NewlyReleased, NewlyLost, Received;
      ready, missing := [], [];
      if k in streams {
        assert Keeps(k, Project(history, k));
        var lost;
        ready, lost := streams[k].FlushAll(window);
        missing := Tagged(k, lost);
      } else {
        NothingToFlush(Project(history, k), window);
      }
    }

    /** Flush every stream, in whatever order the stream table is iterated. */
    method FlushStreams(order: seq<StreamKind>) returns (ready: seq<Chunk>, missing: seq<MissingChunk>)
      requires Valid() && IsOrder(order)
      modifies this, streams.Values
      ensures Valid() && history == old(history) + [Flush] && streams == old(streams)
      ensures ready == FlushReady(old(history), window, order)
      ensures missing == FlushMissing(old(history), window, order)
    {
      hide StreamReorder.Valid, Project, NewlyReleased, NewlyLost, Received;
      ready, missing := [], [];
      ghost var h, done := history, {};
      for i := 0 to |order|
        invariant streams == old(streams) && history == h
        invariant forall k :: k in done <==> k in order[..i]
        invariant Flushing(done)
        invariant ready == FlushReady(h, window, order[..i])
        invariant missing == FlushMissing(h, window, order[..i])
      {
        assert order[..i + 1][..i] == order[..i];
        var run, lost := FlushStream(order[i], done);
        ready, missing, done := ready + run, missing + lost, done + {order[i]};
      }
      assert order[..|order|] == order;
      history := h + [Flush];
      UpToDate(h, Flush);
    }
  }
}
