/**
  The reorder law lifted to whole renderings: every stream is rendered as if it were alone,
  the terminal frame ends everything, and a strict success means each stream came out whole.
 */
module RenderingTheorems {
  import opened Basics
  import opened ReorderLaw
  import opened ReorderTheorems
  import opened ReorderBuffers
  import opened Rendering

  /** The chunks of stream `k` that `log` renders, in order. */
  ghost function RenderedOn(log: seq<Action>, k: StreamKind): seq<Chunk>
  {
    if log == [] then []
    else if log[0].Render? && log[0].chunk.stream == k then [log[0].chunk] + RenderedOn(log[1..], k)
    else RenderedOn(log[1..], k)
  }

  /** The numbers of stream `k` that `log` declares lost, in order. */
  ghost function DeclaredOn(log: seq<Action>, k: StreamKind): seq<nat>
  {
    if log == [] then []
    else if log[0].Declare? && log[0].gap.stream == k then [log[0].gap.num] + DeclaredOn(log[1..], k)
    else DeclaredOn(log[1..], k)
  }

  lemma {:induction false} OnConcat(a: seq<Action>, b: seq<Action>, k: StreamKind)
    ensures RenderedOn(a + b, k) == RenderedOn(a, k) + RenderedOn(b, k)
    ensures DeclaredOn(a + b, k) == DeclaredOn(a, k) + DeclaredOn(b, k)
  {
    if a == [] {
      assert a + b == b;
    } else {
      var c := a + b;
      assert c[0] == a[0] && c[1..] == a[1..] + b;
      OnConcat(a[1..], b, k);
    }
  }

  lemma OnAnnounce(f: Artifact, b: seq<Action>, k: StreamKind)
    ensures RenderedOn([Announce(f)] + b, k) == RenderedOn(b, k)
    ensures DeclaredOn([Announce(f)] + b, k) == DeclaredOn(b, k)
  {
    assert ([Announce(f)] + b)[1..] == b;
  }

  lemma {:induction false} OnRenders(chunks: seq<Chunk>, j: StreamKind, k: StreamKind)
    requires forall c | c in chunks :: c.stream == j
    ensures RenderedOn(Renders(chunks), k) == if j == k then chunks else []
    ensures DeclaredOn(Renders(chunks), k) == []
  {
    if chunks != [] {
      OnRenders(chunks[1..], j, k);
      OnConcat([Render(chunks[0])], Renders(chunks[1..]), k);
      assert chunks == [chunks[0]] + chunks[1..];
      assert RenderedOn([Render(chunks[0])], k) == if j == k then [chunks[0]] else [];
    }
  }

  lemma {:induction false} OnDeclares(nums: seq<nat>, j: StreamKind, k: StreamKind)
    ensures DeclaredOn(Declares(Tagged(j, nums)), k) == if j == k then nums else []
    ensures RenderedOn(Declares(Tagged(j, nums)), k) == []
  {
    if nums != [] {
      OnDeclares(nums[1..], j, k);
      assert Tagged(j, nums)[1..] == Tagged(j, nums[1..]);
      OnConcat([Declare(MissingChunk(j, nums[0]))], Declares(Tagged(j, nums[1..])), k);
      assert nums == [nums[0]] + nums[1..];
      assert DeclaredOn([Declare(MissingChunk(j, nums[0]))], k) == if j == k then [nums[0]] else [];
    }
  }

  lemma {:induction false} ProjectOwn(h: seq<Event>, k: StreamKind)
    ensures forall e | e in Project(h, k) && e.Arrive? :: e.chunk.stream == k
  {
    if h != [] {
      ProjectOwn(Init(h), k);
    }
  }

  /** Whatever stream `k` releases carries its own tag. */
  lemma ReleasedOwn(h: seq<Event>, w: nat, e: Event, k: StreamKind)
    requires e.Arrive? ==> e.chunk.stream == k
    ensures forall c | c in NewlyReleased(Project(h, k), w, e) :: c.stream == k
  {
    var g := Project(h, k) + [e];
    ProjectOwn(h, k);
    NewlyExtends(Project(h, k), w, e);
    forall c | c in NewlyReleased(Project(h, k), w, e)
      ensures c.stream == k
    {
      assert c in Released(g, w);
      InKeptBelow(g, w, Frontier(g, w), c);
      FirstNum(g, c.num);
    }
  }

  lemma AcceptOn(h: seq<Event>, w: nat, c: Chunk, k: StreamKind)
    ensures Released(Project(h + [Arrive(c)], k), w) == Released(Project(h, k), w) + RenderedOn(AcceptLog(h, w, c), k)
    ensures LostNumbers(Project(h + [Arrive(c)], k), w) ==
      LostNumbers(Project(h, k), w) + DeclaredOn(AcceptLog(h, w, c), k)
  {
    hide Released, LostNumbers, NewlyReleased, NewlyLost, RenderedOn, DeclaredOn, Renders, Declares, Project, Tagged;
    var own := Project(h, c.stream);
    ReleasedOwn(h, w, Arrive(c), c.stream);
    OnRenders(NewlyReleased(own, w, Arrive(c)), c.stream, k);
    OnDeclares(NewlyLost(own, w, Arrive(c)), c.stream, k);
    OnConcat(Renders(NewlyReleased(own, w, Arrive(c))),
             Declares(Tagged(c.stream, NewlyLost(own, w, Arrive(c)))), k);
    ProjectExtend(h, Arrive(c), k);
    NewlyExtends(own, w, Arrive(c));
  }

  lemma {:induction false} RendersConcat(a: seq<Chunk>, b: seq<Chunk>)
    ensures Renders(a + b) == Renders(a) + Renders(b)
  {
    if a == [] {
      assert a + b == b;
    } else {
      assert (a + b)[1..] == a[1..] + b;
      RendersConcat(a[1..], b);
    }
  }

  lemma {:induction false} DeclaresConcat(a: seq<MissingChunk>, b: seq<MissingChunk>)
    ensures Declares(a + b) == Declares(a) + Declares(b)
  {
    if a == [] {
      assert a + b == b;
    } else {
      assert (a + b)[1..] == a[1..] + b;
      DeclaresConcat(a[1..], b);
    }
  }

  lemma SplitLast(order: seq<StreamKind>, k: StreamKind)
    requires order != [] && NoDuplicates(order)
    ensures NoDuplicates(order[..|order| - 1])
    ensures order[|order| - 1] !in order[..|order| - 1]
    ensures k in order <==> k in order[..|order| - 1] || k == order[|order| - 1]
  {
  }

  lemma EmptySides<T>(s: seq<T>)
    ensures s + [] == s && [] + s == s
  {
  }

  lemma {:induction false} FlushReadyOn(h: seq<Event>, w: nat, order: seq<StreamKind>, k: StreamKind)
    requires NoDuplicates(order)
    ensures DeclaredOn(Renders(FlushReady(h, w, order)), k) == []
    ensures RenderedOn(Renders(FlushReady(h, w, order)), k) ==
      if k in order then NewlyReleased(Project(h, k), w, Flush) else []
  {
    if order != [] {
      hide NewlyReleased, RenderedOn, DeclaredOn, Renders, Project, NoDuplicates;
      var init, j := order[..|order| - 1], order[|order| - 1];
      SplitLast(order, k);
      FlushReadyOn(h, w, init, k);
      ReleasedOwn(h, w, Flush, j);
      var run := NewlyReleased(Project(h, j), w, Flush);
      OnRenders(run, j, k);
      RendersConcat(FlushReady(h, w, init), run);
      OnConcat(Renders(FlushReady(h, w, init)), Renders(run), k);
      calc {
        RenderedOn(Renders(FlushReady(h, w, order)), k);
        (if k in init then NewlyReleased(Project(h, k), w, Flush) else []) + (if j == k then run else []);
        { EmptySides(NewlyReleased(Project(h, k), w, Flush)); }
        if k in order then NewlyReleased(Project(h, k), w, Flush) else [];
      }
    }
  }

  lemma {:induction false} FlushMissingOn(h: seq<Event>, w: nat, order: seq<StreamKind>, k: StreamKind)
    requires NoDuplicates(order)
    ensures RenderedOn(Declares(FlushMissing(h, w, order)), k) == []
    ensures DeclaredOn(Declares(FlushMissing(h, w, order)), k) ==
      if k in order then NewlyLost(Project(h, k), w, Flush) else []
  {
    if order != [] {
      hide NewlyLost, RenderedOn, DeclaredOn, Declares, Project, Tagged, NoDuplicates;
      var init, j := order[..|order| - 1], order[|order| - 1];
      SplitLast(order, k);
      FlushMissingOn(h, w, init, k);
      var lost := NewlyLost(Project(h, j), w, Flush);
      OnDeclares(lost, j, k);
      DeclaresConcat(FlushMissing(h, w, init), Tagged(j, lost));
      OnConcat(Declares(FlushMissing(h, w, init)), Declares(Tagged(j, lost)), k);
      calc {
        DeclaredOn(Declares(FlushMissing(h, w, order)), k);
        (if k in init then NewlyLost(Project(h, k), w, Flush) else []) + (if j == k then lost else []);
        { EmptySides(NewlyLost(Project(h, k), w, Flush)); }
        if k in order then NewlyLost(Project(h, k), w, Flush) else [];
      }
    }
  }

  lemma FlushOn(h: seq<Event>, w: nat, order: seq<StreamKind>, k: StreamKind)
    requires IsOrder(order)
    ensures RenderedOn(FlushLog(h, w, order), k) == NewlyReleased(Project(h, k), w, Flush)
    ensures DeclaredOn(FlushLog(h, w, order), k) == NewlyLost(Project(h, k), w, Flush)
  {
    hide NewlyReleased, NewlyLost, RenderedOn, DeclaredOn, Renders, Declares, Project, FlushReady, FlushMissing;
    FlushReadyOn(h, w, order, k);
    FlushMissingOn(h, w, order, k);
    OnConcat(Renders(FlushReady(h, w, order)), Declares(FlushMissing(h, w, order)), k);
  }

  /** The chunks accepted while handling frames `i` up to the terminal one, after `h`. */
  ghost function Accepted(frames: seq<Frame>, i: nat, h: seq<Event>): seq<Event>
    requires i <= |frames|
    decreases |frames| - i
  {
    if i == |frames| || frames[i].FinishedFrame? then h
    else if frames[i].ChunkFrame? then Accepted(frames, i + 1, h + [Arrive(frames[i].chunk)])
    else Accepted(frames, i + 1, h)
  }

  /** Accepting a chunk carries over from what is still to be rendered to what has been released. */
  lemma ChunkStep(h: seq<Event>, w: nat, c: Chunk, k: StreamKind, rest: seq<Action>)
    ensures Released(Project(h, k), w) + RenderedOn(AcceptLog(h, w, c) + rest, k) ==
      Released(Project(h + [Arrive(c)], k), w) + RenderedOn(rest, k)
    ensures LostNumbers(Project(h, k), w) + DeclaredOn(AcceptLog(h, w, c) + rest, k) ==
      LostNumbers(Project(h + [Arrive(c)], k), w) + DeclaredOn(rest, k)
  {
    hide Released, LostNumbers, NewlyReleased, NewlyLost, RenderedOn, DeclaredOn, Project, AcceptLog;
    AcceptOn(h, w, c, k);
    OnConcat(AcceptLog(h, w, c), rest, k);
    var was, more, rendered := Released(Project(h, k), w), RenderedOn(AcceptLog(h, w, c), k), RenderedOn(rest, k);
    assert was + (more + rendered) == was + more + rendered;
    var lost, further, later := LostNumbers(Project(h, k), w), DeclaredOn(AcceptLog(h, w, c), k), DeclaredOn(rest, k);
    assert lost + (further + later) == lost + further + later;
  }

  lemma {:induction false} StreamFrom(frames: seq<Frame>, i: nat, h: seq<Event>, w: nat, order: seq<StreamKind>,
                                      k: StreamKind)
    requires i <= |frames| && IsOrder(order)
    ensures Released(Project(Accepted(frames, i, h), k) + [Flush], w) ==
      Released(Project(h, k), w) + RenderedOn(LogFrom(frames, i, h, w, order), k)
    ensures LostNumbers(Project(Accepted(frames, i, h), k) + [Flush], w) ==
      LostNumbers(Project(h, k), w) + DeclaredOn(LogFrom(frames, i, h, w, order), k)
    decreases |frames| - i
  {
    hide Released, LostNumbers, NewlyReleased, NewlyLost, RenderedOn, DeclaredOn, Project, AcceptLog, FlushLog;
    if i == |frames| || frames[i].FinishedFrame? {
      FlushOn(h, w, order, k);
      NewlyExtends(Project(h, k), w, Flush);
    } else {
      match frames[i]
      case ChunkFrame(c) =>
        StreamFrom(frames, i + 1, h + [Arrive(c)], w, order, k);
        ChunkStep(h, w, c, k, LogFrom(frames, i + 1, h + [Arrive(c)], w, order));
      case ArtifactFrame(f) =>
        StreamFrom(frames, i + 1, h, w, order, k);
        OnAnnounce(f, LogFrom(frames, i + 1, h, w, order), k);
    }
  }

  /**
    Each stream's chunks come out, and its losses are reported, exactly as the law demands
    of that stream's own arrivals followed by one flush. Neither the other streams, nor
    artifacts, nor the iteration order of the stream table have any say in it.
   */
  lemma EachStreamAlone(frames: seq<Frame>, w: nat, order: seq<StreamKind>, k: StreamKind)
    requires IsOrder(order)
    ensures RenderedOn(Log(frames, w, order), k) ==
      Released(Project(Accepted(frames, 0, []), k) + [Flush], w)
    ensures DeclaredOn(Log(frames, w, order), k) ==
      LostNumbers(Project(Accepted(frames, 0, []), k) + [Flush], w)
  {
    StreamFrom(frames, 0, [], w, order, k);
    NothingYet([], w);
  }

  /**
    Two transmissions that delivered the same chunks of stream `k` in any two orders, and
    lost none while accepting, render that stream identically and report the same losses.
   */
  lemma ArrivalOrderIrrelevant(frames1: seq<Frame>, w1: nat, order1: seq<StreamKind>,
                               frames2: seq<Frame>, w2: nat, order2: seq<StreamKind>, k: StreamKind)
    requires IsOrder(order1) && IsOrder(order2)
    requires var own1, own2 := Project(Accepted(frames1, 0, []), k), Project(Accepted(frames2, 0, []), k);
      && Received(own1) == Received(own2) && SameContent(own1, own2)
      && LostNumbers(own1, w1) == [] && LostNumbers(own2, w2) == []
    ensures RenderedOn(Log(frames1, w1, order1), k) == RenderedOn(Log(frames2, w2, order2), k)
    ensures DeclaredOn(Log(frames1, w1, order1), k) == DeclaredOn(Log(frames2, w2, order2), k)
  {
    EachStreamAlone(frames1, w1, order1, k);
    EachStreamAlone(frames2, w2, order2, k);
    OrderIndependence(Project(Accepted(frames1, 0, []), k), w1, Project(Accepted(frames2, 0, []), k), w2);
  }

  /** Nothing after the first terminal frame has any effect. */
  lemma {:induction false} NothingAfterFinish(frames: seq<Frame>, more: seq<Frame>, i: nat, h: seq<Event>, w: nat,
                                              order: seq<StreamKind>)
    requires i <= |frames| && FinishIndex(frames, i) < |frames|
    ensures LogFrom(frames + more, i, h, w, order) == LogFrom(frames, i, h, w, order)
    ensures FinishIndex(frames + more, i) == FinishIndex(frames, i)
    decreases |frames| - i
  {
    hide AcceptLog, FlushLog;
    if i < |frames| && !frames[i].FinishedFrame? {
      var h' := if frames[i].ChunkFrame? then h + [Arrive(frames[i].chunk)] else h;
      NothingAfterFinish(frames, more, i + 1, h', w, order);
    }
  }

  lemma {:induction false} DeclaredTaints(log: seq<Action>, x: Codec, k: StreamKind)
    ensures DeclaredOn(log, k) != [] ==> Tainted(log, x)
    ensures forall c | c in RenderedOn(log, k) :: Render(c) in log
  {
    if log != [] {
      DeclaredTaints(log[1..], x, k);
      assert log == [log[0]] + log[1..];
      assert Tainted(log[1..], x) || Taints(log[0], x) ==> Tainted(log, x);
    }
  }

  /**
    Strict success: when a strict rendering reports no failure, every stream that received
    anything was rendered as its first copies of 0, 1, ... up to the highest number
    received, all of them intact. (A lost tail leaves no trace and is not excluded.)
   */
  lemma StrictSuccess(frames: seq<Frame>, w: nat, order: seq<StreamKind>, x: Codec, k: StreamKind)
    requires IsOrder(order)
    requires !Replay(BLANK, Log(frames, w, order), true, x).failed
    ensures var own := Project(Accepted(frames, 0, []), k);
      && |RenderedOn(Log(frames, w, order), k)| == Top(own)
      && forall i: nat | i < Top(own) ::
           && i in Received(own)
           && RenderedOn(Log(frames, w, order), k)[i] == First(own, i)
           && Intact(First(own, i), x)
  {
    var log := Log(frames, w, order);
    var own := Project(Accepted(frames, 0, []), k);
    StrictOnlyReports(BLANK, BLANK, log, x);
    EachStreamAlone(frames, w, order, k);
    DeclaredTaints(log, x, k);
    WholeStream(own, w);
    forall i: nat | i < Top(own)
      ensures Intact(First(own, i), x)
    {
      var c := RenderedOn(log, k)[i];
      assert c in RenderedOn(log, k);
      assert !Taints(Render(c), x);
    }
  }

  /** And conversely: losing nothing and rendering only intact chunks is a strict success. */
  lemma StrictFailureMeansDamage(frames: seq<Frame>, w: nat, order: seq<StreamKind>, x: Codec)
    requires IsOrder(order)
    requires Replay(BLANK, Log(frames, w, order), true, x).failed
    ensures exists k: StreamKind ::
      || DeclaredOn(Log(frames, w, order), k) != []
      || (exists c | c in RenderedOn(Log(frames, w, order), k) :: !Intact(c, x))
  {
    var log := Log(frames, w, order);
    StrictOnlyReports(BLANK, BLANK, log, x);
    var a :| a in log && Taints(a, x);
    FoundOn(log, a);
    if a.Declare? {
      assert DeclaredOn(log, a.gap.stream) != [];
    } else {
      assert a.chunk in RenderedOn(log, a.chunk.stream);
    }
  }

  lemma {:induction false} FoundOn(log: seq<Action>, a: Action)
    requires a in log
    ensures a.Declare? ==> a.gap.num in DeclaredOn(log, a.gap.stream)
    ensures a.Render? ==> a.chunk in RenderedOn(log, a.chunk.stream)
  {
    if log[0] != a {
      FoundOn(log[1..], a);
    }
  }
}
