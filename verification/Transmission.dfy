/**
  End to end: what a command wrote to its output is what comes out, byte for byte, however
  its chunks were reordered and repeated on the way, except exactly the pieces overtaken
  by more chunks than the window holds; and what strict success does and does not say
  about the end of the output.
 */
module Transmission {
  import opened Basics
  import opened ReorderLaw
  import opened ReorderTheorems
  import opened ReorderBuffers
  import opened Rendering
  import opened RenderingTheorems

  // ---------------------------------------------------------------------------
  // Who writes what to stdout and stderr
  // ---------------------------------------------------------------------------

  datatype Destination = ToOut | ToErr

  predicate GoesTo(k: StreamKind, d: Destination)
  {
    match d
    case ToOut => k == Stdout || k == Pty
    case ToErr => k == Stderr
  }

  /** A destination is shared by its streams and by previews of artifacts. */
  datatype Origin = Stream(kind: StreamKind) | Preview

  datatype Write = Write(origin: Origin, bytes: seq<bv8>)

  /** The bytes a chunk carries: decoded if it says base64 and is, as they stand otherwise. */
  ghost predicate Carries(c: Chunk, x: Codec, bytes: seq<bv8>)
  {
    if c.encoding == "base64" && x.base64(c.data).Some? then x.base64(c.data) == Some(bytes)
    else bytes == x.bytes(c.data)
  }

  lemma DecodedIsCarried(c: Chunk, x: Codec)
    ensures Carries(c, x, DecodeChunk(c, x))
  {
  }

  ghost function Payload(c: Chunk, x: Codec): seq<bv8>
  {
    if c.data == "" then [] else DecodeChunk(c, x)
  }

  ghost function WritesOf(a: Action, d: Destination, x: Codec): seq<Write>
  {
    match a
    case Render(c) => if GoesTo(c.stream, d) then [Write(Stream(c.stream), Payload(c, x))] else []
    case Declare(_) => []
    case Announce(f) =>
      if f.tailPreview != "" && (f.stream == Stderr <==> d == ToErr)
      then [Write(Preview, x.bytes(f.tailPreview))]
      else []
  }

  ghost function Writes(log: seq<Action>, d: Destination, x: Codec): seq<Write>
  {
    if log == [] then [] else WritesOf(log[0], d, x) + Writes(log[1..], d, x)
  }

  ghost function Flat(ws: seq<Write>): seq<bv8>
  {
    if ws == [] then [] else ws[0].bytes + Flat(ws[1..])
  }

  /** The part of the writes that comes from `o`. */
  ghost function Share(ws: seq<Write>, o: Origin): seq<bv8>
  {
    if ws == [] then [] else (if ws[0].origin == o then ws[0].bytes else []) + Share(ws[1..], o)
  }

  /** The bytes among what stderr receives, joined in order; the rest are mx-agent's own notices. */
  ghost function BytesIn(err: seq<Notice>): seq<bv8>
  {
    if err == [] then []
    else BytesIn(err[..|err| - 1]) + if err[|err| - 1].Bytes? then err[|err| - 1].bytes else []
  }

  /** What a destination has received of the command's output. */
  ghost function Output(con: Console, d: Destination): seq<bv8>
  {
    match d
    case ToOut => con.out
    case ToErr => BytesIn(con.err)
  }

  lemma FirstWrites(a: Action, ws: seq<Write>, d: Destination, x: Codec, o: Origin)
    ensures Flat(WritesOf(a, d, x) + ws) == Flat(WritesOf(a, d, x)) + Flat(ws)
    ensures Share(WritesOf(a, d, x) + ws, o) == Share(WritesOf(a, d, x), o) + Share(ws, o)
  {
    var first := WritesOf(a, d, x);
    if first == [] {
      assert first + ws == ws;
    } else {
      assert first == [first[0]] && first[1..] == [] && (first + ws)[1..] == ws;
      assert first[0].bytes + [] == first[0].bytes;
    }
  }

  lemma BytesPush(err: seq<Notice>, n: Notice)
    ensures BytesIn(err + [n]) == BytesIn(err) + if n.Bytes? then n.bytes else []
  {
    assert (err + [n])[..|err|] == err;
  }

  lemma OneWrite(w: Write)
    ensures Flat([w]) == w.bytes && Flat([]) == []
  {
    assert [w][1..] == [] && w.bytes + [] == w.bytes;
  }

  lemma OutStep(con: Console, a: Action, strict: bool, x: Codec)
    ensures Perform(con, a, strict, x).out == con.out + Flat(WritesOf(a, ToOut, x))
  {
    hide DecodeChunk, Intact, Flat;
    assert con.out + [] == con.out;
    OneWrite(Write(Preview, []));
    if WritesOf(a, ToOut, x) != [] {
      OneWrite(WritesOf(a, ToOut, x)[0]);
    }
  }

  lemma ErrStep(con: Console, a: Action, strict: bool, x: Codec)
    ensures BytesIn(Perform(con, a, strict, x).err) == BytesIn(con.err) + Flat(WritesOf(a, ToErr, x))
  {
    hide DecodeChunk, Intact, Flat, BytesIn;
    var err, err' := con.err, Perform(con, a, strict, x).err;
    OneWrite(Write(Preview, []));
    if WritesOf(a, ToErr, x) != [] {
      OneWrite(WritesOf(a, ToErr, x)[0]);
    }
    assert err + [] == err && BytesIn(err) + [] == BytesIn(err);
    match a
    case Render(c) =>
      BytesPush(err, InvalidNotice(c));
      var checked := if strict && !Intact(c, x) then err + [InvalidNotice(c)] else err;
      assert checked + [] == checked && BytesIn(checked) == BytesIn(err);
      BytesPush(checked, Bytes(DecodeChunk(c, x)));
    case Declare(m) =>
      BytesPush(err, MissingNotice(m, strict));
    case Announce(f) =>
      var named := err + [ArtifactNotice(f)];
      BytesPush(err, ArtifactNotice(f));
      BytesPush(named, PreviewFollows);
      BytesPush(named + [PreviewFollows], Bytes(x.bytes(f.tailPreview)));
      assert named + [] == named;
      assert named + [PreviewFollows, Bytes(x.bytes(f.tailPreview))] ==
             named + [PreviewFollows] + [Bytes(x.bytes(f.tailPreview))];
  }

  lemma OutputStep(con: Console, a: Action, d: Destination, strict: bool, x: Codec)
    ensures Output(Perform(con, a, strict, x), d) == Output(con, d) + Flat(WritesOf(a, d, x))
  {
    hide Perform, WritesOf, Flat, BytesIn;
    OutStep(con, a, strict, x);
    ErrStep(con, a, strict, x);
  }

  /**
    Stdout receives the writes of the stdout and pty streams and of previews, stderr those
    of the stderr stream and of previews of it, in the order of the log, and nothing else
    of the command's output, in either mode.
   */
  lemma {:induction false} OutputOf(con: Console, log: seq<Action>, d: Destination, strict: bool, x: Codec)
    ensures Output(Replay(con, log, strict, x), d) == Output(con, d) + Flat(Writes(log, d, x))
    decreases |log|
  {
    hide Perform, WritesOf, Flat, Output;
    if log == [] {
      OneWrite(Write(Preview, []));
      assert Output(con, d) + [] == Output(con, d);
    } else {
      OutputStep(con, log[0], d, strict, x);
      OutputOf(Perform(con, log[0], strict, x), log[1..], d, strict, x);
      FirstWrites(log[0], Writes(log[1..], d, x), d, x, Preview);
      var first, rest := Flat(WritesOf(log[0], d, x)), Flat(Writes(log[1..], d, x));
      assert Output(con, d) + first + rest == Output(con, d) + (first + rest);
    }
  }

  ghost function Written(chunks: seq<Chunk>, x: Codec): seq<bv8>
  {
    if chunks == [] then [] else Payload(chunks[0], x) + Written(chunks[1..], x)
  }

  lemma {:induction false} WrittenPush(chunks: seq<Chunk>, c: Chunk, x: Codec)
    ensures Written(chunks + [c], x) == Written(chunks, x) + Payload(c, x)
  {
    if chunks == [] {
      assert chunks + [c] == [c] && [c][1..] == [];
    } else {
      WrittenPush(chunks[1..], c, x);
      assert (chunks + [c])[1..] == chunks[1..] + [c];
    }
  }

  /** A stream's share of its destination is its rendered chunks, decoded, in order. */
  lemma {:induction false} ShareOf(log: seq<Action>, k: StreamKind, d: Destination, x: Codec)
    requires GoesTo(k, d)
    ensures Share(Writes(log, d, x), Stream(k)) == Written(RenderedOn(log, k), x)
  {
    hide Payload;
    if log != [] {
      ShareOf(log[1..], k, d, x);
      FirstWrites(log[0], Writes(log[1..], d, x), d, x, Stream(k));
      var first := WritesOf(log[0], d, x);
      if log[0].Render? && log[0].chunk.stream == k {
        assert first[1..] == [] && first[0].bytes + [] == first[0].bytes;
        assert RenderedOn(log, k)[1..] == RenderedOn(log[1..], k);
      } else if first != [] {
        assert first[1..] == [] && first[0].origin != Stream(k);
      }
    }
  }

  // ---------------------------------------------------------------------------
  // Which pieces come through
  // ---------------------------------------------------------------------------

  /** Nothing encodes to nothing. */
  ghost predicate Sound(x: Codec)
  {
    x.bytes("") == [] && x.base64("") == Some([])
  }

  /** Whatever arrived is a copy of one of the pieces the command wrote. */
  ghost predicate Copies(own: seq<Event>, pieces: seq<seq<bv8>>, x: Codec)
  {
    forall c | Arrive(c) in own :: c.num < |pieces| && Carries(c, x, pieces[c.num])
  }

  /** Piece `n` arrived, and no more than `w` later ones had arrived before it. */
  ghost predicate ComesThrough(own: seq<Event>, w: nat, n: nat)
  {
    n in Received(own) && |Above(Before(own, n), n)| <= w
  }

  /** The pieces below `p` that come through, joined in order. */
  ghost function Kept(own: seq<Event>, w: nat, pieces: seq<seq<bv8>>, p: nat): seq<bv8>
    requires p <= |pieces|
  {
    if p == 0 then []
    else Kept(own, w, pieces, p - 1) + if ComesThrough(own, w, p - 1) then pieces[p - 1] else []
  }

  ghost function Joined(pieces: seq<seq<bv8>>): seq<bv8>
  {
    if pieces == [] then [] else Joined(pieces[..|pieces| - 1]) + pieces[|pieces| - 1]
  }

  lemma PieceOut(c: Chunk, x: Codec)
    requires Sound(x)
    ensures Payload(c, x) == DecodeChunk(c, x)
  {
  }

  /** After the flush, a number is released exactly when it comes through. */
  lemma KeptIffThrough(own: seq<Event>, w: nat, n: nat)
    requires OnlyArrivals(own)
    ensures n in Received(own + [Flush]) && !Lost(own + [Flush], w, n) <==> ComesThrough(own, w, n)
    ensures n in Received(own) ==> First(own + [Flush], n) == First(own, n)
  {
    Extend(own, Flush);
    FlushLossLaw(own, w, n);
    LossLaw(own, w, n);
  }

  lemma {:induction false} SpellsOut(own: seq<Event>, w: nat, pieces: seq<seq<bv8>>, p: nat, x: Codec)
    requires Sound(x) && OnlyArrivals(own) && Copies(own, pieces, x) && p <= |pieces|
    ensures Written(KeptBelow(own + [Flush], w, p), x) == Kept(own, w, pieces, p)
  {
    hide DecodeChunk, Payload, Sound, ComesThrough, Lost, Received, First;
    if p > 0 {
      SpellsOut(own, w, pieces, p - 1, x);
      KeptIffThrough(own, w, p - 1);
      assert ComesThrough(own, w, p - 1) ==> p - 1 in Received(own) by { ThroughArrived(own, w, p - 1); }
      if ComesThrough(own, w, p - 1) {
        var c := First(own, p - 1);
        FirstNum(own, p - 1);
        WrittenPush(KeptBelow(own + [Flush], w, p - 1), c, x);
        PieceOut(c, x);
        DecodedIsCarried(c, x);
      }
    }
  }

  lemma ThroughArrived(own: seq<Event>, w: nat, n: nat)
    ensures ComesThrough(own, w, n) ==> n in Received(own)
  {
  }

  /** Beyond the highest number received nothing comes through. */
  lemma {:induction false} NothingBeyond(own: seq<Event>, w: nat, pieces: seq<seq<bv8>>, p: nat)
    requires Top(own) <= p <= |pieces|
    ensures Kept(own, w, pieces, p) == Kept(own, w, pieces, Top(own))
  {
    if p > Top(own) {
      TopBounds(own, w, p - 1);
      NothingBeyond(own, w, pieces, p - 1);
    }
  }

  lemma TopFits(own: seq<Event>, pieces: seq<seq<bv8>>, x: Codec)
    requires Copies(own, pieces, x)
    ensures Top(own) <= |pieces|
  {
    hide DecodeChunk;
    if Top(own) > 0 {
      TopBounds(own, 0, 0);
      FirstNum(own, Top(own) - 1);
    }
  }

  lemma {:induction false} AcceptedArrivals(frames: seq<Frame>, i: nat, h: seq<Event>)
    requires i <= |frames| && OnlyArrivals(h)
    ensures OnlyArrivals(Accepted(frames, i, h))
    decreases |frames| - i
  {
    if i < |frames| && !frames[i].FinishedFrame? {
      AcceptedArrivals(frames, i + 1, if frames[i].ChunkFrame? then h + [Arrive(frames[i].chunk)] else h);
    }
  }

  lemma {:induction false} ProjectArrivals(h: seq<Event>, k: StreamKind)
    requires OnlyArrivals(h)
    ensures OnlyArrivals(Project(h, k))
    ensures forall c | Arrive(c) in Project(h, k) :: c.stream == k && Arrive(c) in h
  {
    if h != [] {
      assert forall e | e in Init(h) :: e in h;
      assert Last(h) in h;
      ProjectArrivals(Init(h), k);
    }
  }

  /** What stream `k` received before the terminal frame. */
  ghost function OwnArrivals(frames: seq<Frame>, k: StreamKind): seq<Event>
  {
    Project(Accepted(frames, 0, []), k)
  }

  lemma OwnIsOwn(frames: seq<Frame>, k: StreamKind)
    ensures OnlyArrivals(OwnArrivals(frames, k))
    ensures forall c | Arrive(c) in OwnArrivals(frames, k) :: c.stream == k
  {
    AcceptedArrivals(frames, 0, []);
    ProjectArrivals(Accepted(frames, 0, []), k);
  }

  /**
    Whatever else the frames carry, and in either mode, the share that the stdout, pty or
    stderr stream has in its destination is exactly the pieces that arrived without being
    overtaken by more than `w` later ones, joined in order: a piece overtaken more often is
    missing, and no other is.
   */
  lemma OutputIsWhatCameThrough(frames: seq<Frame>, w: nat, order: seq<StreamKind>, k: StreamKind, d: Destination,
                                strict: bool, x: Codec, pieces: seq<seq<bv8>>)
    requires IsOrder(order) && Sound(x) && GoesTo(k, d)
    requires Copies(OwnArrivals(frames, k), pieces, x)
    ensures var ws := Writes(Log(frames, w, order), d, x);
      && Output(Replay(BLANK, Log(frames, w, order), strict, x), d) == Flat(ws)
      && Share(ws, Stream(k)) == Kept(OwnArrivals(frames, k), w, pieces, |pieces|)
  {
    hide Replay, Project, Accepted, Copies, Released, LostNumbers, RenderedOn, LogFrom, Written, Writes, Flat, Share,
      Sound, Kept, GoesTo;
    var own := OwnArrivals(frames, k);
    OutputOf(BLANK, Log(frames, w, order), d, strict, x);
    EmptyFirst(Flat(Writes(Log(frames, w, order), d, x)));
    ShareOf(Log(frames, w, order), k, d, x);
    EachStreamAlone(frames, w, order, k);
    OwnIsOwn(frames, k);
    ReleasedSpellsOut(own, w, pieces, x);
  }

  lemma EmptyFirst(s: seq<bv8>)
    ensures [] + s == s
  {
  }

  lemma ReleasedSpellsOut(own: seq<Event>, w: nat, pieces: seq<seq<bv8>>, x: Codec)
    requires Sound(x) && OnlyArrivals(own) && Copies(own, pieces, x)
    ensures Written(Released(own + [Flush], w), x) == Kept(own, w, pieces, |pieces|)
  {
    hide Sound, Written, Copies, Kept;
    FlushReachesTop(own, w);
    TopFits(own, pieces, x);
    SpellsOut(own, w, pieces, Top(own), x);
    NothingBeyond(own, w, pieces, |pieces|);
  }

  // ---------------------------------------------------------------------------
  // Nothing overtaken, nothing else written
  // ---------------------------------------------------------------------------

  lemma {:induction false} AllKept(own: seq<Event>, w: nat, pieces: seq<seq<bv8>>, p: nat)
    requires p <= |pieces| && forall n: nat | n < p :: ComesThrough(own, w, n)
    ensures Kept(own, w, pieces, p) == Joined(pieces[..p])
  {
    hide ComesThrough;
    if p > 0 {
      AllKept(own, w, pieces, p - 1);
      assert pieces[..p][..p - 1] == pieces[..p - 1];
    }
  }

  /** Up to the terminal frame, nothing but stream `k` has anything to write to `d`. */
  ghost predicate Undivided(frames: seq<Frame>, k: StreamKind, d: Destination)
  {
    forall i | 0 <= i < FinishIndex(frames, 0) ::
      match frames[i]
      case ChunkFrame(c) => c.stream == k || !GoesTo(c.stream, d)
      case ArtifactFrame(f) => f.tailPreview == "" || (f.stream == Stderr <==> d == ToOut)
      case FinishedFrame(_) => true
  }

  lemma {:induction false} NoAnnouncements(chunks: seq<Chunk>, gaps: seq<MissingChunk>)
    ensures forall a | a in Renders(chunks) + Declares(gaps) :: !a.Announce?
    decreases |chunks| + |gaps|
  {
    if chunks != [] {
      NoAnnouncements(chunks[1..], gaps);
    } else if gaps != [] {
      NoAnnouncements(chunks, gaps[1..]);
    }
  }

  /** Only artifacts that came before the terminal frame are announced. */
  lemma {:induction false} AnnouncedCameIn(frames: seq<Frame>, i: nat, h: seq<Event>, w: nat, order: seq<StreamKind>)
    requires i <= |frames|
    ensures forall a | a in LogFrom(frames, i, h, w, order) && a.Announce? ::
      exists j | i <= j < FinishIndex(frames, i) :: frames[j] == ArtifactFrame(a.artifact)
    decreases |frames| - i
  {
    hide NewlyReleased, NewlyLost, Project, Tagged, FlushReady, FlushMissing, Renders, Declares;
    if i == |frames| || frames[i].FinishedFrame? {
      NoAnnouncements(FlushReady(h, w, order), FlushMissing(h, w, order));
    } else if frames[i].ChunkFrame? {
      var c := frames[i].chunk;
      var own := Project(h, c.stream);
      NoAnnouncements(NewlyReleased(own, w, Arrive(c)), Tagged(c.stream, NewlyLost(own, w, Arrive(c))));
      AnnouncedCameIn(frames, i + 1, h + [Arrive(c)], w, order);
    } else {
      AnnouncedCameIn(frames, i + 1, h, w, order);
    }
  }

  lemma {:induction false} AcceptedCameIn(frames: seq<Frame>, i: nat, h: seq<Event>, c: Chunk)
    requires i <= |frames| && Arrive(c) in Accepted(frames, i, h)
    ensures Arrive(c) in h || exists j | i <= j < FinishIndex(frames, i) :: frames[j] == ChunkFrame(c)
    decreases |frames| - i
  {
    if i < |frames| && !frames[i].FinishedFrame? {
      AcceptedCameIn(frames, i + 1, if frames[i].ChunkFrame? then h + [Arrive(frames[i].chunk)] else h, c);
    }
  }

  /** A stream that received nothing renders nothing. */
  lemma NothingReleased(w: nat)
    ensures Released([] + [Flush], w) == []
  {
    FlushReachesTop([], w);
  }

  lemma SomeChunk(own: seq<Event>)
    requires OnlyArrivals(own)
    ensures own == [] || exists c :: Arrive(c) in own
  {
    if own != [] {
      assert own[0] in own && own[0] == Arrive(own[0].chunk);
    }
  }

  lemma SilentStream(frames: seq<Frame>, w: nat, order: seq<StreamKind>, k: StreamKind, d: Destination,
                     other: StreamKind)
    requires IsOrder(order) && Undivided(frames, k, d) && other != k && GoesTo(other, d)
    ensures RenderedOn(Log(frames, w, order), other) == []
  {
    hide Released, RenderedOn, LogFrom, Accepted, Project;
    OwnIsOwn(frames, other);
    var own := OwnArrivals(frames, other);
    AcceptedArrivals(frames, 0, []);
    ProjectArrivals(Accepted(frames, 0, []), other);
    forall c | Arrive(c) in own
      ensures c.stream == k
    {
      AcceptedCameIn(frames, 0, [], c);
    }
    SomeChunk(own);
    EachStreamAlone(frames, w, order, other);
    NothingReleased(w);
  }

  /** When every write is of one origin or empty, that origin's share is everything. */
  lemma {:induction false} ShareIsAll(ws: seq<Write>, o: Origin)
    requires forall x | x in ws :: x.origin == o || x.bytes == []
    ensures Share(ws, o) == Flat(ws)
  {
    if ws != [] {
      assert ws[0] in ws;
      ShareIsAll(ws[1..], o);
    }
  }

  lemma {:induction false} WrittenBy(log: seq<Action>, d: Destination, x: Codec, u: Write)
    requires u in Writes(log, d, x)
    ensures exists a | a in log :: u in WritesOf(a, d, x)
  {
    hide WritesOf;
    if u in Writes(log[1..], d, x) {
      WrittenBy(log[1..], d, x, u);
      var a :| a in log[1..] && u in WritesOf(a, d, x);
      assert a in log;
    } else {
      assert u in WritesOf(log[0], d, x) && log[0] in log;
    }
  }

  lemma OnlyOneWriter(frames: seq<Frame>, w: nat, order: seq<StreamKind>, k: StreamKind, d: Destination, x: Codec)
    requires IsOrder(order) && Undivided(frames, k, d) && GoesTo(k, d)
    ensures Share(Writes(Log(frames, w, order), d, x), Stream(k)) == Flat(Writes(Log(frames, w, order), d, x))
  {
    hide LogFrom, RenderedOn, Share, Flat, Writes, Payload;
    var log := Log(frames, w, order);
    AnnouncedCameIn(frames, 0, [], w, order);
    forall u | u in Writes(log, d, x)
      ensures u.origin == Stream(k) || u.bytes == []
    {
      WrittenBy(log, d, x, u);
      var a :| a in log && u in WritesOf(a, d, x);
      FoundOn(log, a);
      if a.Render? && a.chunk.stream != k {
        SilentStream(frames, w, order, k, d, a.chunk.stream);
      }
    }
    ShareIsAll(Writes(log, d, x), Stream(k));
  }

  /**
    If every piece arrived at least once, none after more than `w` later ones, and nothing
    else wrote to that destination before the command finished, it receives exactly the
    pieces, joined in order, in either mode.
   */
  lemma OutputIsWhatWasWritten(frames: seq<Frame>, w: nat, order: seq<StreamKind>, k: StreamKind, d: Destination,
                               strict: bool, x: Codec, pieces: seq<seq<bv8>>)
    requires IsOrder(order) && Sound(x) && GoesTo(k, d) && Undivided(frames, k, d)
    requires Copies(OwnArrivals(frames, k), pieces, x)
    requires forall n: nat | n < |pieces| :: ComesThrough(OwnArrivals(frames, k), w, n)
    ensures Output(Replay(BLANK, Log(frames, w, order), strict, x), d) == Joined(pieces)
  {
    hide Replay, Log, Copies, ComesThrough, Undivided, Sound, OwnArrivals, Joined, Writes, Share, Flat, GoesTo, Output;
    OutputIsWhatCameThrough(frames, w, order, k, d, strict, x, pieces);
    OnlyOneWriter(frames, w, order, k, d, x);
    AllKept(OwnArrivals(frames, k), w, pieces, |pieces|);
    assert pieces[..|pieces|] == pieces;
  }

  // ---------------------------------------------------------------------------
  // The end of the output
  // ---------------------------------------------------------------------------

  /** Stream `k` was rendered as the first copies of 0 up to, and not including, `n`. */
  ghost predicate RenderedWhole(log: seq<Action>, k: StreamKind, own: seq<Event>, n: nat)
  {
    && |RenderedOn(log, k)| == n
    && forall i: nat | i < n :: i in Received(own) && RenderedOn(log, k)[i] == First(own, i)
  }

  /**
    A strict success over a stream of `n` chunks means that all of them were rendered just
    when the last one was received; the end mark it carries has no say in the matter.
   */
  lemma WholeIffLastReceived(frames: seq<Frame>, w: nat, order: seq<StreamKind>, x: Codec, k: StreamKind, n: nat)
    requires IsOrder(order) && !Replay(BLANK, Log(frames, w, order), true, x).failed
    requires forall m | m in Received(OwnArrivals(frames, k)) :: m < n
    ensures RenderedWhole(Log(frames, w, order), k, OwnArrivals(frames, k), n) <==>
      n == 0 || n - 1 in Received(OwnArrivals(frames, k))
  {
    hide Replay, LogFrom, RenderedOn, Project, Accepted, Received, First;
    var own := OwnArrivals(frames, k);
    StrictSuccess(frames, w, order, x, k);
    TopBounds(own, w, if n == 0 then 0 else n - 1);
  }

  /** The first `m` of `chunks`, in order, and then the terminal frame. */
  function Sent(chunks: seq<Chunk>, m: nat, f: ExecFinished): seq<Frame>
    requires m <= |chunks|
  {
    seq(m, i requires 0 <= i < m => ChunkFrame(chunks[i])) + [FinishedFrame(f)]
  }

  ghost function InTurn(chunks: seq<Chunk>): seq<Event>
  {
    seq(|chunks|, i requires 0 <= i < |chunks| => Arrive(chunks[i]))
  }

  lemma {:induction false} AcceptedInTurn(chunks: seq<Chunk>, m: nat, f: ExecFinished, i: nat)
    requires i <= m <= |chunks|
    ensures Accepted(Sent(chunks, m, f), i, InTurn(chunks[..i])) == InTurn(chunks[..m])
    decreases m - i
  {
    if i < m {
      AcceptedInTurn(chunks, m, f, i + 1);
      assert InTurn(chunks[..i]) + [Arrive(chunks[i])] == InTurn(chunks[..i + 1]);
    }
  }

  lemma {:induction false} ProjectOne(chunks: seq<Chunk>, k: StreamKind, j: StreamKind)
    requires forall c | c in chunks :: c.stream == k
    ensures Project(InTurn(chunks), j) == if j == k then InTurn(chunks) else []
  {
    if chunks != [] {
      var before := chunks[..|chunks| - 1];
      assert forall c | c in before :: c in chunks;
      assert chunks[|chunks| - 1] in chunks;
      ProjectOne(before, k, j);
      assert Init(InTurn(chunks)) == InTurn(before);
      assert InTurn(before) + [Last(InTurn(chunks))] == InTurn(chunks);
    }
  }

  /** Chunks that arrive in turn are received up to the last and lose nothing. */
  lemma {:induction false} InTurnLosesNothing(chunks: seq<Chunk>, w: nat, n: nat)
    requires forall i | 0 <= i < |chunks| :: chunks[i].num == i
    ensures n in Received(InTurn(chunks)) <==> n < |chunks|
    ensures !Lost(InTurn(chunks), w, n) && Top(InTurn(chunks)) == |chunks|
  {
    if chunks != [] {
      var before := chunks[..|chunks| - 1];
      InTurnLosesNothing(before, w, n);
      var h := InTurn(chunks);
      assert Init(h) == InTurn(before) && Last(h) == Arrive(chunks[|chunks| - 1]);
      if n !in Received(h) {
        forall m | m in Received(h)
          ensures m <= n
        {
          TopBounds(h, w, m);
        }
        assert Above(h, n) == {};
      }
    }
  }

  lemma NothingLostInTurn(chunks: seq<Chunk>, w: nat, p: nat)
    requires forall i | 0 <= i < |chunks| :: chunks[i].num == i
    ensures LostBelow(InTurn(chunks) + [Flush], w, p) == []
  {
    if p > 0 {
      NothingLostInTurn(chunks, w, p - 1);
      FlushLossLaw(InTurn(chunks), w, p - 1);
      InTurnLosesNothing(chunks, w, p - 1);
    }
  }

  /**
    The loss of a stream's tail goes unnoticed: of chunks sent in turn, the last of which
    bears the end mark, any first ones followed by the terminal frame are a strict success.
   */
  lemma LostTailIsNotNoticed(chunks: seq<Chunk>, m: nat, f: ExecFinished, k: StreamKind, w: nat,
                             order: seq<StreamKind>, x: Codec)
    requires IsOrder(order) && m <= |chunks| && chunks != [] && chunks[|chunks| - 1].eof
    requires forall i | 0 <= i < |chunks| :: chunks[i].num == i && chunks[i].stream == k && Intact(chunks[i], x)
    ensures !Replay(BLANK, Log(Sent(chunks, m, f), w, order), true, x).failed
  {
    hide Replay, LogFrom, RenderedOn, DeclaredOn, Released, Accepted, Project, Intact, InTurn;
    var sent, frames := chunks[..m], Sent(chunks, m, f);
    var log := Log(frames, w, order);
    AcceptedInTurn(chunks, m, f, 0);
    assert InTurn(chunks[..0]) == [] by { NoneInTurn(chunks[..0]); }
    forall a | a in log
      ensures !Taints(a, x)
    {
      var j := if a.Declare? then a.gap.stream else if a.Render? then a.chunk.stream else k;
      FoundOn(log, a);
      EachStreamAlone(frames, w, order, j);
      ProjectOne(sent, k, j);
      SentOnStream(sent, k, j, w, x);
    }
    StrictOnlyReports(BLANK, BLANK, log, x);
  }

  lemma NoneInTurn(none: seq<Chunk>)
    requires none == []
    ensures InTurn(none) == []
  {
  }

  /** On any stream, chunks of stream `k` sent in turn are released intact and without loss. */
  lemma SentOnStream(sent: seq<Chunk>, k: StreamKind, j: StreamKind, w: nat, x: Codec)
    requires forall i | 0 <= i < |sent| :: sent[i].num == i && Intact(sent[i], x)
    ensures var own := if j == k then InTurn(sent) else [];
      && LostNumbers(own + [Flush], w) == []
      && forall c | c in Released(own + [Flush], w) :: Intact(c, x)
  {
    hide Intact;
    if j == k {
      var own := InTurn(sent);
      NothingLostInTurn(sent, w, Frontier(own + [Flush], w));
      forall c | c in Released(own + [Flush], w)
        ensures Intact(c, x)
      {
        InKeptBelow(own + [Flush], w, Frontier(own + [Flush], w), c);
        FirstNum(own + [Flush], c.num);
        assert Arrive(c) in own;
      }
    } else {
      NothingReleased(w);
      NothingLostInTurn([], w, Frontier([] + [Flush], w));
      assert InTurn([]) == [];
    }
  }
}
