/**
  Rendering a forwarded exec stream: frames in, bytes and notices out, with the outcome
  the caller turns into an exit status. What is done is one sequence of actions, fixed by
  the frames, the window and the iteration order of the stream table; strictness decides
  only how the actions are reported.
 */
module Rendering {
  import opened Basics
  import opened ReorderLaw
  import opened ReorderBuffers

  const EXIT_PROTOCOL_FAILURE := 128

  /** Base64, UTF-8 bytes and digests, as far as rendering depends on them. */
  datatype Codec = Codec(base64: string -> Option<seq<bv8>>, bytes: string -> seq<bv8>, digest: seq<bv8> -> string)

  datatype Artifact = Artifact(stream: StreamKind, name: string, uri: string, tailPreview: string)
  datatype ExecFinished = ExecFinished(exitCode: Option<int>, signal: Option<string>, truncated: bool)
  datatype Frame = ChunkFrame(chunk: Chunk) | ArtifactFrame(artifact: Artifact) | FinishedFrame(finished: ExecFinished)

  datatype Config = Config(reorderWindow: nat, strict: bool)

  datatype Outcome = Outcome(exitCode: Option<int>, missing: seq<MissingChunk>, integrityFailure: bool,
                             artifacts: seq<Artifact>, truncated: bool)

  /** What stderr receives. */
  datatype Notice =
    | Bytes(bytes: seq<bv8>)
    | MissingNotice(gap: MissingChunk, strict: bool)
    | InvalidNotice(chunk: Chunk)
    | ArtifactNotice(artifact: Artifact)
    | PreviewFollows

  datatype Action = Render(chunk: Chunk) | Declare(gap: MissingChunk) | Announce(artifact: Artifact)

  // ---------------------------------------------------------------------------
  // Single chunks
  // ---------------------------------------------------------------------------

  function SignalNumber(name: string): (n: Option<nat>)
    ensures n.Some? ==> 0 < n.value < 16
  {
    match name
    case "SIGHUP" => Some(1)
    case "SIGINT" => Some(2)
    case "SIGQUIT" => Some(3)
    case "SIGILL" => Some(4)
    case "SIGABRT" => Some(6)
    case "SIGIOT" => Some(6)
    case "SIGFPE" => Some(8)
    case "SIGKILL" => Some(9)
    case "SIGSEGV" => Some(11)
    case "SIGPIPE" => Some(13)
    case "SIGALRM" => Some(14)
    case "SIGTERM" => Some(15)
    case _ => None
  }

  /**
    The status fits a byte and is zero for a clean exit alone. A finish without an exit
    code gives 128 or more, and 128 itself just when no known signal is named.
   */
  function ResolveExitCode(f: ExecFinished): (code: int)
    ensures 0 <= code < 256 && (code == 0 <==> f.exitCode == Some(0))
    ensures f.exitCode.Some? && 0 <= f.exitCode.value < 256 ==> code == f.exitCode.value
    ensures f.exitCode == None ==>
      code >= 128 && (code == 128 <==> f.signal == None || SignalNumber(f.signal.value) == None)
    ensures f.exitCode == None && f.signal.Some? && SignalNumber(f.signal.value).Some? ==>
      code == 128 + SignalNumber(f.signal.value).value
  {
    match f.exitCode
    case Some(code) => if 0 <= code < 256 then code else 1
    case None =>
      match f.signal
      case Some(name) =>
        (match SignalNumber(name)
         case Some(n) => 128 + n
         case None => EXIT_PROTOCOL_FAILURE)
      case None => EXIT_PROTOCOL_FAILURE
  }

  /** A status above 128 names the signal, up to the one that has two names. */
  lemma StatusNamesTheSignal(f: ExecFinished, g: ExecFinished)
    requires f.exitCode == None && g.exitCode == None && ResolveExitCode(f) == ResolveExitCode(g) > 128
    ensures f.signal == g.signal || {f.signal, g.signal} == {Some("SIGABRT"), Some("SIGIOT")}
  {
    var a, b := f.signal.value, g.signal.value;
    assert SignalNumber(a) == SignalNumber(b) && SignalNumber(a).Some?;
    if SignalNumber(a) == Some(6) {
      assert (a == "SIGABRT" || a == "SIGIOT") && (b == "SIGABRT" || b == "SIGIOT");
    } else {
      assert a == b;
    }
  }

  /** The numbers that POSIX and the common platforms give to these signals. */
  const SIGNALS: map<string, nat> :=
    map["SIGHUP" := 1, "SIGINT" := 2, "SIGQUIT" := 3, "SIGILL" := 4, "SIGABRT" := 6, "SIGIOT" := 6, "SIGFPE" := 8,
        "SIGKILL" := 9, "SIGSEGV" := 11, "SIGPIPE" := 13, "SIGALRM" := 14, "SIGTERM" := 15]

  /** The status of a death by signal, name by name. */
  lemma SignalStatus(f: ExecFinished)
    requires f.exitCode == None && f.signal.Some?
    ensures ResolveExitCode(f) == 128 + if f.signal.value in SIGNALS then SIGNALS[f.signal.value] else 0
  {
    var name := f.signal.value;
    assert SignalNumber(name) == if name in SIGNALS then Some(SIGNALS[name]) else None;
  }

  function DecodeChunk(c: Chunk, x: Codec): seq<bv8>
  {
    if c.encoding == "base64" then
      match x.base64(c.data)
      case Some(bytes) => bytes
      case None => x.bytes(c.data)
    else x.bytes(c.data)
  }

  predicate Intact(c: Chunk, x: Codec)
  {
    && (c.encoding == "base64" ==> x.base64(c.data).Some?)
    && (c.sha256.Some? ==> x.digest(DecodeChunk(c, x)) == c.sha256.value)
  }

  function ChunkOut(c: Chunk, x: Codec): seq<bv8>
  {
    if c.data != "" && (c.stream == Stdout || c.stream == Pty) then DecodeChunk(c, x) else []
  }

  function ChunkErr(c: Chunk, x: Codec): seq<Notice>
  {
    if c.data != "" && c.stream == Stderr then [Bytes(DecodeChunk(c, x))] else []
  }

  // ---------------------------------------------------------------------------
  // What a sequence of actions leaves behind
  // ---------------------------------------------------------------------------

  /** The two outputs and the mutable part of the outcome. */
  datatype Console = Console(out: seq<bv8>, err: seq<Notice>, missing: seq<MissingChunk>, failed: bool,
                             artifacts: seq<Artifact>)

  function Perform(con: Console, a: Action, strict: bool, x: Codec): Console
  {
    match a
    case Render(c) =>
      var bad := strict && !Intact(c, x);
      con.(out := con.out + ChunkOut(c, x),
           err := con.err + (if bad then [InvalidNotice(c)] else []) + ChunkErr(c, x),
           failed := con.failed || bad)
    case Declare(m) =>
      con.(err := con.err + [MissingNotice(m, strict)],
           missing := con.missing + [m],
           failed := con.failed || strict)
    case Announce(f) =>
      con.(out := con.out + TailOut(f, x),
           err := con.err + [ArtifactNotice(f)] + TailNotice(f, x),
           artifacts := con.artifacts + [f])
  }

  function TailOut(f: Artifact, x: Codec): seq<bv8>
  {
    if f.tailPreview == "" || f.stream == Stderr then [] else x.bytes(f.tailPreview)
  }

  function TailNotice(f: Artifact, x: Codec): seq<Notice>
  {
    if f.tailPreview == "" then []
    else if f.stream != Stderr then [PreviewFollows]
    else [PreviewFollows, Bytes(x.bytes(f.tailPreview))]
  }

  /** The console after performing `log` on `con`. */
  ghost function Replay(con: Console, log: seq<Action>, strict: bool, x: Codec): Console
    decreases |log|
  {
    if log == [] then con else Replay(Perform(con, log[0], strict, x), log[1..], strict, x)
  }

  lemma {:induction false} ReplayConcat(con: Console, a: seq<Action>, b: seq<Action>, strict: bool, x: Codec)
    ensures Replay(con, a + b, strict, x) == Replay(Replay(con, a, strict, x), b, strict, x)
    decreases |a|
  {
    if a == [] {
      assert a + b == b;
    } else {
      assert (a + b)[1..] == a[1..] + b;
      ReplayConcat(Perform(con, a[0], strict, x), a[1..], b, strict, x);
    }
  }

  const BLANK := Console([], [], [], false, [])

  /** An action that breaks the promise of strict mode: a loss, or a chunk that is not intact. */
  predicate Taints(a: Action, x: Codec)
  {
    a.Declare? || (a.Render? && !Intact(a.chunk, x))
  }

  ghost predicate Tainted(log: seq<Action>, x: Codec)
  {
    exists a | a in log :: Taints(a, x)
  }

  /** The two consoles differ in nothing but what they say on stderr and the failure flag. */
  ghost predicate SameRecord(a: Console, b: Console)
  {
    a.out == b.out && a.missing == b.missing && a.artifacts == b.artifacts
  }

  /** Strictness changes neither stdout nor what is recorded; it alone raises the failure flag. */
  lemma {:induction false} StrictOnlyReports(con: Console, lax: Console, log: seq<Action>, x: Codec)
    requires SameRecord(con, lax) && !lax.failed
    ensures SameRecord(Replay(con, log, true, x), Replay(lax, log, false, x))
    ensures !Replay(lax, log, false, x).failed
    ensures Replay(con, log, true, x).failed <==> con.failed || Tainted(log, x)
    decreases |log|
  {
    if log != [] {
      StrictOnlyReports(Perform(con, log[0], true, x), Perform(lax, log[0], false, x), log[1..], x);
      assert log == [log[0]] + log[1..];
      assert Tainted(log, x) <==> Taints(log[0], x) || Tainted(log[1..], x);
    }
  }

  // ---------------------------------------------------------------------------
  // The actions the frames demand
  // ---------------------------------------------------------------------------

  function Renders(chunks: seq<Chunk>): seq<Action>
  {
    if chunks == [] then [] else [Render(chunks[0])] + Renders(chunks[1..])
  }

  function Declares(gaps: seq<MissingChunk>): seq<Action>
  {
    if gaps == [] then [] else [Declare(gaps[0])] + Declares(gaps[1..])
  }

  ghost function AcceptLog(h: seq<Event>, w: nat, c: Chunk): seq<Action>
  {
    Renders(NewlyReleased(Project(h, c.stream), w, Arrive(c))) +
    Declares(Tagged(c.stream, NewlyLost(Project(h, c.stream), w, Arrive(c))))
  }

  ghost function FlushLog(h: seq<Event>, w: nat, order: seq<StreamKind>): seq<Action>
  {
    Renders(FlushReady(h, w, order)) + Declares(FlushMissing(h, w, order))
  }

  /** Everything done from frame `i` on, the chunks of `h` having been accepted before. */
  ghost function LogFrom(frames: seq<Frame>, i: nat, h: seq<Event>, w: nat, order: seq<StreamKind>): seq<Action>
    requires i <= |frames|
    decreases |frames| - i
  {
    if i == |frames| || frames[i].FinishedFrame? then FlushLog(h, w, order)
    else
      match frames[i]
      case ChunkFrame(c) => AcceptLog(h, w, c) + LogFrom(frames, i + 1, h + [Arrive(c)], w, order)
      case ArtifactFrame(f) => [Announce(f)] + LogFrom(frames, i + 1, h, w, order)
  }

  ghost function Log(frames: seq<Frame>, w: nat, order: seq<StreamKind>): seq<Action>
  {
    LogFrom(frames, 0, [], w, order)
  }

  /** The first terminal frame, or the end of the frames. */
  ghost function FinishIndex(frames: seq<Frame>, i: nat): (r: nat)
    requires i <= |frames|
    ensures i <= r <= |frames|
    ensures r < |frames| ==> frames[r].FinishedFrame?
    ensures forall j | i <= j < r :: !frames[j].FinishedFrame?
    decreases |frames| - i
  {
    if i == |frames| || frames[i].FinishedFrame? then i else FinishIndex(frames, i + 1)
  }

  function EffectiveWindow(w: nat): nat { if w < 1 then 1 else w }

  // ---------------------------------------------------------------------------
  // The renderer
  // ---------------------------------------------------------------------------

  /** Check and write chunks in order. */
  method RenderReady(ready: seq<Chunk>, strict: bool, x: Codec, con0: Console) returns (con: Console)
    ensures con == Replay(con0, Renders(ready), strict, x)
  {
    con := con0;
    for i := 0 to |ready|
      invariant Replay(con, Renders(ready[i..]), strict, x) == Replay(con0, Renders(ready), strict, x)
    {
      var c := ready[i];
      ghost var before := con;
      assert before.err + [] == before.err;
      assert Renders(ready[i..]) == [Render(c)] + Renders(ready[i + 1..]);
      if strict && !Intact(c, x) {
        con := con.(err := con.err + [InvalidNotice(c)], failed := true);
      }
      con := con.(out := con.out + ChunkOut(c, x), err := con.err + ChunkErr(c, x));
      assert con == Perform(before, Render(c), strict, x);
    }
  }

  /** Report declared losses and record them. */
  method SurfaceMissing(detected: seq<MissingChunk>, strict: bool, ghost x: Codec, con0: Console)
    returns (con: Console)
    ensures con == Replay(con0, Declares(detected), strict, x)
  {
    con := con0;
    for i := 0 to |detected|
      invariant Replay(con, Declares(detected[i..]), strict, x) == Replay(con0, Declares(detected), strict, x)
    {
      var m := detected[i];
      assert Declares(detected[i..]) == [Declare(m)] + Declares(detected[i + 1..]);
      con := con.(err := con.err + [MissingNotice(m, strict)]);
      if strict {
        con := con.(failed := true);
      }
      con := con.(missing := con.missing + [m]);
    }
  }

  method RenderArtifact(f: Artifact, x: Codec, con0: Console) returns (con: Console)
    ensures forall strict :: con == Perform(con0, Announce(f), strict, x)
  {
    con := con0.(err := con0.err + [ArtifactNotice(f)]);
    if f.tailPreview != "" {
      con := con.(err := con.err + [PreviewFollows]);
      if f.stream == Stderr {
        con := con.(err := con.err + [Bytes(x.bytes(f.tailPreview))]);
      } else {
        con := con.(out := con.out + x.bytes(f.tailPreview));
      }
    }
    con := con.(artifacts := con.artifacts + [f]);
  }

  /** Render what the buffer handed over: the ready chunks first, then the losses. */
  method Handle(ready: seq<Chunk>, detected: seq<MissingChunk>, strict: bool, x: Codec, con0: Console)
    returns (con: Console)
    ensures con == Replay(con0, Renders(ready) + Declares(detected), strict, x)
  {
    con := RenderReady(ready, strict, x, con0);
    con := SurfaceMissing(detected, strict, x, con);
    ReplayConcat(con0, Renders(ready), Declares(detected), strict, x);
  }

  /** Handling the frame before the loop's next one leaves the same work in total. */
  lemma FrameStep(frames: seq<Frame>, i: nat, h: seq<Event>, w: nat, order: seq<StreamKind>,
                  con: Console, strict: bool, x: Codec)
    requires i < |frames| && !frames[i].FinishedFrame?
    ensures frames[i].ChunkFrame? ==>
      Replay(con, LogFrom(frames, i, h, w, order), strict, x) ==
      Replay(Replay(con, AcceptLog(h, w, frames[i].chunk), strict, x),
             LogFrom(frames, i + 1, h + [Arrive(frames[i].chunk)], w, order), strict, x)
    ensures frames[i].ArtifactFrame? ==>
      Replay(con, LogFrom(frames, i, h, w, order), strict, x) ==
      Replay(Perform(con, Announce(frames[i].artifact), strict, x), LogFrom(frames, i + 1, h, w, order), strict, x)
  {
    match frames[i]
    case ChunkFrame(c) =>
      ReplayConcat(con, AcceptLog(h, w, c), LogFrom(frames, i + 1, h + [Arrive(c)], w, order), strict, x);
    case ArtifactFrame(f) =>
  }

  /**
    Render the frames. The outcome and both outputs are what the one log that the frames
    demand leaves behind; `order` is the order in which the stream table is iterated.
   */
  method RenderStream(frames: seq<Frame>, config: Config, order: seq<StreamKind>, x: Codec)
    returns (outcome: Outcome, out: seq<bv8>, err: seq<Notice>)
    requires IsOrder(order)
    ensures Console(out, err, outcome.missing, outcome.integrityFailure, outcome.artifacts) ==
      Replay(BLANK, Log(frames, EffectiveWindow(config.reorderWindow), order), config.strict, x)
    ensures outcome.exitCode == (if FinishIndex(frames, 0) < |frames|
      then Some(ResolveExitCode(frames[FinishIndex(frames, 0)].finished)) else None)
    ensures outcome.truncated <==>
      FinishIndex(frames, 0) < |frames| && frames[FinishIndex(frames, 0)].finished.truncated
  {
    hide Replay, Perform, NewlyReleased, NewlyLost, Renders, Declares, ReorderBuffer.Valid;
    var strict := config.strict;
    var buf := new ReorderBuffer(config.reorderWindow);
    var con := BLANK;
    var i := 0;
    while i < |frames| && !frames[i].FinishedFrame?
      invariant i <= |frames| && FinishIndex(frames, 0) == FinishIndex(frames, i)
      invariant buf.Valid() && fresh(buf) && fresh(buf.streams.Values)
      invariant Replay(con, LogFrom(frames, i, buf.history, buf.window, order), strict, x) ==
                Replay(BLANK, Log(frames, buf.window, order), strict, x)
    {
      FrameStep(frames, i, buf.history, buf.window, order, con, strict, x);
      match frames[i] {
        case ChunkFrame(chunk) =>
          var ready, detected := buf.Accept(chunk);
          con := Handle(ready, detected, strict, x, con);
        case ArtifactFrame(f) =>
          con := RenderArtifact(f, x, con);
      }
      i := i + 1;
    }
    var ready, detected := buf.FlushStreams(order);
    con := Handle(ready, detected, strict, x, con);
    out, err := con.out, con.err;
    if i < |frames| {
      var finished := frames[i].finished;
      outcome := Outcome(Some(ResolveExitCode(finished)), con.missing, con.failed, con.artifacts, finished.truncated);
    } else {
      outcome := Outcome(None, con.missing, con.failed, con.artifacts, false);
    }
  }
}
