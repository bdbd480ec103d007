/**
  What a rendering says about itself: which losses, damages and artifacts it records and
  reports, and what exactly makes a strict rendering fail.
 */
module Reports {
  import opened Basics
  import opened ReorderLaw
  import opened ReorderBuffers
  import opened Rendering
  import opened RenderingTheorems
  import opened Transmission

  // ---------------------------------------------------------------------------
  // Losses
  // ---------------------------------------------------------------------------

  /** The numbers recorded as lost on stream `k`, in order. */
  ghost function LostOn(missing: seq<MissingChunk>, k: StreamKind): seq<nat>
  {
    if missing == [] then []
    else
      var last := missing[|missing| - 1];
      LostOn(missing[..|missing| - 1], k) + if last.stream == k then [last.num] else []
  }

  /** The numbers reported as lost on stream `k` in that mode's words, in order. */
  ghost function ReportedOn(err: seq<Notice>, k: StreamKind, strict: bool): seq<nat>
  {
    if err == [] then []
    else
      var last := err[|err| - 1];
      ReportedOn(err[..|err| - 1], k, strict) +
      if last.MissingNotice? && last.gap.stream == k && last.strict == strict then [last.gap.num] else []
  }

  lemma LostPush(missing: seq<MissingChunk>, m: MissingChunk, k: StreamKind)
    ensures LostOn(missing + [m], k) == LostOn(missing, k) + if m.stream == k then [m.num] else []
  {
    assert (missing + [m])[..|missing|] == missing;
  }

  lemma ReportedPush(err: seq<Notice>, n: Notice, k: StreamKind, strict: bool)
    ensures ReportedOn(err + [n], k, strict) == ReportedOn(err, k, strict) +
      if n.MissingNotice? && n.gap.stream == k && n.strict == strict then [n.gap.num] else []
  {
    assert (err + [n])[..|err|] == err;
  }

  lemma {:induction false} OthersReportNothing(err: seq<Notice>, more: seq<Notice>, k: StreamKind, strict: bool)
    requires forall n | n in more :: !n.MissingNotice?
    ensures ReportedOn(err + more, k, strict) == ReportedOn(err, k, strict)
  {
    if more == [] {
      assert err + more == err;
    } else {
      var init, n := more[..|more| - 1], more[|more| - 1];
      assert n in more && forall u | u in init :: u in more;
      OthersReportNothing(err, init, k, strict);
      ReportedPush(err + init, n, k, strict);
      assert err + more == err + init + [n];
    }
  }

  lemma LossStep(con: Console, a: Action, k: StreamKind, strict: bool, x: Codec)
    ensures var con' := Perform(con, a, strict, x);
      var lost := if a.Declare? && a.gap.stream == k then [a.gap.num] else [];
      && LostOn(con'.missing, k) == LostOn(con.missing, k) + lost
      && ReportedOn(con'.err, k, strict) == ReportedOn(con.err, k, strict) + lost
  {
    hide LostOn, ReportedOn, Intact, DecodeChunk;
    match a
    case Render(c) =>
      var more := (if strict && !Intact(c, x) then [InvalidNotice(c)] else []) + ChunkErr(c, x);
      OthersReportNothing(con.err, more, k, strict);
      assert Perform(con, a, strict, x).err == con.err + more;
    case Declare(m) =>
      LostPush(con.missing, m, k);
      ReportedPush(con.err, MissingNotice(m, strict), k, strict);
    case Announce(f) =>
      var more := [ArtifactNotice(f)] + TailNotice(f, x);
      OthersReportNothing(con.err, more, k, strict);
      assert Perform(con, a, strict, x).err == con.err + more;
  }

  lemma {:induction false} LossesFrom(con: Console, log: seq<Action>, k: StreamKind, strict: bool, x: Codec)
    ensures var con' := Replay(con, log, strict, x);
      && LostOn(con'.missing, k) == LostOn(con.missing, k) + DeclaredOn(log, k)
      && ReportedOn(con'.err, k, strict) == ReportedOn(con.err, k, strict) + DeclaredOn(log, k)
    decreases |log|
  {
    hide LostOn, ReportedOn, Perform;
    if log != [] {
      LossStep(con, log[0], k, strict, x);
      LossesFrom(Perform(con, log[0], strict, x), log[1..], k, strict, x);
    }
  }

  /**
    In either mode the losses recorded on a stream, and those reported on stderr, are
    exactly the numbers that the law of that stream's own arrivals gives up, in order.
   */
  lemma LossesAreReported(frames: seq<Frame>, w: nat, order: seq<StreamKind>, k: StreamKind, strict: bool, x: Codec)
    requires IsOrder(order)
    ensures var con := Replay(BLANK, Log(frames, w, order), strict, x);
      LostOn(con.missing, k) == ReportedOn(con.err, k, strict) == LostNumbers(OwnArrivals(frames, k) + [Flush], w)
  {
    hide Replay, LogFrom, LostNumbers, DeclaredOn, RenderedOn, Project, Accepted;
    LossesFrom(BLANK, Log(frames, w, order), k, strict, x);
    EachStreamAlone(frames, w, order, k);
  }

  // ---------------------------------------------------------------------------
  // Artifacts
  // ---------------------------------------------------------------------------

  /** The artifacts that came in before the terminal frame, in order. */
  ghost function ArtifactsIn(frames: seq<Frame>, n: nat): seq<Artifact>
    requires n <= |frames|
  {
    if n == 0 then []
    else ArtifactsIn(frames, n - 1) + if frames[n - 1].ArtifactFrame? then [frames[n - 1].artifact] else []
  }

  ghost function Announced(log: seq<Action>): seq<Artifact>
  {
    if log == [] then [] else (if log[0].Announce? then [log[0].artifact] else []) + Announced(log[1..])
  }

  lemma {:induction false} AnnouncedConcat(a: seq<Action>, b: seq<Action>)
    ensures Announced(a + b) == Announced(a) + Announced(b)
  {
    if a == [] {
      assert a + b == b;
    } else {
      var c := a + b;
      assert c[0] == a[0] && c[1..] == a[1..] + b;
      AnnouncedConcat(a[1..], b);
      var first, rest, later := if a[0].Announce? then [a[0].artifact] else [], Announced(a[1..]), Announced(b);
      assert first + rest + later == first + (rest + later);
    }
  }

  lemma {:induction false} NoneAnnounced(log: seq<Action>)
    requires forall a | a in log :: !a.Announce?
    ensures Announced(log) == []
  {
    if log != [] {
      assert log[0] in log;
      NoneAnnounced(log[1..]);
    }
  }

  lemma ArtifactStep(con: Console, a: Action, strict: bool, x: Codec)
    ensures Perform(con, a, strict, x).artifacts == con.artifacts + if a.Announce? then [a.artifact] else []
  {
    hide Intact, DecodeChunk, ChunkOut, ChunkErr, TailOut, TailNotice;
    assert con.artifacts + [] == con.artifacts;
  }

  lemma {:induction false} ArtifactsRecorded(con: Console, log: seq<Action>, strict: bool, x: Codec)
    ensures Replay(con, log, strict, x).artifacts == con.artifacts + Announced(log)
    decreases |log|
  {
    hide Perform;
    if log == [] {
      assert con.artifacts + [] == con.artifacts;
    } else {
      ArtifactStep(con, log[0], strict, x);
      ArtifactsRecorded(Perform(con, log[0], strict, x), log[1..], strict, x);
      var first, rest := if log[0].Announce? then [log[0].artifact] else [], Announced(log[1..]);
      assert con.artifacts + first + rest == con.artifacts + (first + rest);
    }
  }

  lemma {:induction false} AnnouncedFrom(frames: seq<Frame>, i: nat, h: seq<Event>, w: nat, order: seq<StreamKind>)
    requires i <= |frames|
    ensures ArtifactsIn(frames, i) + Announced(LogFrom(frames, i, h, w, order)) ==
      ArtifactsIn(frames, FinishIndex(frames, i))
    decreases |frames| - i
  {
    hide NewlyReleased, NewlyLost, Project, Tagged, FlushReady, FlushMissing, Renders, Declares, Announced;
    if i == |frames| || frames[i].FinishedFrame? {
      NoAnnouncements(FlushReady(h, w, order), FlushMissing(h, w, order));
      NoneAnnounced(FlushLog(h, w, order));
    } else if frames[i].ChunkFrame? {
      var c := frames[i].chunk;
      var own := Project(h, c.stream);
      NoAnnouncements(NewlyReleased(own, w, Arrive(c)), Tagged(c.stream, NewlyLost(own, w, Arrive(c))));
      NoneAnnounced(AcceptLog(h, w, c));
      var rest := LogFrom(frames, i + 1, h + [Arrive(c)], w, order);
      AnnouncedConcat(AcceptLog(h, w, c), rest);
      AnnouncedFrom(frames, i + 1, h + [Arrive(c)], w, order);
    } else {
      var f, rest := frames[i].artifact, LogFrom(frames, i + 1, h, w, order);
      AnnouncedConcat([Announce(f)], rest);
      assert Announced([Announce(f)]) == [f] by { OneAnnounced(f); }
      AnnouncedFrom(frames, i + 1, h, w, order);
      assert ArtifactsIn(frames, i) + ([f] + Announced(rest)) == ArtifactsIn(frames, i) + [f] + Announced(rest);
    }
  }

  lemma OneAnnounced(f: Artifact)
    ensures Announced([Announce(f)]) == [f]
  {
    assert [Announce(f)][1..] == [];
  }

  /** The artifacts recorded are those that came in before the terminal frame, in order. */
  lemma ArtifactsAreRecorded(frames: seq<Frame>, w: nat, order: seq<StreamKind>, strict: bool, x: Codec)
    ensures Replay(BLANK, Log(frames, w, order), strict, x).artifacts == ArtifactsIn(frames, FinishIndex(frames, 0))
  {
    hide Replay, LogFrom, Announced;
    ArtifactsRecorded(BLANK, Log(frames, w, order), strict, x);
    AnnouncedFrom(frames, 0, [], w, order);
  }

  // ---------------------------------------------------------------------------
  // Damage
  // ---------------------------------------------------------------------------

  /** The chunk says base64 and is not, or carries a digest that its bytes do not have. */
  ghost predicate Damaged(c: Chunk, x: Codec)
  {
    || (c.encoding == "base64" && x.base64(c.data) == None)
    || (c.sha256.Some? && exists bytes | Carries(c, x, bytes) :: x.digest(bytes) != c.sha256.value)
  }

  lemma IntactIffUndamaged(c: Chunk, x: Codec)
    ensures Intact(c, x) <==> !Damaged(c, x)
  {
    DecodedIsCarried(c, x);
  }

  /** What stream `k` renders in the end, as the law of its own arrivals has it. */
  ghost function Shown(frames: seq<Frame>, w: nat, k: StreamKind): seq<Chunk>
  {
    Released(OwnArrivals(frames, k) + [Flush], w)
  }

  /** A strict rendering fails if and only if some stream lost a number or rendered a damaged chunk. */
  lemma StrictFailsIff(frames: seq<Frame>, w: nat, order: seq<StreamKind>, x: Codec)
    requires IsOrder(order)
    ensures Replay(BLANK, Log(frames, w, order), true, x).failed <==>
      exists k: StreamKind ::
        LostNumbers(OwnArrivals(frames, k) + [Flush], w) != [] || exists c | c in Shown(frames, w, k) :: Damaged(c, x)
    ensures !Replay(BLANK, Log(frames, w, order), false, x).failed
  {
    hide Replay, LogFrom, Damaged, Intact, Project, Accepted, Released, LostNumbers, RenderedOn, DeclaredOn;
    var log := Log(frames, w, order);
    StrictOnlyReports(BLANK, BLANK, log, x);
    forall k: StreamKind
      ensures DeclaredOn(log, k) == LostNumbers(OwnArrivals(frames, k) + [Flush], w)
      ensures RenderedOn(log, k) == Shown(frames, w, k)
    {
      EachStreamAlone(frames, w, order, k);
    }
    if Replay(BLANK, log, true, x).failed {
      StrictFailureMeansDamage(frames, w, order, x);
      var k: StreamKind :| DeclaredOn(log, k) != [] || (exists c | c in RenderedOn(log, k) :: !Intact(c, x));
      forall c | c in RenderedOn(log, k)
        ensures Intact(c, x) <==> !Damaged(c, x)
      {
        IntactIffUndamaged(c, x);
      }
      assert LostNumbers(OwnArrivals(frames, k) + [Flush], w) != [] ||
        exists c | c in Shown(frames, w, k) :: Damaged(c, x);
    }
    forall k: StreamKind |
      LostNumbers(OwnArrivals(frames, k) + [Flush], w) != [] || exists c | c in Shown(frames, w, k) :: Damaged(c, x)
      ensures Tainted(log, x)
    {
      DeclaredTaints(log, x, k);
      if c :| c in Shown(frames, w, k) && Damaged(c, x) {
        IntactIffUndamaged(c, x);
        assert Render(c) in log && Taints(Render(c), x);
      }
    }
  }

  lemma {:induction false} DamageFrom(con: Console, log: seq<Action>, c: Chunk, strict: bool, x: Codec)
    ensures InvalidNotice(c) in Replay(con, log, strict, x).err <==>
      InvalidNotice(c) in con.err || (strict && Render(c) in log && !Intact(c, x))
    decreases |log|
  {
    hide Intact, DecodeChunk;
    if log != [] {
      DamageFrom(Perform(con, log[0], strict, x), log[1..], c, strict, x);
      assert log == [log[0]] + log[1..];
    }
  }

  /** A chunk is reported as invalid if and only if the mode is strict and it was rendered damaged. */
  lemma DamageIsReported(frames: seq<Frame>, w: nat, order: seq<StreamKind>, c: Chunk, strict: bool, x: Codec)
    requires IsOrder(order)
    ensures InvalidNotice(c) in Replay(BLANK, Log(frames, w, order), strict, x).err <==>
      strict && c in Shown(frames, w, c.stream) && Damaged(c, x)
  {
    hide Replay, LogFrom, Damaged, Intact, Project, Accepted, Released, RenderedOn, DeclaredOn;
    var log := Log(frames, w, order);
    DamageFrom(BLANK, log, c, strict, x);
    EachStreamAlone(frames, w, order, c.stream);
    DeclaredTaints(log, x, c.stream);
    IntactIffUndamaged(c, x);
    if Render(c) in log {
      FoundOn(log, Render(c));
    }
  }
}
