/**
  The transcript of a phase: text parts arrive as deltas, as growing full texts and, at the
  end, as an authoritative replay, and are written once each. The record is kept as a log
  of pieces, each with its owner, and every fact about text, file and parts is read off it.
 */
module Transcripts {
  import opened Basics

  datatype Owner = Part(id: string) | Break | Note | ToolNote(key: string)

  datatype Piece = Piece(owner: Owner, s: string)

  datatype Event =
    | Delta(id: string, s: string)
    | Full(id: string, s: string)
    | Said(s: string)
    | Once(key: string, s: string)
    | End

  // ---------------------------------------------------------------------------
  // The log
  // ---------------------------------------------------------------------------

  /** What is recorded of part `id`. */
  ghost function Own(log: seq<Piece>, id: string): string
  {
    if log == [] then ""
    else
      var p := log[|log| - 1];
      Own(log[..|log| - 1], id) + if p.owner == Part(id) then p.s else ""
  }

  /** The transcript text: parts and line breaks, without notes. */
  ghost function Text(log: seq<Piece>): string
  {
    if log == [] then ""
    else
      var p := log[|log| - 1];
      Text(log[..|log| - 1]) + if p.owner.Part? || p.owner.Break? then p.s else ""
  }

  /** The transcript file: everything. */
  ghost function File(log: seq<Piece>): string
  {
    if log == [] then "" else File(log[..|log| - 1]) + log[|log| - 1].s
  }

  ghost predicate HasToolNote(log: seq<Piece>, key: string)
  {
    exists p | p in log :: p.owner == ToolNote(key)
  }

  predicate EndsLine(text: string)
  {
    text == "" || text[|text| - 1] == '\n'
  }

  /** What an event adds to the log. */
  ghost function Adds(log: seq<Piece>, e: Event): seq<Piece>
  {
    match e
    case Delta(id, s) => if s == "" then [] else [Piece(Part(id), s)]
    case Full(id, s) => if |s| > |Own(log, id)| then [Piece(Part(id), s[|Own(log, id)|..])] else []
    case Said(s) => if s == "" then [] else [Piece(Note, s)]
    case Once(key, s) => if HasToolNote(log, key) then [] else [Piece(ToolNote(key), s)]
    case End => if EndsLine(Text(log)) then [] else [Piece(Break, "\n")]
  }

  ghost function Log(h: seq<Event>): seq<Piece>
  {
    if h == [] then [] else Log(h[..|h| - 1]) + Adds(Log(h[..|h| - 1]), h[|h| - 1])
  }

  lemma LogExtend(h: seq<Event>, e: Event)
    ensures Log(h + [e]) == Log(h) + Adds(Log(h), e)
  {
    assert (h + [e])[..|h|] == h;
  }

  /** The effect of one more piece. */
  lemma Push(log: seq<Piece>, p: Piece)
    ensures forall id :: Own(log + [p], id) == Own(log, id) + if p.owner == Part(id) then p.s else ""
    ensures Text(log + [p]) == Text(log) + if p.owner.Part? || p.owner.Break? then p.s else ""
    ensures File(log + [p]) == File(log) + p.s
    ensures forall key :: HasToolNote(log + [p], key) <==> HasToolNote(log, key) || p.owner == ToolNote(key)
  {
    assert (log + [p])[..|log|] == log;
    forall key
      ensures HasToolNote(log + [p], key) <==> HasToolNote(log, key) || p.owner == ToolNote(key)
    {
      if HasToolNote(log, key) {
        var q :| q in log && q.owner == ToolNote(key);
        assert q in log + [p];
      }
      assert p in log + [p];
    }
  }

  // ---------------------------------------------------------------------------
  // The accumulator
  // ---------------------------------------------------------------------------

  datatype FinalPart = TextPart(id: string, text: string) | ToolPart(id: string, note: string, ended: bool) | OtherPart

  /** What replaying a final part amounts to. */
  function ReplayOf(p: FinalPart): seq<Event>
  {
    match p
    case TextPart(id, text) => [Full(id, text), End]
    case ToolPart(id, note, ended) => if ended then [Once(id, note)] else []
    case OtherPart => []
  }

  function Replay(parts: seq<FinalPart>): seq<Event>
  {
    if parts == [] then [] else Replay(parts[..|parts| - 1]) + ReplayOf(parts[|parts| - 1])
  }

  class Transcript {
    var text: string
    var file: string
    var written: map<string, nat>
    var noted: set<string>
    ghost var history: seq<Event>

    ghost predicate Agrees(log: seq<Piece>)
      reads this
    {
      && text == Text(log) && file == File(log)
      && (forall id :: (if id in written then written[id] else 0) == |Own(log, id)|)
      && (forall key :: key in noted <==> HasToolNote(log, key))
    }

    ghost predicate Valid()
      reads this
    {
      Agrees(Log(history))
    }

    constructor ()
      ensures Valid() && history == []
    {
      text, file, written, noted, history := "", "", map[], {}, [];
    }

    method SayNote(s: string)
      requires Valid()
      modifies this
      ensures Valid() && history == old(history) + [Said(s)]
    {
      hide Own, Text, File, Log, HasToolNote;
      LogExtend(history, Said(s));
      ghost var log := Log(history);
      if s != "" {
        file := file + s;
        Push(log, Piece(Note, s));
      } else {
        assert log + [] == log;
      }
      history := history + [Said(s)];
    }

    method NoteOnce(key: string, s: string)
      requires Valid()
      modifies this
      ensures Valid() && history == old(history) + [Once(key, s)]
    {
      hide Own, Text, File, Log, HasToolNote;
      LogExtend(history, Once(key, s));
      ghost var log := Log(history);
      if key !in noted {
        noted := noted + {key};
        if s != "" {
          file := file + s;
        }
        Push(log, Piece(ToolNote(key), s));
        assert file == File(log) + s;
      } else {
        assert log + [] == log;
      }
      history := history + [Once(key, s)];
    }

    method AddDelta(id: string, s: string)
      requires Valid()
      modifies this
      ensures Valid() && history == old(history) + [Delta(id, s)]
    {
      hide Own, Text, File, Log, HasToolNote;
      LogExtend(history, Delta(id, s));
      ghost var log := Log(history);
      if s == "" {
        assert log + [] == log;
      } else {
        written := written[id := (if id in written then written[id] else 0) + |s|];
        text := text + s;
        file := file + s;
        Push(log, Piece(Part(id), s));
      }
      history := history + [Delta(id, s)];
    }

    method AddFull(id: string, full: string)
      requires Valid()
      modifies this
      ensures Valid() && history == old(history) + [Full(id, full)]
    {
      hide Own, Text, File, Log, HasToolNote;
      LogExtend(history, Full(id, full));
      ghost var log := Log(history);
      var seen := if id in written then written[id] else 0;
      if |full| > seen {
        var tail := full[seen..];
        written := written[id := |full|];
        text := text + tail;
        file := file + tail;
        Push(log, Piece(Part(id), tail));
      } else {
        assert log + [] == log;
      }
      history := history + [Full(id, full)];
    }

    method EndPart()
      requires Valid()
      modifies this
      ensures Valid() && history == old(history) + [End]
    {
      hide Own, Text, File, Log, HasToolNote;
      LogExtend(history, End);
      ghost var log := Log(history);
      if text != "" && text[|text| - 1] != '\n' {
        text := text + "\n";
        file := file + "\n";
        Push(log, Piece(Break, "\n"));
      } else {
        assert log + [] == log;
      }
      history := history + [End];
    }

    /** Replay the final parts. */
    method ReplayParts(parts: seq<FinalPart>)
      requires Valid()
      modifies this
      ensures Valid() && history == old(history) + Replay(parts)
    {
      hide Valid;
      assert history + [] == history;
      for i := 0 to |parts|
        invariant Valid() && history == old(history) + Replay(parts[..i])
      {
        assert parts[..i + 1][..i] == parts[..i] && parts[..i + 1][i] == parts[i];
        var part := parts[i];
        match part
        case TextPart(id, t) =>
          AddFull(id, t);
          EndPart();
          assert history == old(history) + Replay(parts[..i]) + [Full(id, t), End];
        case ToolPart(id, note, ended) =>
          if ended {
            NoteOnce(id, note);
          }
        case OtherPart =>
      }
      assert parts[..|parts|] == parts;
    }
  }

  // ---------------------------------------------------------------------------
  // A part's record against the server's text
  // ---------------------------------------------------------------------------

  /** What lands at position `at` is what the server's text has there. */
  ghost predicate Lands(piece: string, at: nat, server: string)
  {
    at + |piece| <= |server| && server[at..at + |piece|] == piece
  }

  /** The event, if it concerns part `id`, brings the server's own text for the place where it lands. */
  ghost predicate Aligned(log: seq<Piece>, e: Event, id: string, server: string)
  {
    var at := |Own(log, id)|;
    match e
    case Delta(i, s) => i == id ==> Lands(s, at, server)
    case Full(i, s) => i == id && |s| > at ==> Lands(s[at..], at, server)
    case _ => true
  }

  ghost predicate AllAligned(h: seq<Event>, id: string, server: string)
  {
    h == [] || (AllAligned(h[..|h| - 1], id, server) && Aligned(Log(h[..|h| - 1]), h[|h| - 1], id, server))
  }

  /** One event lengthens a part's record by what it brings, and leaves the others alone. */
  lemma OwnStep(h: seq<Event>, e: Event, id: string)
    ensures Own(Log(h + [e]), id) == Own(Log(h), id) +
      match e
      case Delta(i, s) => if i == id then s else ""
      case Full(i, s) => if i == id && |s| > |Own(Log(h), id)| then s[|Own(Log(h), id)|..] else ""
      case _ => ""
  {
    hide Own, Text, Log, HasToolNote;
    LogExtend(h, e);
    var log := Log(h);
    if Adds(log, e) == [] {
      assert log + [] == log;
    } else {
      Push(log, Adds(log, e)[0]);
    }
  }

  lemma PrefixGrows(a: string, b: string, server: string)
    ensures a + b <= server <==> a <= server && Lands(b, |a|, server)
  {
    if a <= server && Lands(b, |a|, server) {
      assert a + b == server[..|a| + |b|];
    }
    if a + b <= server {
      assert server[..|a| + |b|] == a + b;
      assert a == server[..|a|] && b == server[|a|..|a| + |b|];
    }
  }

  lemma Unfold(h: seq<Event>)
    requires h != []
    ensures h == h[..|h| - 1] + [h[|h| - 1]]
  {
  }

  /**
    What is recorded of a part is a prefix of the server's text exactly when every event
    about it brought the text for the place where it landed: deltas start at the length
    already written, full texts extend what was written.
   */
  lemma {:induction false} PrefixIffAligned(h: seq<Event>, id: string, server: string)
    ensures Own(Log(h), id) <= server <==> AllAligned(h, id, server)
  {
    hide Own, Log;
    if h == [] {
      assert Own(Log(h), id) == "" by { EmptyRecord(id); }
    } else {
      var before, e := h[..|h| - 1], h[|h| - 1];
      PrefixIffAligned(before, id, server);
      Unfold(h);
      OwnStep(before, e, id);
      var grown := Own(Log(h), id);
      PrefixGrows(Own(Log(before), id), grown[|Own(Log(before), id)|..], server);
      assert grown == Own(Log(before), id) + grown[|Own(Log(before), id)|..];
      if e.Full? {
        PrefixGrows(Own(Log(before), id), "", server);
      }
    }
  }

  lemma EmptyRecord(id: string)
    ensures Own(Log([]), id) == ""
  {
  }

  /** The record only grows. */
  lemma {:induction false} RecordGrows(h: seq<Event>, more: seq<Event>, id: string)
    ensures Own(Log(h), id) <= Own(Log(h + more), id)
  {
    hide Own, Log;
    if more == [] {
      assert h + more == h;
    } else {
      var before, e := more[..|more| - 1], more[|more| - 1];
      RecordGrows(h, before, id);
      OwnStep(h + before, e, id);
      assert h + more == h + before + [e];
    }
  }

  // ---------------------------------------------------------------------------
  // The final replay
  // ---------------------------------------------------------------------------

  lemma {:induction false} LogConcat(h: seq<Event>, more: seq<Event>, e: Event)
    ensures Log(h + (more + [e])) == Log(h + more) + Adds(Log(h + more), e)
  {
    assert h + (more + [e]) == h + more + [e];
    LogExtend(h + more, e);
  }

  /** After a replay, every text part in it is recorded at full length, every ended tool is noted. */
  lemma {:induction false} ReplayCovers(h: seq<Event>, parts: seq<FinalPart>)
    ensures var log := Log(h + Replay(parts));
      && (forall p | p in parts && p.TextPart? :: |p.text| <= |Own(log, p.id)| && EndsLine(Text(log)))
      && (forall p | p in parts && p.ToolPart? && p.ended :: HasToolNote(log, p.id))
  {
    hide Own, Text, Log, HasToolNote, EndsLine;
    if parts != [] {
      var before, last := parts[..|parts| - 1], parts[|parts| - 1];
      ReplayCovers(h, before);
      assert forall p | p in parts :: p in before || p == last;
      var so := h + Replay(before);
      assert h + Replay(parts) == so + ReplayOf(last);
      match last
      case TextPart(id, text) =>
        CoverText(so, id, text);
      case ToolPart(id, note, ended) =>
        if ended {
          CoverTool(so, id, note);
        } else {
          assert so + [] == so;
        }
      case OtherPart =>
        assert so + [] == so;
    }
  }

  lemma CoverText(h: seq<Event>, id: string, text: string)
    ensures var log := Log(h + [Full(id, text), End]);
      && |text| <= |Own(log, id)| && EndsLine(Text(log))
      && (forall i :: |Own(Log(h), i)| <= |Own(log, i)|)
      && (forall key :: HasToolNote(Log(h), key) ==> HasToolNote(log, key))
  {
    hide Own, Text, Log, HasToolNote;
    var mid := h + [Full(id, text)];
    LogExtend(h, Full(id, text));
    LogExtend(mid, End);
    assert h + [Full(id, text), End] == mid + [End];
    AddOne(Log(h), Full(id, text));
    AddOne(Log(mid), End);
  }

  lemma CoverTool(h: seq<Event>, id: string, note: string)
    ensures var log := Log(h + [Once(id, note)]);
      && HasToolNote(log, id) && Text(log) == Text(Log(h))
      && (forall i :: |Own(Log(h), i)| <= |Own(log, i)|)
      && (forall key :: HasToolNote(Log(h), key) ==> HasToolNote(log, key))
  {
    hide Own, Text, Log, HasToolNote;
    LogExtend(h, Once(id, note));
    AddOne(Log(h), Once(id, note));
  }

  /** An event adds at most one piece, whose effect is known. */
  lemma AddOne(log: seq<Piece>, e: Event)
    ensures var log' := log + Adds(log, e);
      && (Adds(log, e) == [] ==> log' == log)
      && (Adds(log, e) != [] ==>
            var p := Adds(log, e)[0];
            && (forall i :: Own(log', i) == Own(log, i) + if p.owner == Part(i) then p.s else "")
            && Text(log') == (Text(log) + if p.owner.Part? || p.owner.Break? then p.s else "")
            && (forall key :: HasToolNote(log', key) <==> HasToolNote(log, key) || p.owner == ToolNote(key)))
  {
    hide Own, Text, HasToolNote, EndsLine;
    if Adds(log, e) == [] {
      assert log + [] == log;
    } else {
      Push(log, Adds(log, e)[0]);
      assert Adds(log, e) == [Adds(log, e)[0]];
    }
  }

  /** Events that each add nothing add nothing together. */
  lemma {:induction false} IdleRun(h: seq<Event>, more: seq<Event>)
    requires forall e | e in more :: Adds(Log(h), e) == []
    ensures Log(h + more) == Log(h)
  {
    hide Adds, Log;
    if more == [] {
      assert h + more == h;
    } else {
      var before, e := more[..|more| - 1], more[|more| - 1];
      IdleRun(h, before);
      LogConcat(h, before, e);
      assert more == before + [e];
    }
  }

  lemma {:induction false} ReplayEvents(parts: seq<FinalPart>, e: Event)
    requires e in Replay(parts)
    ensures exists p | p in parts :: e in ReplayOf(p)
  {
    if parts != [] {
      var before, last := parts[..|parts| - 1], parts[|parts| - 1];
      if e in Replay(before) {
        ReplayEvents(before, e);
        var p :| p in before && e in ReplayOf(p);
        assert p in parts;
      } else {
        assert e in ReplayOf(last) && last in parts;
      }
    }
  }

  /** Whatever came before, replaying the same final parts again adds nothing to text or file. */
  lemma ReplayAgainAddsNothing(h: seq<Event>, parts: seq<FinalPart>)
    ensures Log(h + Replay(parts) + Replay(parts)) == Log(h + Replay(parts))
  {
    hide Own, Text, Log, HasToolNote, EndsLine, Replay;
    var once := h + Replay(parts);
    ReplayCovers(h, parts);
    forall e | e in Replay(parts)
      ensures Adds(Log(once), e) == []
    {
      ReplayEvents(parts, e);
      var p :| p in parts && e in ReplayOf(p);
    }
    IdleRun(once, Replay(parts));
  }

  /** The replay carries the server's text for part `id`. */
  ghost predicate Authoritative(parts: seq<FinalPart>, id: string, server: string)
  {
    && TextPart(id, server) in parts
    && forall p | p in parts && p.TextPart? && p.id == id :: p.text == server
  }

  lemma {:induction false} ReplayKeepsPrefix(h: seq<Event>, parts: seq<FinalPart>, id: string, server: string)
    requires forall p | p in parts && p.TextPart? && p.id == id :: p.text == server
    requires Own(Log(h), id) <= server
    ensures Own(Log(h + Replay(parts)), id) <= server
  {
    hide Own, Log;
    if parts == [] {
      assert h + Replay(parts) == h;
    } else {
      var before, last := parts[..|parts| - 1], parts[|parts| - 1];
      ReplayKeepsPrefix(h, before, id, server);
      var so := h + Replay(before);
      assert h + Replay(parts) == so + ReplayOf(last);
      assert last in parts;
      match last
      case TextPart(i, text) =>
        OwnStep(so, Full(i, text), id);
        OwnStep(so + [Full(i, text)], End, id);
        assert so + [Full(i, text), End] == so + [Full(i, text)] + [End];
        if i == id {
          CompletePrefix(Own(Log(so), id), server);
        }
      case ToolPart(i, note, ended) =>
        OwnStep(so, Once(i, note), id);
        assert so + [] == so;
      case OtherPart =>
        assert so + [] == so;
    }
  }

  lemma CompletePrefix(a: string, server: string)
    requires a <= server
    ensures a + server[|a|..] == server
  {
  }

  /**
    After the final replay a part's record is the server's text exactly when every event
    before it was aligned. So a delta that is dropped, repeated or out of place is not
    merely late: it stays in the record, and what it displaced is lost.
   */
  lemma ReplayIsExactIffAligned(h: seq<Event>, parts: seq<FinalPart>, id: string, server: string)
    requires Authoritative(parts, id, server)
    ensures Own(Log(h + Replay(parts)), id) == server <==> AllAligned(h, id, server)
  {
    hide Own, Log, Replay, AllAligned;
    PrefixIffAligned(h, id, server);
    ReplayCovers(h, parts);
    RecordGrows(h, Replay(parts), id);
    if Own(Log(h), id) <= server {
      ReplayKeepsPrefix(h, parts, id, server);
    }
  }

  /** Losing the first of two deltas garbles the record, and so does hearing it twice. */
  lemma DriftIsNotRepaired(id: string, x: char, y: char)
    requires x != y
    ensures Own(Log([Delta(id, [y])] + Replay([TextPart(id, [x, y])])), id) == [y, y]
    ensures Own(Log([Delta(id, [x]), Delta(id, [x])] + Replay([TextPart(id, [x, y])])), id) == [x, x]
  {
    hide Own, Log;
    var last := [Full(id, [x, y]), End];
    assert Replay([TextPart(id, [x, y])]) == last by {
      assert [TextPart(id, [x, y])][..0] == [];
    }
    EmptyRecord(id);
    var dropped := [Delta(id, [y])];
    OwnStep([], Delta(id, [y]), id);
    assert [] + dropped == dropped;
    OwnStep(dropped, Full(id, [x, y]), id);
    OwnStep(dropped + [Full(id, [x, y])], End, id);
    assert dropped + last == dropped + [Full(id, [x, y])] + [End];
    var one, twice := [Delta(id, [x])], [Delta(id, [x]), Delta(id, [x])];
    OwnStep([], Delta(id, [x]), id);
    assert [] + one == one;
    OwnStep(one, Delta(id, [x]), id);
    assert one + one == twice;
    OwnStep(twice, Full(id, [x, y]), id);
    OwnStep(twice + [Full(id, [x, y])], End, id);
    assert twice + last == twice + [Full(id, [x, y])] + [End];
  }

  // ---------------------------------------------------------------------------
  // Deliveries with their place in the server's text
  // ---------------------------------------------------------------------------

  /** What the server sends about a part: a slice of its text, or all of it up to a point. */
  datatype Delivery = Slice(offset: nat, len: nat) | UpTo(len: nat)

  ghost predicate Fits(d: Delivery, server: string)
  {
    if d.Slice? then d.offset + d.len <= |server| else d.len <= |server|
  }

  function EventOf(d: Delivery, id: string, server: string): Event
    requires Fits(d, server)
  {
    if d.Slice? then Delta(id, server[d.offset..d.offset + d.len]) else Full(id, server[..d.len])
  }

  function Events(ds: seq<Delivery>, id: string, server: string): seq<Event>
    requires forall d | d in ds :: Fits(d, server)
  {
    seq(|ds|, i requires 0 <= i < |ds| => assert ds[i] in ds; EventOf(ds[i], id, server))
  }

  /** How much of the part is written after the deliveries. */
  function LengthAfter(ds: seq<Delivery>): nat
  {
    if ds == [] then 0
    else
      var before, d := LengthAfter(ds[..|ds| - 1]), ds[|ds| - 1];
      if d.Slice? then before + d.len else if d.len > before then d.len else before
  }

  /** Every slice starts where what is written ends: none was lost, repeated or overtaken. */
  predicate InOrder(ds: seq<Delivery>)
  {
    ds == [] ||
    (InOrder(ds[..|ds| - 1]) && (ds[|ds| - 1].Slice? ==> ds[|ds| - 1].offset == LengthAfter(ds[..|ds| - 1])))
  }

  lemma EventsSplit(ds: seq<Delivery>, id: string, server: string)
    requires ds != [] && forall d | d in ds :: Fits(d, server)
    ensures forall d | d in ds[..|ds| - 1] :: Fits(d, server)
    ensures Fits(ds[|ds| - 1], server)
    ensures Events(ds, id, server) == Events(ds[..|ds| - 1], id, server) + [EventOf(ds[|ds| - 1], id, server)]
  {
    assert ds[|ds| - 1] in ds && forall d | d in ds[..|ds| - 1] :: d in ds;
  }

  lemma {:induction false} LengthIs(ds: seq<Delivery>, id: string, server: string)
    requires forall d | d in ds :: Fits(d, server)
    ensures |Own(Log(Events(ds, id, server)), id)| == LengthAfter(ds)
  {
    hide Own, Log, Events;
    if ds == [] {
      assert Events(ds, id, server) == [] by { NoEvents(ds, id, server); }
      EmptyRecord(id);
    } else {
      EventsSplit(ds, id, server);
      LengthIs(ds[..|ds| - 1], id, server);
      OwnStep(Events(ds[..|ds| - 1], id, server), EventOf(ds[|ds| - 1], id, server), id);
    }
  }

  lemma NoEvents(ds: seq<Delivery>, id: string, server: string)
    requires ds == []
    ensures Events(ds, id, server) == []
  {
  }

  /**
    Deliveries in order are aligned. In a text whose characters all differ only they are;
    otherwise a slice out of place goes unnoticed just when it says the same as the place
    where it lands.
   */
  lemma {:induction false} InOrderIsAligned(ds: seq<Delivery>, id: string, server: string)
    requires forall d | d in ds :: Fits(d, server) && (d.Slice? ==> d.len > 0)
    ensures InOrder(ds) ==> AllAligned(Events(ds, id, server), id, server)
    ensures NoDuplicates(server) && AllAligned(Events(ds, id, server), id, server) ==> InOrder(ds)
  {
    hide Own, Log, Events, NoDuplicates;
    if ds == [] {
      NoEvents(ds, id, server);
    } else {
      var before, d := ds[..|ds| - 1], ds[|ds| - 1];
      EventsSplit(ds, id, server);
      assert d in ds && forall x | x in before :: x in ds;
      InOrderIsAligned(before, id, server);
      LengthIs(before, id, server);
      var h := Events(before, id, server);
      assert (h + [EventOf(d, id, server)])[..|h|] == h;
      LandsInPlace(d, LengthAfter(before), server);
    }
  }

  lemma LandsInPlace(d: Delivery, at: nat, server: string)
    requires Fits(d, server) && (d.Slice? ==> d.len > 0)
    ensures d.Slice? && d.offset == at ==> Lands(server[d.offset..d.offset + d.len], at, server)
    ensures d.Slice? && NoDuplicates(server) && Lands(server[d.offset..d.offset + d.len], at, server) ==> d.offset == at
    ensures d.UpTo? && d.len > at ==> Lands(server[..d.len][at..], at, server)
  {
    if d.Slice? && NoDuplicates(server) && Lands(server[d.offset..d.offset + d.len], at, server) {
      assert server[at..at + d.len][0] == server[at];
      assert server[d.offset..d.offset + d.len][0] == server[d.offset];
    }
    if d.UpTo? && d.len > at {
      assert server[..d.len][at..] == server[at..d.len];
    }
  }

  // ---------------------------------------------------------------------------
  // The text the runner returns
  // ---------------------------------------------------------------------------

  function EndLine(text: string): string
  {
    if EndsLine(text) then text else text + "\n"
  }

  /** The parts in the order in which they are first written to, as long as none is returned to. */
  ghost function Parts(log: seq<Piece>): seq<string>
  {
    if log == [] then []
    else
      var before, p := Parts(log[..|log| - 1]), log[|log| - 1];
      if p.owner.Part? && (before == [] || before[|before| - 1] != p.owner.id) then before + [p.owner.id] else before
  }

  /** No part is written to again after another has been, and no line was ended yet. */
  ghost predicate OneByOne(log: seq<Piece>)
  {
    log == [] ||
    (var before, p := log[..|log| - 1], log[|log| - 1];
     && OneByOne(before) && !p.owner.Break?
     && (p.owner.Part? && p.owner.id in Parts(before) ==> Parts(before)[|Parts(before)| - 1] == p.owner.id))
  }

  ghost function Together(log: seq<Piece>, ids: seq<string>): string
  {
    if ids == [] then "" else Together(log, ids[..|ids| - 1]) + Own(log, ids[|ids| - 1])
  }

  lemma {:induction false} TogetherAgrees(a: seq<Piece>, b: seq<Piece>, ids: seq<string>)
    requires forall id | id in ids :: Own(a, id) == Own(b, id)
    ensures Together(a, ids) == Together(b, ids)
  {
    hide Own;
    if ids != [] {
      assert ids[|ids| - 1] in ids;
      TogetherAgrees(a, b, ids[..|ids| - 1]);
    }
  }

  /** What is not among the parts has nothing recorded. */
  lemma {:induction false} UnknownIsEmpty(log: seq<Piece>, id: string)
    ensures id !in Parts(log) ==> Own(log, id) == ""
  {
    if log != [] {
      UnknownIsEmpty(log[..|log| - 1], id);
    }
  }

  /** Writing to the last part, or to a new one, adds to the end of what they are together. */
  lemma TogetherGrows(before: seq<Piece>, log: seq<Piece>, others: seq<string>, id: string, s: string)
    requires forall x :: Own(log, x) == Own(before, x) + if x == id then s else ""
    requires id !in others
    ensures Together(log, others + [id]) == Together(before, others) + Own(before, id) + s
  {
    hide Own;
    assert (others + [id])[..|others|] == others;
    TogetherAgrees(before, log, others);
  }

  lemma TogetherLast(log: seq<Piece>, others: seq<string>, id: string)
    ensures Together(log, others + [id]) == Together(log, others) + Own(log, id)
  {
    hide Own;
    assert (others + [id])[..|others|] == others;
  }

  lemma OneMorePiece(log: seq<Piece>)
    requires log != [] && OneByOne(log)
    ensures var before, p := log[..|log| - 1], log[|log| - 1];
      && OneByOne(before) && !p.owner.Break?
      && (!p.owner.Part? ==> Parts(log) == Parts(before))
      && (p.owner.Part? && p.owner.id in Parts(before) ==>
            Parts(log) == Parts(before) == Parts(before)[..|Parts(before)| - 1] + [p.owner.id])
      && (p.owner.Part? && p.owner.id !in Parts(before) ==> Parts(log) == Parts(before) + [p.owner.id])
  {
  }

  lemma {:induction false} PartsDiffer(log: seq<Piece>)
    requires OneByOne(log)
    ensures NoDuplicates(Parts(log))
  {
    hide OneByOne;
    if log != [] {
      OneMorePiece(log);
      PartsDiffer(log[..|log| - 1]);
    }
  }

  lemma LastDiffers(ids: seq<string>)
    requires NoDuplicates(ids) && ids != []
    ensures ids[|ids| - 1] !in ids[..|ids| - 1]
  {
  }

  /** Parts that come one by one are returned one after the other, each as recorded. */
  lemma {:induction false} TextIsPartsInTurn(log: seq<Piece>)
    requires OneByOne(log)
    ensures Text(log) == Together(log, Parts(log))
  {
    hide Own, Text, Together, OneByOne, NoDuplicates;
    if log == [] {
      NothingTogether();
    } else {
      hide Parts;
      var before, p := log[..|log| - 1], log[|log| - 1];
      OneMorePiece(log);
      TextIsPartsInTurn(before);
      assert before + [p] == log;
      Push(before, p);
      var ids := Parts(before);
      if !p.owner.Part? {
        assert Text(before) + "" == Text(before);
        assert forall x :: Own(before, x) + "" == Own(before, x);
        TogetherAgrees(before, log, ids);
      } else if p.owner.id in ids {
        PartsDiffer(before);
        LastDiffers(ids);
        TogetherLast(before, ids[..|ids| - 1], p.owner.id);
        TogetherGrows(before, log, ids[..|ids| - 1], p.owner.id, p.s);
      } else {
        UnknownIsEmpty(before, p.owner.id);
        assert Together(before, ids) + "" == Together(before, ids);
        TogetherGrows(before, log, ids, p.owner.id, p.s);
      }
    }
  }

  lemma NothingTogether()
    ensures Text([]) == "" && Together([], []) == ""
  {
  }

  /** What is already there in full, the replay only finishes with a line break. */
  lemma StreamedThenReplayed(h: seq<Event>, parts: seq<FinalPart>)
    requires parts != [] && forall p | p in parts :: p.TextPart? && |p.text| <= |Own(Log(h), p.id)|
    ensures Text(Log(h + Replay(parts))) == EndLine(Text(Log(h)))
    decreases |parts|
  {
    hide Own, Text, Log, HasToolNote, EndsLine;
    var before, last := parts[..|parts| - 1], parts[|parts| - 1];
    assert last in parts && forall p | p in before :: p in parts;
    var so := h + Replay(before);
    assert h + Replay(parts) == so + ReplayOf(last);
    if before == [] {
      assert Replay(before) == [] && so == h;
    } else {
      StreamedThenReplayed(h, before);
      RecordGrows(h, Replay(before), last.id);
    }
    FinishesLine(so, last.id, last.text);
    EndLineOnce(Text(Log(h)));
  }

  lemma EndLineOnce(text: string)
    ensures EndsLine(EndLine(text)) && EndLine(EndLine(text)) == EndLine(text)
  {
  }

  lemma FinishesLine(h: seq<Event>, id: string, text: string)
    requires |text| <= |Own(Log(h), id)|
    ensures Text(Log(h + [Full(id, text), End])) == EndLine(Text(Log(h)))
  {
    hide Own, Text, Log, HasToolNote, EndsLine;
    var mid := h + [Full(id, text)];
    LogExtend(h, Full(id, text));
    AddOne(Log(h), Full(id, text));
    LogExtend(mid, End);
    AddOne(Log(mid), End);
    assert h + [Full(id, text), End] == mid + [End];
  }

  ghost predicate DifferentParts(parts: seq<FinalPart>)
  {
    forall i, j | 0 <= i < j < |parts| && parts[i].TextPart? && parts[j].TextPart? :: parts[i].id != parts[j].id
  }

  /** The part is not among the final ones. */
  ghost predicate Absent(parts: seq<FinalPart>, id: string)
  {
    forall p | p in parts && p.TextPart? :: p.id != id
  }

  /** What of a final text is not yet recorded. */
  ghost function Tail(log: seq<Piece>, id: string, text: string): string
  {
    if |text| > |Own(log, id)| then text[|Own(log, id)|..] else ""
  }

  /** The replay takes the final parts in turn, adds what is missing of each, and ends the line. */
  ghost function Finish(text: string, log: seq<Piece>, parts: seq<FinalPart>): string
  {
    if parts == [] then text
    else
      var before, p := Finish(text, log, parts[..|parts| - 1]), parts[|parts| - 1];
      if p.TextPart? then EndLine(before + Tail(log, p.id, p.text)) else before
  }

  lemma {:induction false} NotReplayed(h: seq<Event>, parts: seq<FinalPart>, id: string)
    requires Absent(parts, id)
    ensures Own(Log(h + Replay(parts)), id) == Own(Log(h), id)
  {
    hide Own, Log;
    if parts == [] {
      assert h + Replay(parts) == h;
    } else {
      var before, last := parts[..|parts| - 1], parts[|parts| - 1];
      assert last in parts && forall p | p in before :: p in parts;
      NotReplayed(h, before, id);
      var so := h + Replay(before);
      assert h + Replay(parts) == so + ReplayOf(last);
      match last
      case TextPart(i, text) =>
        OwnStep(so, Full(i, text), id);
        OwnStep(so + [Full(i, text)], End, id);
        assert so + [Full(i, text), End] == so + [Full(i, text)] + [End];
      case ToolPart(i, note, ended) =>
        OwnStep(so, Once(i, note), id);
        assert so + [] == so;
      case OtherPart =>
        assert so + [] == so;
    }
  }

  lemma WritesTail(h: seq<Event>, id: string, text: string)
    ensures Text(Log(h + [Full(id, text), End])) == EndLine(Text(Log(h)) + Tail(Log(h), id, text))
  {
    hide Own, Text, Log, HasToolNote, EndsLine;
    var mid := h + [Full(id, text)];
    LogExtend(h, Full(id, text));
    AddOne(Log(h), Full(id, text));
    if Tail(Log(h), id, text) == "" {
      assert Text(Log(h)) + "" == Text(Log(h));
    }
    LogExtend(mid, End);
    AddOne(Log(mid), End);
    assert h + [Full(id, text), End] == mid + [End];
  }

  /** What the text is after the final replay, whatever had been streamed before. */
  lemma {:induction false} ReplayFinishes(h: seq<Event>, parts: seq<FinalPart>)
    requires DifferentParts(parts)
    ensures Text(Log(h + Replay(parts))) == Finish(Text(Log(h)), Log(h), parts)
  {
    hide Own, Text, Log, EndLine, Tail;
    if parts == [] {
      assert h + Replay(parts) == h;
    } else {
      var before, last := parts[..|parts| - 1], parts[|parts| - 1];
      ReplayFinishes(h, before);
      var so := h + Replay(before);
      assert h + Replay(parts) == so + ReplayOf(last);
      match last
      case TextPart(id, text) =>
        assert Absent(before, id);
        SameTail(h, before, id, text);
        WritesTail(so, id, text);
      case ToolPart(id, note, ended) =>
        CoverTool(so, id, note);
        assert so + [] == so;
      case OtherPart =>
        assert so + [] == so;
    }
  }

  lemma SameTail(h: seq<Event>, parts: seq<FinalPart>, id: string, text: string)
    requires Absent(parts, id)
    ensures Tail(Log(h + Replay(parts)), id, text) == Tail(Log(h), id, text)
  {
    hide Own, Log;
    NotReplayed(h, parts, id);
  }

  /** The final parts, each on lines of its own. */
  function Lines(parts: seq<FinalPart>): string
  {
    if parts == [] then ""
    else
      var before, p := Lines(parts[..|parts| - 1]), parts[|parts| - 1];
      if p.TextPart? then EndLine(before + p.text) else before
  }

  lemma {:induction false} FinishNothing(parts: seq<FinalPart>)
    ensures Finish("", [], parts) == Lines(parts)
  {
    hide EndLine;
    if parts != [] {
      FinishNothing(parts[..|parts| - 1]);
      if parts[|parts| - 1].TextPart? {
        var text := parts[|parts| - 1].text;
        assert Own([], parts[|parts| - 1].id) == "" && text[0..] == text;
      }
    }
  }

  /** When no event ever came, the replay alone returns the final parts, each on lines of its own. */
  lemma ReplayAlone(parts: seq<FinalPart>)
    requires DifferentParts(parts)
    ensures Text(Log(Replay(parts))) == Lines(parts)
  {
    hide Finish, Lines;
    ReplayFinishes([], parts);
    assert [] + Replay(parts) == Replay(parts);
    FinishNothing(parts);
  }

  /**
    A part streamed only in part can be broken up: after "x" of one part and "y" of the
    next, a replay that brings the rest, "z", of the latter returns x, y, a line break, z
    and a line break.
   */
  lemma HalfStreamedIsBrokenUp(a: string, b: string, x: char, y: char, z: char)
    requires a != b && x != '\n' && y != '\n' && z != '\n'
    ensures Text(Log([Delta(a, [x]), Delta(b, [y])] + Replay([TextPart(a, [x]), TextPart(b, [y, z])]))) ==
      [x, y, '\n', z, '\n']
  {
    hide Own, Text, Log;
    var one, h, parts := [Delta(a, [x])], [Delta(a, [x]), Delta(b, [y])], [TextPart(a, [x]), TextPart(b, [y, z])];
    LogExtend([], Delta(a, [x]));
    LogExtend(one, Delta(b, [y]));
    assert [] + one == one && one + [Delta(b, [y])] == h;
    EmptyRecord(a);
    EmptyRecord(b);
    NoText();
    AddOne(Log([]), Delta(a, [x]));
    AddOne(Log(one), Delta(b, [y]));
    ReplayFinishes(h, parts);
    assert parts[..1] == [TextPart(a, [x])] && parts[..1][..0] == [];
    assert Finish(Text(Log(h)), Log(h), parts[..1]) == [x, y, '\n'];
  }

  lemma NoText()
    ensures Text(Log([])) == ""
  {
  }

  // ---------------------------------------------------------------------------
  // Notes
  // ---------------------------------------------------------------------------

  /** The notes in the log, in order. */
  ghost function NotesIn(log: seq<Piece>): seq<string>
  {
    if log == [] then []
    else
      var p := log[|log| - 1];
      NotesIn(log[..|log| - 1]) + if InText(p) then [] else [p.s]
  }

  /** What was said, and the first note of each tool, in order. */
  ghost function Noted(h: seq<Event>): seq<string>
  {
    if h == [] then []
    else
      var before := h[..|h| - 1];
      Noted(before) +
      match h[|h| - 1]
      case Said(s) => if s == "" then [] else [s]
      case Once(key, s) => if exists e | e in before && e.Once? :: e.key == key then [] else [s]
      case _ => []
  }

  lemma ToolNotedStep(log: seq<Piece>, e: Event, key: string)
    ensures HasToolNote(log + Adds(log, e), key) <==> HasToolNote(log, key) || (e.Once? && e.key == key)
  {
    hide Own, Text, File, HasToolNote, EndsLine;
    if Adds(log, e) == [] {
      assert log + [] == log;
    } else {
      Push(log, Adds(log, e)[0]);
      assert Adds(log, e) == [Adds(log, e)[0]];
    }
  }

  lemma {:induction false} ToolNoted(h: seq<Event>, key: string)
    ensures HasToolNote(Log(h), key) <==> exists e | e in h && e.Once? :: e.key == key
  {
    hide HasToolNote, Adds;
    if h == [] {
      NoToolNote(key);
    } else {
      var before, last := h[..|h| - 1], h[|h| - 1];
      ToolNoted(before, key);
      ToolNotedStep(Log(before), last, key);
      assert h == before + [last] && last in h;
    }
  }

  lemma NoToolNote(key: string)
    ensures !HasToolNote([], key)
  {
  }

  lemma NotesPush(log: seq<Piece>, p: Piece)
    ensures NotesIn(log + [p]) == NotesIn(log) + if InText(p) then [] else [p.s]
  {
    assert (log + [p])[..|log|] == log;
  }

  /** Besides the text the file holds what was said and one note for each tool, in order, and nothing else. */
  lemma {:induction false} NotesAreKept(h: seq<Event>)
    ensures NotesIn(Log(h)) == Noted(h)
  {
    hide Own, Text, File, HasToolNote, EndsLine, NotesIn;
    if h == [] {
      assert NotesIn([]) == [] by { NoNotes(); }
    } else {
      var before, last := h[..|h| - 1], h[|h| - 1];
      NotesAreKept(before);
      var log := Log(before);
      if last.Once? {
        ToolNoted(before, last.key);
      }
      if Adds(log, last) == [] {
        assert log + [] == log;
      } else {
        NotesPush(log, Adds(log, last)[0]);
        assert Adds(log, last) == [Adds(log, last)[0]];
      }
    }
  }

  lemma NoNotes()
    ensures NotesIn([]) == []
  {
  }

  // ---------------------------------------------------------------------------
  // When a part comes out in one piece
  // ---------------------------------------------------------------------------

  predicate InText(p: Piece)
  {
    p.owner.Part? || p.owner.Break?
  }

  /** Nothing else was written to the text between two pieces of the part. */
  ghost predicate InOnePiece(log: seq<Piece>, id: string)
  {
    forall i, j, k | 0 <= i < j < k < |log| && log[i].owner == Part(id) && log[k].owner == Part(id) && InText(log[j]) ::
      log[j].owner == Part(id)
  }

  /** Nothing else was written to the text since the part began, if it did. */
  ghost predicate StillOn(log: seq<Piece>, id: string)
  {
    forall i, j | 0 <= i < j < |log| && log[i].owner == Part(id) && InText(log[j]) :: log[j].owner == Part(id)
  }

  lemma OnePiecePush(log: seq<Piece>, p: Piece, id: string)
    ensures InOnePiece(log + [p], id) <==> InOnePiece(log, id) && (p.owner == Part(id) ==> StillOn(log, id))
  {
    var more := log + [p];
    assert forall i | 0 <= i < |log| :: more[i] == log[i];
    if InOnePiece(more, id) && p.owner == Part(id) {
      forall i, j | 0 <= i < j < |log| && log[i].owner == Part(id) && InText(log[j])
        ensures log[j].owner == Part(id)
      {
        assert more[i] == log[i] && more[j] == log[j] && more[|log|] == p;
      }
    }
    if InOnePiece(more, id) {
      forall i, j, k | 0 <= i < j < k < |log| && log[i].owner == Part(id) && log[k].owner == Part(id) && InText(log[j])
        ensures log[j].owner == Part(id)
      {
        assert more[i] == log[i] && more[j] == log[j] && more[k] == log[k];
      }
    }
  }

  /** One event decides it only if it adds to the part. */
  lemma OnePieceStep(h: seq<Event>, e: Event, id: string)
    requires e.Delta? ==> e.id != id
    ensures InOnePiece(Log(h + [e]), id) <==>
      InOnePiece(Log(h), id) && (e.Full? && e.id == id && Tail(Log(h), id, e.s) != "" ==> StillOn(Log(h), id))
  {
    hide Own, Text, Log, HasToolNote, EndsLine, InOnePiece, StillOn;
    LogExtend(h, e);
    var log := Log(h);
    if Adds(log, e) == [] {
      assert log + [] == log;
    } else {
      OnePiecePush(log, Adds(log, e)[0], id);
      assert Adds(log, e) == [Adds(log, e)[0]];
    }
  }

  lemma OnePiecePart(h: seq<Event>, p: FinalPart, id: string)
    ensures InOnePiece(Log(h + ReplayOf(p)), id) <==>
      InOnePiece(Log(h), id) &&
      (p.TextPart? && p.id == id && Tail(Log(h), id, p.text) != "" ==> StillOn(Log(h), id))
  {
    hide Log, InOnePiece, StillOn, Tail;
    match p
    case TextPart(i, text) =>
      OnePieceStep(h, Full(i, text), id);
      OnePieceStep(h + [Full(i, text)], End, id);
      assert h + [Full(i, text), End] == h + [Full(i, text)] + [End];
    case ToolPart(i, note, ended) =>
      OnePieceStep(h, Once(i, note), id);
      assert h + [] == h;
    case OtherPart =>
      assert h + [] == h;
  }

  lemma {:induction false} OnePieceOthers(h: seq<Event>, parts: seq<FinalPart>, id: string)
    requires Absent(parts, id)
    ensures InOnePiece(Log(h + Replay(parts)), id) <==> InOnePiece(Log(h), id)
  {
    hide Log, InOnePiece, StillOn, Tail;
    if parts == [] {
      assert h + Replay(parts) == h;
    } else {
      var before, last := parts[..|parts| - 1], parts[|parts| - 1];
      assert last in parts && forall p | p in before :: p in parts;
      OnePieceOthers(h, before, id);
      OnePiecePart(h + Replay(before), last, id);
      assert h + Replay(parts) == h + Replay(before) + ReplayOf(last);
    }
  }

  lemma {:induction false} ReplaySplits(parts: seq<FinalPart>, n: nat)
    requires n <= |parts|
    ensures Replay(parts) == Replay(parts[..n]) + Replay(parts[n..])
  {
    hide ReplayOf;
    if n == |parts| {
      assert parts[..n] == parts && Replay(parts) + [] == Replay(parts);
    } else {
      var before := parts[..|parts| - 1];
      ReplaySplits(before, n);
      assert before[..n] == parts[..n];
      assert parts[n..][..|parts[n..]| - 1] == before[n..];
    }
  }

  lemma ReplayNext(parts: seq<FinalPart>, n: nat)
    requires n < |parts|
    ensures Replay(parts[..n + 1]) == Replay(parts[..n]) + ReplayOf(parts[n])
  {
    assert parts[..n + 1][..n] == parts[..n];
  }

  lemma ReplayAround(h: seq<Event>, parts: seq<FinalPart>, n: nat)
    requires n < |parts|
    ensures h + Replay(parts) == h + Replay(parts[..n]) + ReplayOf(parts[n]) + Replay(parts[n + 1..])
  {
    hide Replay, ReplayOf;
    ReplaySplits(parts, n + 1);
    ReplayNext(parts, n);
  }

  /**
    After the final replay part number `n` stands in the text in one piece if and only if
    it did before, and either nothing of it was missing or, when its turn came, nothing
    else had been written since it began.
   */
  lemma OnePieceIff(h: seq<Event>, parts: seq<FinalPart>, n: nat)
    requires DifferentParts(parts) && n < |parts| && parts[n].TextPart?
    ensures var id := parts[n].id;
      InOnePiece(Log(h + Replay(parts)), id) <==>
        && InOnePiece(Log(h), id)
        && (Tail(Log(h), id, parts[n].text) == "" || StillOn(Log(h + Replay(parts[..n])), id))
  {
    hide Log, InOnePiece, StillOn, Tail, ReplayOf, Replay;
    var p, before, rest := parts[n], parts[..n], parts[n + 1..];
    assert Absent(before, p.id) && Absent(rest, p.id);
    var so := h + Replay(before);
    ReplayAround(h, parts, n);
    OnePieceOthers(h, before, p.id);
    SameTail(h, before, p.id, p.text);
    OnePiecePart(so, p, p.id);
    OnePieceOthers(so + ReplayOf(p), rest, p.id);
  }
}
