/** Every way a log comes about: items are added, and then the list is finished or one
    reply ends it. What such a log looks like, how long it is, and how it is read. */
module Answers {
  import opened Text
  import opened JsonText
  import opened Frames
  import opened Reassembly
  import opened SpoolBudget
  import W = Spooling
  import Log = SpoolLog
  import R = Assembling

  datatype End = Finished(status: Status) | Reply(record: map<Text, Json>)

  /** One use of a spool from its creation on. */
  datatype Answer = Answer(id: Text, limit: nat, open: bool, items: seq<Json>, end: End, synced: bool)

  function Before(w: W.Host, a: Answer): W.State { Log.Adds(w, W.Created(a.id, a.limit, a.open), a.items) }

  function Outcome(w: W.Host, a: Answer): (W.State, Status) {
    match a.end
    case Finished(status) => W.Finish(w, Before(w, a), status, a.synced)
    case Reply(record) => W.Single(w, Before(w, a), record, a.synced)
  }

  /** What callers see to: a reply is a result or an error of this request, and ends a
      list only if that has gone well so far. */
  predicate Proper(w: W.Host, a: Answer) {
    && a.limit <= UINT64_MAX
    && (a.end.Reply? ==>
          && Sendable(a.id, a.end.record) && IsTerminal(Obj(a.end.record))
          && (a.items == [] || Before(w, a).status.Ok()))
  }

  /** Before it is ended, a log is a beginning of the items, none of them torn. */
  lemma BeforeIsDumped(w: W.Host, a: Answer)
    ensures var s := Before(w, a);
            && Log.Dumped(s, a.items) && s.id == a.id && s.limit == a.limit && s.open == a.open
            && (a.items == [] || s.status.Ok() ==> Log.Clean(s))
  {
    hide Dump, Lines, Log.Inv, W.Add;
    Log.CreatedIsClean(a.id, a.limit, a.open);
    Log.AddsShape(w, W.Created(a.id, a.limit, a.open), a.items);
  }

  // ---- Shape ----

  /** The accepted items in order, then one record that ends the log: the reply, or what
      the spool has to say about the list. */
  ghost predicate ItemsThenEnd(w: W.Host, a: Answer) {
    var s, t := Before(w, a), Outcome(w, a).0;
    && |s.records| == s.items <= |a.items| && |t.frames| > 0
    && (forall i :: 0 <= i < s.items ==> s.records[i] == Log.ItemRecord(a.id, a.items, i))
    && match a.end
       case Finished(status) => Log.HonestEnd(s, t, a.items, status)
       case Reply(record) => Log.Replied(s, t, record)
  }

  /** A log that is finished without a complaint is complete: nothing else is in the file. */
  lemma AnswerIsComplete(w: W.Host, a: Answer)
    requires Proper(w, a) && Outcome(w, a).1.Ok()
    ensures ItemsThenEnd(w, a) && Log.CompleteLog(a.id, Outcome(w, a).0.frames)
    ensures Outcome(w, a).0.file == Lines(Outcome(w, a).0.frames)
  {
    hide Dump, Lines, Log.Inv, Log.Adds, W.Finish, W.Single, Log.ItemRecord, Log.HonestEnd, Log.Replied,
         Log.CompleteLog, Before, Ascii;
    BeforeIsDumped(w, a);
    var s, t := Before(w, a), Outcome(w, a).0;
    match a.end
    case Finished(status) =>
      Log.FinishIsHonest(w, s, a.items, status, a.synced);
      Log.DumpIsCompleteLog(s, t, a.items, status);
      EndKeepsId(w, a);
      NotEmpty(a.id, t.frames);
    case Reply(record) =>
      SendableHasId(a.id, record);
      Log.SingleIsFinished(w, s, record, a.synced);
      Log.SingleIsCompleteLog(s, t, record);
      RepliedId(s, t, record);
      NotEmpty(a.id, t.frames);
  }

  lemma NotEmpty(id: Text, frames: seq<Json>)
    requires Log.CompleteLog(id, frames)
    ensures |frames| > 0
  {
  }

  lemma RepliedId(s: W.State, t: W.State, record: map<Text, Json>)
    requires Log.Replied(s, t, record)
    ensures t.id == s.id
  {
  }

  lemma EndKeepsId(w: W.Host, a: Answer)
    requires a.end.Finished?
    ensures Outcome(w, a).0.id == Before(w, a).id
  {
    hide Dump, Ascii, W.Terminal, Before;
  }

  // ---- Size ----

  /** A status of the backend that leaves the reserve sufficient. */
  predicate Short(status: Status) { status.Ok() || StatusSize(status) <= 800 }

  /** The reasons for which an add fails are the spool's own. */
  lemma {:induction false} AddsFailure(w: W.Host, s: W.State, items: seq<Json>)
    requires s.status.Ok() || s.status == W.NOT_CREATED
    ensures var status := Log.Adds(w, s, items).status;
            status.Ok() || Log.Storage(Log.Adds(w, s, items)) || status == W.QUOTA_EXCEEDED || status == W.TOO_LARGE
    decreases |items|
  {
    hide W.WriteRecord, Ascii, Dump;
    Log.StatusCodes();
    if items != [] {
      var before := Log.Adds(w, s, items[..|items| - 1]);
      AddsFailure(w, s, items[..|items| - 1]);
      Log.RecordFailure(w, before, ChunkRecord(before.id, items[|items| - 1]));
      AddStatus(w, before, items[|items| - 1]);
    }
  }

  lemma AddStatus(w: W.Host, s: W.State, item: Json)
    ensures var t := W.Add(w, s, item).0;
            t.status == s.status || t.status == W.WriteRecord(w, s, ChunkRecord(s.id, item)).0.status
  {
    hide W.WriteRecord, ChunkRecord, Ascii;
  }

  /** Every item takes a frame. */
  lemma {:induction false} ItemsBelowFrames(id: Text, items: seq<Json>)
    ensures |items| <= Log.FrameTotal(id, items)
    decreases |items|
  {
    hide Log.FrameCount, ChunkRecord;
    if items != [] {
      ItemsBelowFrames(id, items[..|items| - 1]);
    }
  }

  /** A finished file keeps to its limit. */
  lemma AnswerFits(w: W.Host, a: Answer)
    requires Proper(w, a) && Outcome(w, a).1.Ok()
    requires IsId(a.id) && a.limit >= W.TERMINAL_RESERVE && (a.end.Finished? ==> Short(a.end.status))
    ensures |Outcome(w, a).0.file| <= a.limit && |Outcome(w, a).0.frames| <= a.limit
  {
    hide Dump, Lines, Log.Inv, Log.Adds, W.Finish, W.Single, Log.ItemRecord, Log.HonestEnd, Log.Replied,
         Log.CompleteLog, Before, Ascii;
    AnswerIsComplete(w, a);
    BeforeIsDumped(w, a);
    var s, t := Before(w, a), Outcome(w, a).0;
    match a.end
    case Finished(status) => FinishedFits(w, a, status);
    case Reply(record) => ReplyFits(s, t, record);
  }

  lemma FramesBelowBytes(s: W.State)
    requires Log.Clean(s)
    ensures |s.frames| <= |s.file| && |s.file| == s.bytes
  {
  }

  lemma ReplyFits(s: W.State, t: W.State, record: map<Text, Json>)
    requires Log.Replied(s, t, record) && IsId(s.id) && W.TERMINAL_RESERVE <= s.limit <= UINT64_MAX
    ensures |t.file| <= s.limit && |t.frames| <= s.limit
  {
    hide Dump, Lines, Log.Inv, Log.Clean, Ascii, StatusSize, Log.AllPartial, ErrorRecord;
    FramesBelowBytes(t);
    OwnStatusSize(W.QUOTA_EXCEEDED);
    OwnStatusSize(W.TOO_LARGE);
    ErrorSize(s.id, W.QUOTA_EXCEEDED, |t.frames| - 1);
    ErrorSize(s.id, W.TOO_LARGE, |t.frames| - 1);
  }

  lemma FinishedFits(w: W.Host, a: Answer, status: Status)
    requires Outcome(w, a).1.Ok() && a.end == Finished(status) && Short(status) && Log.Dumped(Before(w, a), a.items)
    requires IsId(a.id) && Before(w, a).id == a.id && W.TERMINAL_RESERVE <= a.limit == Before(w, a).limit
    requires a.limit <= UINT64_MAX
    ensures |Outcome(w, a).0.file| <= a.limit && |Outcome(w, a).0.frames| <= a.limit
  {
    hide Dump, Lines, Log.Inv, W.Finish, Ascii, W.Terminal, Log.ItemRecord, Log.FrameTotal, Log.HonestEnd, Before;
    var s, t := Before(w, a), Outcome(w, a).0;
    Log.FinishIsHonest(w, s, a.items, status, a.synced);
    Log.InvCounts(s);
    FinishFrames(w, s, status, a.synced);
    HonestSize(s, t, a.items, status);
    TerminalSize(w, a, status);
  }

  lemma FinishFrames(w: W.Host, s: W.State, status: Status, synced: bool)
    ensures var (t, final) := W.Finish(w, s, status, synced);
            final.Ok() ==> t.frames == s.frames + [Numbered(W.Terminal(s, status), s.seq_)]
  {
    hide Dump, Ascii, W.Terminal;
    Log.StatusCodes();
  }

  lemma HonestSize(s: W.State, t: W.State, items: seq<Json>, status: Status)
    requires Log.HonestEnd(s, t, items, status) && s.limit >= W.TERMINAL_RESERVE
    ensures |t.frames| > 0 && (|Dump(t.frames[|t.frames| - 1])| < W.TERMINAL_RESERVE ==> |t.file| <= s.limit)
  {
    hide Dump, Lines, Ascii;
  }

  lemma TerminalSize(w: W.Host, a: Answer, status: Status)
    requires Outcome(w, a).1.Ok() && a.end == Finished(status) && Short(status) && Log.Dumped(Before(w, a), a.items)
    requires IsId(a.id) && Before(w, a).id == a.id && Before(w, a).seq_ <= UINT64_MAX
    ensures |Dump(Numbered(W.Terminal(Before(w, a), status), Before(w, a).seq_))| < W.TERMINAL_RESERVE
  {
    hide Dump, Log.Inv, Ascii, Log.ItemRecord, Log.FrameTotal, StatusSize;
    var s := Before(w, a);
    AddsFailure(w, W.Created(a.id, a.limit, a.open), a.items);
    if s.status.Ok() && status.Ok() {
      ItemsBelowFrames(s.id, a.items);
      CompleteSize(s.id, s.seq_, s.items, s.seq_);
    } else if s.status.Ok() {
      ErrorSize(s.id, status, s.seq_);
    } else {
      OwnStatusSize(s.status);
      ErrorSize(s.id, s.status, s.seq_);
    }
  }

  // ---- Short replies ----

  function Alone(id: Text, open: bool, record: map<Text, Json>, synced: bool): Answer {
    Answer(id, SPOOL_BYTES, open, [], Reply(record), synced)
  }

  lemma ShortIsWhole(record: map<Text, Json>, n: nat)
    requires SEQ !in record && |W.Line(record, n)| <= 4096
    ensures !W.Fragmented(record)
  {
    hide Dump, Ascii;
    InsertSize(record, SEQ, Num(n));
  }

  /** Only the disk can refuse a short reply; otherwise it is all there is in the file. */
  lemma ShortReply(w: W.Host, id: Text, open: bool, record: map<Text, Json>, synced: bool)
    requires SEQ !in record && |W.Line(record, 0)| <= 4096
    ensures var (t, final) := Outcome(w, Alone(id, open, record, synced));
            && (final.Ok() <==> open && synced && w.room(0) >= |W.Line(record, 0)|)
            && (final.Ok() ==> t.frames == t.records == [Numbered(record, 0)] && t.file == W.Line(record, 0))
  {
    hide Dump, Ascii, W.Line, Numbered, W.Fragmented, W.Terminal;
    ShortIsWhole(record, 0);
    Log.StatusCodes();
  }

  // ---- Reading it back ----

  /** Whatever was written as a record and is too large for a frame can be put together again. */
  ghost predicate Clear(w: W.Host, a: Answer) {
    && Before(w, a).items <= |a.items| && ItemsReadable(a.id, a.items, Before(w, a).items)
    && (a.end.Reply? && W.WriteRecord(w, Before(w, a), a.end.record).1 ==> Readable(a.end.record))
  }

  lemma BeforeIsFed(w: W.Host, r: R.Host, a: Answer)
    requires Paired(w, r) && a.limit <= UINT64_MAX
    ensures DumpFed(r, Before(w, a), a.items)
  {
    hide Dump, Lines, Log.Adds, Feed, Readable;
    Log.CreatedIsClean(a.id, a.limit, a.open);
    AddsFed(w, r, W.Created(a.id, a.limit, a.open), a.items);
  }

  /** Feeding a finished log delivers its records, or ends in a refusal when one of them
      cannot be put together. */
  lemma AnswerIsRead(w: W.Host, r: R.Host, a: Answer)
    requires Paired(w, r) && Proper(w, a) && Outcome(w, a).1.Ok()
    ensures Clear(w, a) ==> CaughtUp(r, Outcome(w, a).0.frames, Outcome(w, a).0.records)
    ensures !Clear(w, a) ==> Feed(r, Outcome(w, a).0.frames) == Broken
  {
    hide Dump, Lines, Log.Inv, Log.Adds, W.Finish, W.Single, W.WriteRecord, Log.ItemRecord, Before, Ascii, Feed,
         Readable, Sendable;
    BeforeIsDumped(w, a);
    BeforeIsFed(w, r, a);
    var s := Before(w, a);
    match a.end
    case Finished(status) => FinishFed(w, r, s, a.items, status, a.synced);
    case Reply(record) =>
      if ItemsReadable(a.id, a.items, s.items) {
        BeforeIsCaughtUp(w, r, a);
        SingleThenReassemble(w, r, s, record, a.synced);
      } else {
        SingleStaysBroken(w, r, s, record, a.synced);
      }
  }

  lemma BeforeIsCaughtUp(w: W.Host, r: R.Host, a: Answer)
    requires DumpFed(r, Before(w, a), a.items) && Before(w, a).id == a.id
    requires (a.items == [] || Before(w, a).status.Ok()) && ItemsReadable(a.id, a.items, Before(w, a).items)
    ensures CaughtUp(r, Before(w, a).frames, Before(w, a).records)
  {
    hide Dump, Feed, W.Add, Readable;
    if a.items == [] {
      FeedNothing(r);
    }
  }

  /** One terminal record, at the end. */
  ghost predicate OneEnd(records: seq<Json>) {
    && |records| > 0 && IsTerminal(records[|records| - 1])
    && forall i :: 0 <= i < |records| - 1 ==> !IsTerminal(records[i])
  }

  lemma AnswerEndsOnce(w: W.Host, a: Answer)
    requires Proper(w, a) && ItemsThenEnd(w, a)
    ensures OneEnd(Outcome(w, a).0.records)
  {
    hide Dump, Lines, Log.Inv, Log.Adds, W.Finish, W.Single, Log.ItemRecord, Log.Clean, Before, Ascii, Numbered,
         ErrorRecord, IsTerminal, Log.AllPartial, HasType;
    var s, t := Before(w, a), Outcome(w, a).0;
    forall i | 0 <= i < s.items ensures !IsTerminal(s.records[i]) {
      ItemIsNoEnd(a.id, a.items, i);
    }
    match a.end
    case Finished(status) =>
      assert IsTerminal(t.records[|t.records| - 1]) && t.records[..|t.records| - 1] == s.records by {
        FinishedEnd(s, t, a.items, status);
      }
    case Reply(record) =>
      assert IsTerminal(t.records[|t.records| - 1]) && t.records[..|t.records| - 1] == s.records by {
        ReplyEnd(s, t, record);
      }
  }

  lemma FinishedEnd(s: W.State, t: W.State, items: seq<Json>, status: Status)
    requires Log.HonestEnd(s, t, items, status)
    ensures |t.records| > 0 && IsTerminal(t.records[|t.records| - 1]) && t.records[..|t.records| - 1] == s.records
  {
    hide Dump, Lines, Ascii, HasType;
  }

  lemma ReplyEnd(s: W.State, t: W.State, record: map<Text, Json>)
    requires Log.Replied(s, t, record) && IsTerminal(Obj(record))
    ensures |t.records| > 0 && IsTerminal(t.records[|t.records| - 1]) && t.records[..|t.records| - 1] == s.records
  {
    hide Dump, Lines, Ascii, HasType, Log.Inv, Log.Clean, ErrorRecord, Numbered;
    Log.ErrorEnds(s.id, W.QUOTA_EXCEEDED, |t.frames| - 1);
    Log.ErrorEnds(s.id, W.TOO_LARGE, |t.frames| - 1);
    Log.TypeKept(record, |t.frames| - 1, COMPLETE);
    Log.TypeKept(record, |t.frames| - 1, RESULT);
    Log.TypeKept(record, |t.frames| - 1, ERROR);
  }

  lemma ItemIsNoEnd(id: Text, items: seq<Json>, i: nat)
    requires i < |items|
    ensures !IsTerminal(Log.ItemRecord(id, items, i))
  {
    hide Log.FrameTotal;
    NamesDiffer();
    assert CHUNK != COMPLETE && CHUNK != RESULT && SEQ != TYPE;
  }
}
