/** What every spooled log looks like, however many adds failed and wherever. */
module SpoolLog {
  import opened Text
  import opened JsonText
  import opened Frames
  import opened Spooling
  import Base64

  /** The items of a dump are added one by one; the outcome of each add is in the state. */
  function Adds(host: Host, s: State, items: seq<Json>): State
    decreases |items|
  {
    if items == [] then s
    else Add(host, Adds(host, s, items[..|items| - 1]), items[|items| - 1]).0
  }

  predicate Storage(s: State) { s.status.code == WRITE_FAILED.code }

  predicate FrameAt(id: Text, frame: Json, i: nat) {
    && frame.Obj? && SEQ in frame.m && frame.m[SEQ] == Num(i) && Addressed(id, frame.m)
    && |Dump(frame)| + 1 <= FRAME_BYTES
  }

  /** What every operation keeps: the file starts with the frames written in full,
      and holds nothing else unless a write failed; frames are numbered from zero;
      no frame is longer than a stream entry may be. */
  ghost predicate Inv(s: State) {
    && s.seq_ == |s.frames| <= s.bytes == |Lines(s.frames)|
    && Lines(s.frames) <= s.file
    && (!Storage(s) ==> s.file == Lines(s.frames))
    && forall i :: 0 <= i < |s.frames| ==> FrameAt(s.id, s.frames[i], i)
  }

  /** No write was torn. */
  ghost predicate Clean(s: State) { Inv(s) && s.file == Lines(s.frames) }

  /** Room for a terminal is left as long as only items were written. */
  predicate Reserved(s: State) { s.frames == [] || s.bytes + TERMINAL_RESERVE <= s.limit }

  /** Only chunks and pieces of records so far. */
  predicate Partial(frame: Json) { HasType(frame, CHUNK) || HasType(frame, FRAGMENT) }

  predicate AllPartial(frames: seq<Json>) { forall i :: 0 <= i < |frames| ==> Partial(frames[i]) }

  lemma StatusCodes()
    ensures QUOTA_EXCEEDED.code != WRITE_FAILED.code && TOO_LARGE.code != WRITE_FAILED.code
    ensures !QUOTA_EXCEEDED.Ok() && !TOO_LARGE.Ok() && !WRITE_FAILED.Ok() && !NOT_CREATED.Ok() && !NOT_PERSISTED.Ok()
    ensures NOT_CREATED.code == WRITE_FAILED.code
  {
  }

  /** Fields an operation leaves alone. */
  predicate SameSpool(s: State, t: State) {
    t.id == s.id && t.limit == s.limit && t.open == s.open
  }

  ghost predicate Wrote(s: State, t: State, ok: bool) {
    && Inv(t) && SameSpool(s, t) && s.frames <= t.frames
    && (ok ==> Clean(t) && t.status == s.status)
    && (!ok ==> !t.status.Ok() && t.records == s.records)
    && (Reserved(s) ==> Reserved(t))
  }

  lemma AddressKept(id: Text, frame: map<Text, Json>, n: nat)
    requires Addressed(id, frame)
    ensures Addressed(id, Numbered(frame, n).m)
  {
  }

  lemma WriteKeeps(host: Host, s: State, frame: map<Text, Json>)
    requires Clean(s) && Addressed(s.id, frame)
    ensures var (t, ok) := Write(host, s, frame, false);
            && Wrote(s, t, ok) && t.records == s.records && t.items == s.items
            && t.frames == (if ok then s.frames + [Numbered(frame, s.seq_)] else s.frames)
            && (ok ==> s.seq_ < s.limit)
  {
    hide Dump, Lines, Ascii;
    StatusCodes();
    LinesAppend(s.frames, Numbered(frame, s.seq_));
    AddressKept(s.id, frame, s.seq_);
    var (t, ok) := Write(host, s, frame, false);
    if ok {
      assert Line(frame, s.seq_) == Dump(Numbered(frame, s.seq_)) + [NEWLINE];
      assert t.file == Lines(t.frames);
    }
  }

  lemma InvCounts(s: State)
    requires Inv(s)
    ensures s.seq_ == |s.frames| <= s.bytes
    ensures s.frames == [] ==> s.bytes == 0
  {
  }

  /** The status, the item count and the record history are not on disk. */
  lemma InvOffDisk(s: State, t: State)
    requires Clean(s) && t == s.(status := t.status, items := t.items, records := t.records)
    ensures Inv(t) && Clean(t)
  {
  }

  /** Blocks needed for `n` bytes. */
  function Blocks(n: int): nat { if n <= 0 then 0 else (n + BLOCK - 1) / BLOCK }

  /** Fragments carry on from block to block. */
  lemma {:induction false} FragmentsKeep(host: Host, s: State, record: nat, text: Text, offset: nat)
    requires Clean(s)
    ensures var (t, ok) := WriteFragments(host, s, record, text, offset);
            && Wrote(s, t, ok) && t.records == s.records && t.items == s.items
            && (ok ==> |t.frames| == |s.frames| + Blocks(|text| - offset))
            && (AllPartial(s.frames) ==> AllPartial(t.frames))
    decreases |text| - offset
  {
    hide Dump, Lines, Ascii, Write, Inv, FragmentAt, Numbered, HasType;
    if offset < |text| {
      var frame := FragmentAt(host, s.id, record, text, offset);
      var (t, ok) := Write(host, s, frame, false);
      FragmentIsPartial(host, s.id, record, text, offset, s.seq_);
      WriteKeeps(host, s, frame);
      assert AllPartial(s.frames) ==> AllPartial(t.frames);
      if ok {
        FragmentsKeep(host, t, record, text, offset + BLOCK);
        assert Blocks(|text| - offset) == 1 + Blocks(|text| - (offset + BLOCK));
      }
    }
  }

  lemma FragmentIsPartial(host: Host, id: Text, record: nat, text: Text, offset: nat, n: nat)
    requires offset <= |text|
    ensures HasType(Numbered(FragmentAt(host, id, record, text, offset), n), FRAGMENT)
    ensures Addressed(id, FragmentAt(host, id, record, text, offset))
  {
    hide Base64.Encode;
    NamesDiffer();
  }

  /** How many frames a record takes. */
  function FrameCount(record: map<Text, Json>): (n: nat)
    ensures n > 0
  {
    if Fragmented(record) then Blocks(|Dump(Obj(record))|) else 1
  }

  /** What writing a record in full leaves behind. */
  ghost predicate WroteRecord(s: State, t: State, ok: bool, record: map<Text, Json>) {
    && Wrote(s, t, ok) && t.items == s.items
    && (ok ==> |t.frames| == |s.frames| + FrameCount(record))
    && (ok ==> t.records == s.records + [Numbered(record, |t.frames| - 1)])
    && (AllPartial(s.frames) && (HasType(Obj(record), CHUNK) || Fragmented(record) || !ok) ==> AllPartial(t.frames))
  }

  lemma NotedKeeps(s: State, t: State, ok: bool, record: map<Text, Json>)
    requires Clean(s) && Wrote(s, t, ok) && t.items == s.items && t.records == s.records
    requires ok ==> |t.frames| == |s.frames| + FrameCount(record)
    requires AllPartial(s.frames) && (HasType(Obj(record), CHUNK) || Fragmented(record) || !ok) ==> AllPartial(t.frames)
    ensures WroteRecord(s, Noted(record, (t, ok)).0, ok, record) && Noted(record, (t, ok)).1 == ok
  {
    hide Dump, Lines, Inv, Numbered, HasType, FrameCount;
    InvCounts(t);
    if ok {
      InvOffDisk(t, Noted(record, (t, ok)).0);
    }
  }

  lemma RecordKeeps(host: Host, s: State, record: map<Text, Json>)
    requires Clean(s) && Addressed(s.id, record)
    ensures WroteRecord(s, WriteRecord(host, s, record).0, WriteRecord(host, s, record).1, record)
  {
    hide Dump, Lines, Ascii, Write, WriteFragments, Inv, Numbered, Noted, HasType;
    StatusCodes();
    InvCounts(s);
    if !Fragmented(record) {
      WriteKeeps(host, s, record);
      TypeKept(record, s.seq_, CHUNK);
      NotedKeeps(s, Write(host, s, record, false).0, Write(host, s, record, false).1, record);
    } else if |Dump(Obj(record))| > RECORD_BYTES {
      InvOffDisk(s, s.(status := TOO_LARGE));
    } else {
      var text := Dump(Obj(record));
      FragmentsKeep(host, s, s.seq_, text, 0);
      NotedKeeps(s, WriteFragments(host, s, s.seq_, text, 0).0, WriteFragments(host, s, s.seq_, text, 0).1, record);
    }
  }

  lemma TypeKept(record: map<Text, Json>, n: nat, type_: Text)
    ensures HasType(Numbered(record, n), type_) <==> HasType(Obj(record), type_)
  {
    NamesDiffer();
  }

  // ---- A dump: items added one by one, then a terminal ----

  /** Frames taken by the first items. */
  function FrameTotal(id: Text, items: seq<Json>): nat
    decreases |items|
  {
    if items == [] then 0
    else FrameTotal(id, items[..|items| - 1]) + FrameCount(ChunkRecord(id, items[|items| - 1]))
  }

  /** The logical record of item `i`: it carries the number of its last frame. */
  function ItemRecord(id: Text, items: seq<Json>, i: nat): Json
    requires i < |items|
  {
    Numbered(ChunkRecord(id, items[i]), FrameTotal(id, items[..i + 1]) - 1)
  }

  /** After some adds: the accepted items are a prefix, every one is a record of its
      own, and all were accepted exactly when the status is still fine. */
  ghost predicate Dumped(s: State, items: seq<Json>) {
    && Inv(s) && (s.status.Ok() ==> Clean(s)) && Reserved(s) && AllPartial(s.frames)
    && s.items == |s.records| <= |items|
    && (s.status.Ok() ==> s.items == |items| && s.seq_ == FrameTotal(s.id, items))
    && forall i :: 0 <= i < s.items ==> s.records[i] == ItemRecord(s.id, items, i)
  }

  lemma AddStep(host: Host, s: State, items: seq<Json>, item: Json)
    requires Dumped(s, items)
    ensures Dumped(Add(host, s, item).0, items + [item]) && SameSpool(s, Add(host, s, item).0)
  {
    hide Dump, Lines, Ascii, WriteRecord, Inv, Numbered, HasType, FrameCount, FrameTotal, ItemRecord, ChunkRecord,
         Clean;
    var more := items + [item];
    forall i | 0 <= i < |items| ensures ItemRecord(s.id, more, i) == ItemRecord(s.id, items, i) {
      SameItemRecord(s.id, items, item, i);
    }
    if s.status.Ok() {
      var record := ChunkRecord(s.id, item);
      ChunkIsChunk(s.id, item);
      RecordKeeps(host, s, record);
      LastItem(s.id, items, item);
      var (t, ok) := WriteRecord(host, s, record);
      InvCounts(s);
      InvCounts(t);
      if ok {
        InvOffDisk(t, t.(items := t.items + 1));
      }
    }
  }

  lemma SameItemRecord(id: Text, items: seq<Json>, item: Json, i: nat)
    requires i < |items|
    ensures ItemRecord(id, items + [item], i) == ItemRecord(id, items, i)
  {
    hide FrameTotal, FrameCount, ChunkRecord, Numbered;
    assert (items + [item])[..i + 1] == items[..i + 1];
  }

  lemma LastItem(id: Text, items: seq<Json>, item: Json)
    ensures FrameTotal(id, items + [item]) == FrameTotal(id, items) + FrameCount(ChunkRecord(id, item))
    ensures ItemRecord(id, items + [item], |items|)
         == Numbered(ChunkRecord(id, item), FrameTotal(id, items + [item]) - 1)
  {
    hide FrameTotal, FrameCount, ChunkRecord, Numbered;
    var more := items + [item];
    TotalOfLast(id, more);
    assert more[..|more| - 1] == items;
    assert more[..|items| + 1] == more;
  }

  lemma TotalOfLast(id: Text, items: seq<Json>)
    requires items != []
    ensures FrameTotal(id, items)
         == FrameTotal(id, items[..|items| - 1]) + FrameCount(ChunkRecord(id, items[|items| - 1]))
  {
    hide FrameCount, ChunkRecord;
  }

  lemma {:induction false} AddsShape(host: Host, s: State, items: seq<Json>)
    requires Clean(s) && s.frames == [] && s.items == 0 && s.records == []
    ensures Dumped(Adds(host, s, items), items) && SameSpool(s, Adds(host, s, items))
    decreases |items|
  {
    hide Add, Lines, ItemRecord;
    if items == [] {
      InvCounts(s);
    } else {
      var before, item := items[..|items| - 1], items[|items| - 1];
      AddsShape(host, s, before);
      AddStep(host, Adds(host, s, before), before, item);
      assert before + [item] == items;
    }
  }

  lemma ChunkIsChunk(id: Text, item: Json)
    ensures HasType(Obj(ChunkRecord(id, item)), CHUNK) && Addressed(id, ChunkRecord(id, item))
  {
    NamesDiffer();
  }

  /** Once an add fails every later add fails and changes nothing. */
  lemma {:induction false} FailureIsSticky(host: Host, s: State, items: seq<Json>)
    requires !s.status.Ok()
    ensures Adds(host, s, items) == s
    ensures forall item :: !Add(host, s, item).1
    decreases |items|
  {
    if items != [] {
      FailureIsSticky(host, s, items[..|items| - 1]);
    }
  }

  /** A finished log on disk: the frames and nothing else, numbered from zero, with
      exactly one terminal, at the end. */
  ghost predicate FinishedLog(s: State) {
    && Clean(s) && |s.frames| > 0 && |s.records| > 0
    && IsTerminal(s.frames[|s.frames| - 1])
    && s.frames[|s.frames| - 1] == s.records[|s.records| - 1]
    && AllPartial(s.frames[..|s.frames| - 1])
  }

  lemma TerminalWrite(host: Host, s: State, frame: map<Text, Json>)
    requires Clean(s) && AllPartial(s.frames) && IsTerminal(Obj(frame)) && Addressed(s.id, frame)
    ensures var (t, ok) := Noted(frame, Write(host, s, frame, true));
            && (ok ==> FinishedLog(t) && t.frames == s.frames + [Numbered(frame, s.seq_)]
                       && t.records == s.records + [Numbered(frame, s.seq_)]
                       && |t.file| == s.bytes + |Line(frame, s.seq_)|)
  {
    hide Dump, Lines, Ascii;
    LinesAppend(s.frames, Numbered(frame, s.seq_));
    AddressKept(s.id, frame, s.seq_);
    TypeKept(frame, s.seq_, COMPLETE);
    TypeKept(frame, s.seq_, RESULT);
    TypeKept(frame, s.seq_, ERROR);
    var (t, ok) := Write(host, s, frame, true);
    if ok {
      assert Line(frame, s.seq_) == Dump(Numbered(frame, s.seq_)) + [NEWLINE];
      assert t.file == Lines(t.frames);
      assert t.frames[..|t.frames| - 1] == s.frames;
    }
  }

  lemma TerminalTypes(s: State, status: Status)
    ensures IsTerminal(Obj(Terminal(s, status))) && Addressed(s.id, Terminal(s, status))
    ensures HasType(Obj(Terminal(s, status)), COMPLETE) <==> s.status.Ok() && status.Ok()
  {
    NamesDiffer();
    assert COMPLETE != ERROR;
  }

  /** What a successful finish leaves behind, given the items that were added. */
  ghost predicate HonestEnd(s: State, t: State, items: seq<Json>, status: Status) {
    && FinishedLog(t) && t.records[..|t.records| - 1] == s.records
    && var last := t.frames[|t.frames| - 1];
    && (HasType(last, COMPLETE) <==> s.items == |items| && s.status.Ok() && status.Ok())
    && (HasType(last, COMPLETE) ==>
          last == Numbered(CompleteRecord(s.id, |t.frames| - 1, |items|), |t.frames| - 1))
    && (s.limit >= TERMINAL_RESERVE && |Dump(last)| < TERMINAL_RESERVE ==> |t.file| <= s.limit)
  }

  lemma FinishIsHonest(host: Host, s: State, items: seq<Json>, status: Status, synced: bool)
    requires Dumped(s, items)
    ensures var (t, final) := Finish(host, s, status, synced);
            final.Ok() ==> HonestEnd(s, t, items, status)
  {
    hide Dump, Lines, Ascii, Inv, ItemRecord, FrameTotal, Write, Terminal;
    var (t, final) := Finish(host, s, status, synced);
    if final.Ok() {
      StatusCodes();
      InvCounts(s);
      NotStorageIsClean(s);
      var frame := Terminal(s, status);
      TerminalTypes(s, status);
      TerminalOfDump(s, status);
      TypeKept(frame, s.seq_, COMPLETE);
      TerminalWrite(host, s, frame);
    }
  }

  lemma TerminalOfDump(s: State, status: Status)
    ensures s.status.Ok() && status.Ok() ==> Terminal(s, status) == CompleteRecord(s.id, s.seq_, s.items)
  {
  }

  /** A finished dump never claims more than it holds. If finishing succeeds, the file
      is a complete log; it ends in `complete` exactly when every item was accepted and
      the dump itself reported success, and then `chunks` is the number of preceding
      frames and `items` the number of items; otherwise one error ends it. The reserve
      keeps the file within its limit. */
  lemma NoFalseCompletion(host: Host, id: Text, limit: nat, open: bool, items: seq<Json>, status: Status, synced: bool)
    ensures var s := Adds(host, Created(id, limit, open), items);
            var (t, final) := Finish(host, s, status, synced);
            && Dumped(s, items) && s.id == id && s.limit == limit
            && (final.Ok() ==> HonestEnd(s, t, items, status))
  {
    hide Dump, Lines, Ascii, Adds, Inv, Finish, HonestEnd, Dumped;
    CreatedIsClean(id, limit, open);
    AddsShape(host, Created(id, limit, open), items);
    FinishIsHonest(host, Adds(host, Created(id, limit, open), items), items, status, synced);
  }

  lemma CreatedIsClean(id: Text, limit: nat, open: bool)
    ensures Clean(Created(id, limit, open))
  {
  }

  lemma NotStorageIsClean(s: State)
    requires Inv(s) && !Storage(s)
    ensures Clean(s)
  {
  }

  // ---- A reply: one record, after whatever was added before ----

  /** The reply is there in full; it left the reserve alone. */
  ghost predicate InFull(s: State, t: State, record: map<Text, Json>) {
    && |t.frames| > 0 && t.records == s.records + [Numbered(record, |t.frames| - 1)] && Reserved(t)
    && (Fragmented(record) ==> AllPartial(t.frames))
    && (!Fragmented(record) ==> t.frames[|t.frames| - 1] == Numbered(record, |t.frames| - 1))
  }

  /** An error of the spool itself stands in its place. */
  ghost predicate InPlace(s: State, t: State, why: Status) {
    && |t.frames| > 0
    && var frame := Numbered(ErrorRecord(s.id, why), |t.frames| - 1);
    && t.records == s.records + [frame] && t.frames[|t.frames| - 1] == frame
    && (s.limit >= TERMINAL_RESERVE ==>
          |t.frames| <= s.limit && (|Dump(frame)| < TERMINAL_RESERVE ==> |t.file| <= s.limit))
  }

  ghost predicate Replied(s: State, t: State, record: map<Text, Json>) {
    && Clean(t) && t.id == s.id && t.limit == s.limit && |t.frames| > 0 && AllPartial(t.frames[..|t.frames| - 1])
    && (InFull(s, t, record) || InPlace(s, t, QUOTA_EXCEEDED) || InPlace(s, t, TOO_LARGE))
  }

  lemma {:induction false} FragmentsFailure(host: Host, s: State, record: nat, text: Text, offset: nat)
    ensures var (t, ok) := WriteFragments(host, s, record, text, offset);
            if ok then t.status == s.status else t.status == QUOTA_EXCEEDED || t.status == WRITE_FAILED
    decreases |text| - offset
  {
    hide Dump, Ascii, FragmentAt;
    if offset < |text| {
      FragmentsFailure(host, Write(host, s, FragmentAt(host, s.id, record, text, offset), false).0, record, text,
                       offset + BLOCK);
    }
  }

  /** Only a record that is not written in full changes the status, to the reason. */
  lemma RecordFailure(host: Host, s: State, record: map<Text, Json>)
    ensures var (t, ok) := WriteRecord(host, s, record);
            if ok then t.status == s.status
              else t.status == QUOTA_EXCEEDED || t.status == TOO_LARGE || t.status == WRITE_FAILED
  {
    hide Dump, Ascii, WriteFragments;
    FragmentsFailure(host, s, s.seq_, Dump(Obj(record)), 0);
  }

  lemma ErrorInPlace(host: Host, s: State, t: State, record: map<Text, Json>, synced: bool)
    requires Clean(t) && AllPartial(t.frames) && Reserved(t) && SameSpool(s, t) && t.records == s.records
    requires t.status == QUOTA_EXCEEDED || t.status == TOO_LARGE
    ensures var (u, final) := Finish(host, t, t.status, synced);
            final.Ok() ==> Replied(s, u, record)
  {
    hide Dump, Lines, Ascii, Inv, Fragmented, Write, Numbered, HasType, ErrorRecord;
    var (u, final) := Finish(host, t, t.status, synced);
    StatusCodes();
    InvCounts(t);
    if final.Ok() {
      TerminalTypes(t, t.status);
      TerminalWrite(host, t, Terminal(t, t.status));
      SameAfterWrite(host, t, Terminal(t, t.status), true);
      assert |Line(Terminal(t, t.status), t.seq_)| == |Dump(Numbered(Terminal(t, t.status), t.seq_))| + 1;
      assert InPlace(s, u, t.status);
      assert u.frames[..|u.frames| - 1] == t.frames;
    }
  }

  lemma SameAfterWrite(host: Host, s: State, frame: map<Text, Json>, terminal: bool)
    ensures SameSpool(s, Noted(frame, Write(host, s, frame, terminal)).0)
  {
    hide Dump, Ascii, Line;
  }

  lemma StorageEnds(host: Host, s: State, synced: bool)
    requires Storage(s)
    ensures !Finish(host, s, s.status, synced).1.Ok()
  {
    hide Ascii;
    StatusCodes();
  }

  lemma WrittenInFull(host: Host, s: State, record: map<Text, Json>)
    requires Clean(s) && AllPartial(s.frames) && Reserved(s) && WriteRecord(host, s, record).1
    requires IsTerminal(Obj(record)) && Addressed(s.id, record)
    ensures Replied(s, WriteRecord(host, s, record).0, record)
  {
    hide Dump, Lines, Ascii, Inv, WriteFragments, Write, Fragmented, Numbered, HasType, FrameCount;
    RecordKeeps(host, s, record);
    var t := WriteRecord(host, s, record).0;
    if Fragmented(record) {
      assert AllPartial(t.frames[..|t.frames| - 1]);
    } else {
      InvCounts(s);
      WriteKeeps(host, s, record);
      assert t.frames == s.frames + [Numbered(record, s.seq_)];
      assert t.frames[..|t.frames| - 1] == s.frames;
    }
  }

  /** A reply is on disk in full at the end of the log, or one short error is. */
  lemma SingleIsFinished(host: Host, s: State, record: map<Text, Json>, synced: bool)
    requires Clean(s) && AllPartial(s.frames) && Reserved(s) && IsTerminal(Obj(record)) && Addressed(s.id, record)
    ensures var (t, final) := Single(host, s, record, synced);
            final.Ok() ==> Replied(s, t, record)
  {
    hide Dump, Lines, Ascii, Inv, WriteRecord, Fragmented, Finish, Replied, AllPartial, HasType;
    RecordKeeps(host, s, record);
    RecordFailure(host, s, record);
    var (t, ok) := WriteRecord(host, s, record);
    if ok {
      WrittenInFull(host, s, record);
    } else if Storage(t) {
      StorageEnds(host, t, synced);
    } else {
      NotStorageIsClean(t);
      ErrorInPlace(host, s, t, record, synced);
    }
  }

  /** What any successful use of a spool leaves in its file: numbered frames that name
      the request, pieces and chunks, and at the end a terminal or its last piece. */
  ghost predicate CompleteLog(id: Text, frames: seq<Json>) {
    && |frames| > 0 && AllPartial(frames[..|frames| - 1])
    && (IsTerminal(frames[|frames| - 1]) || AllPartial(frames))
    && forall i :: 0 <= i < |frames| ==> FrameAt(id, frames[i], i)
  }

  lemma DumpIsCompleteLog(s: State, t: State, items: seq<Json>, status: Status)
    requires HonestEnd(s, t, items, status)
    ensures CompleteLog(t.id, t.frames) && t.file == Lines(t.frames)
  {
    hide Dump, Lines, FrameAt;
  }

  lemma SingleIsCompleteLog(s: State, t: State, record: map<Text, Json>)
    requires Replied(s, t, record) && IsTerminal(Obj(record))
    ensures CompleteLog(t.id, t.frames) && t.file == Lines(t.frames)
  {
    hide Dump, Lines, FrameAt, ErrorRecord;
    ErrorEnds(s.id, QUOTA_EXCEEDED, |t.frames| - 1);
    ErrorEnds(s.id, TOO_LARGE, |t.frames| - 1);
    TypeKept(record, |t.frames| - 1, COMPLETE);
    TypeKept(record, |t.frames| - 1, RESULT);
    TypeKept(record, |t.frames| - 1, ERROR);
  }

  lemma ErrorEnds(id: Text, why: Status, n: nat)
    ensures IsTerminal(Numbered(ErrorRecord(id, why), n)) && HasType(Numbered(ErrorRecord(id, why), n), ERROR)
  {
    hide Ascii;
    NamesDiffer();
  }
}
