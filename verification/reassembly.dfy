/** Both ends together: what is spooled is what is read, and nothing else is ever read. */
module Reassembly {
  import opened Text
  import opened JsonText
  import opened Frames
  import Nesting
  import Base64
  import W = Spooling
  import Log = SpoolLog
  import R = Assembling

  /** Feeding frames in order. `Broken` once a frame is refused. */
  datatype Fed = Broken | Fed(state: R.State, logicals: seq<Json>)

  function Feed(host: R.Host, frames: seq<Json>): Fed
    decreases |frames|
  {
    if frames == [] then Fed(R.EMPTY, [])
    else FeedOne(host, Feed(host, frames[..|frames| - 1]), frames[|frames| - 1])
  }

  function FeedOne(host: R.Host, before: Fed, frame: Json): Fed {
    match before
    case Broken => Broken
    case Fed(s, logicals) =>
      var (t, verdict) := R.Accept(host, s, frame);
      match verdict
      case Invalid => Broken
      case More => Fed(t, logicals)
      case Ready(logical) => Fed(t, logicals + [logical])
  }

  lemma FeedAppend(host: R.Host, frames: seq<Json>, frame: Json)
    ensures Feed(host, frames + [frame]) == FeedOne(host, Feed(host, frames), frame)
  {
    hide FeedOne;
    assert (frames + [frame])[..|frames|] == frames;
  }

  predicate Idle(s: R.State) { s.total == 0 && s.data == [] }

  /** The two ends agree on the digest; the parser reads back what the printer wrote
      and the decoder what the encoder wrote. */
  ghost predicate Paired(w: W.Host, r: R.Host) {
    && (forall t :: w.sha(t) == r.sha(t))
    && (forall j {:trigger Dump(j)} :: r.parse(Dump(j)) == Some(j))
    && Base64.DecodesCanonical(r.unbase64)
  }

  // ---- One fragment ----

  lemma CanonicalPiece(host: R.Host, bytes: Text, room: int)
    requires Base64.DecodesCanonical(host.unbase64) && 0 < |bytes| <= room
    ensures |Base64.Encode(bytes)| >= 4 && R.Decoded(host, Base64.Encode(bytes), room) == Some(bytes)
  {
    hide Base64.Encode;
    Base64.EncodePadding(bytes);
    var raw := bytes + Base64.Filler(|bytes|);
    assert host.unbase64(Base64.Encode(bytes)) == Some(raw);
    assert raw[..|bytes|] == bytes;
  }

  /** Where the reader stands after the first `offset` bytes of a record. */
  function InProgress(w: W.Host, id: Text, record: nat, text: Text, offset: nat): R.State
    requires offset <= |text|
  {
    R.State(text[..offset], |text|, record, id, w.sha(text))
  }

  predicate Stands(w: W.Host, id: Text, record: nat, text: Text, offset: nat, s: R.State) {
    offset <= |text| && (if offset == 0 then Idle(s) else s == InProgress(w, id, record, text, offset))
  }

  lemma FrameFields(id: Text, record: nat, offset: nat, total: nat, digest: Text, data: Text, n: nat)
    ensures var m := FragmentFrame(id, record, offset, total, digest, data)[SEQ := Num(n)];
            && m.Keys == {ID, TYPE, RECORD, OFFSET, TOTAL, SHA256, ENCODING, DATA, SEQ}
            && m[TYPE] == Str(FRAGMENT) && m[ID] == Str(id) && m[RECORD] == Num(record) && m[OFFSET] == Num(offset)
            && m[TOTAL] == Num(total) && m[SEQ] == Num(n) && m[SHA256] == Str(digest) && m[DATA] == Str(data)
            && m[ENCODING] == Str(BASE64_JSON)
  {
    hide Ascii;
    NamesDiffer();
  }

  /** The fields a reader looks at, of one fragment. */
  ghost predicate CarriesPiece(w: W.Host, id: Text, record: nat, text: Text, offset: nat, n: nat, frame: Json)
    requires offset < |text|
  {
    && frame.Obj?
    && var m := frame.m;
    && R.IsText(m, TYPE) && m[TYPE] == Str(FRAGMENT) && R.IsText(m, ID) && m[ID] == Str(id) && R.WellFormed(m)
    && m[RECORD] == Num(record) && m[OFFSET] == Num(offset) && m[TOTAL] == Num(|text|) && m[SEQ] == Num(n)
    && m[SHA256] == Str(w.sha(text))
    && m[DATA] == Str(Base64.Encode(text[offset..offset + W.BlockSize(text, offset)]))
    && R.FitsLimits(|text|, m[DATA].s)
  }

  lemma FragmentFields(w: W.Host, id: Text, record: nat, text: Text, offset: nat, n: nat)
    requires offset < |text| <= RECORD_BYTES && record <= UINT64_MAX && n <= UINT64_MAX
    ensures CarriesPiece(w, id, record, text, offset, n, Numbered(W.FragmentAt(w, id, record, text, offset), n))
  {
    hide Base64.Encode, Ascii, FragmentFrame;
    var piece := text[offset..offset + W.BlockSize(text, offset)];
    FrameFields(id, record, offset, |text|, w.sha(text), Base64.Encode(piece), n);
    Base64.EncodeLength(piece);
  }

  lemma AcceptNext(w: W.Host, r: R.Host, id: Text, record: nat, text: Text, offset: nat, n: nat, s: R.State)
    requires Base64.DecodesCanonical(r.unbase64)
    requires offset < |text| <= RECORD_BYTES && record <= UINT64_MAX && n <= UINT64_MAX
    requires Stands(w, id, record, text, offset, s)
    ensures var next := offset + W.BlockSize(text, offset);
            var (t, verdict) := R.Accept(r, s, Numbered(W.FragmentAt(w, id, record, text, offset), n));
            && next <= |text|
            && (next < |text| ==> verdict == R.More && t == InProgress(w, id, record, text, next))
            && (next == |text| ==>
                  && verdict == R.Logical(r, InProgress(w, id, record, text, next), Num(n))
                  && (verdict.Ready? ==> Idle(t)))
  {
    hide Base64.Encode, R.Logical, R.Decoded, R.WellFormed, W.FragmentAt, Numbered, Ascii;
    FragmentFields(w, id, record, text, offset, n);
    var size := W.BlockSize(text, offset);
    var piece := text[offset..offset + size];
    CanonicalPiece(r, piece, |text| - offset);
    assert text[..offset] + piece == text[..offset + size];
    assert offset + size == |text| ==> text[..offset + size] == text;
  }

  // ---- One record ----

  /** The reader took all of it: one more logical frame, or a refusal. */
  predicate Concluded(fed: Fed, logicals: seq<Json>, verdict: R.Verdict) {
    match verdict
    case Ready(logical) => fed.Fed? && Idle(fed.state) && fed.logicals == logicals + [logical]
    case _ => fed == Broken
  }

  lemma LogicalDecides(r: R.Host, s: R.State, n: Json)
    ensures R.Logical(r, s, n) != R.More
  {
  }

  lemma {:induction false} FragmentsFed(w: W.Host, r: R.Host, s: W.State, record: nat, text: Text, offset: nat,
                                        t: R.State, logicals: seq<Json>)
    requires Paired(w, r) && Log.Clean(s) && s.limit <= UINT64_MAX
    requires offset < |text| <= RECORD_BYTES && record <= UINT64_MAX
    requires Feed(r, s.frames) == Fed(t, logicals) && Stands(w, s.id, record, text, offset, t)
    ensures var (u, ok) := W.WriteFragments(w, s, record, text, offset);
            && (ok ==> |u.frames| > 0 && Concluded(Feed(r, u.frames), logicals,
                        R.Logical(r, InProgress(w, s.id, record, text, |text|), Num(|u.frames| - 1))))
            && (!ok ==> Feed(r, u.frames).Fed? && Feed(r, u.frames).logicals == logicals)
    decreases |text| - offset
  {
    hide Dump, Lines, W.Write, Log.Inv, R.Accept, R.Logical, W.FragmentAt, Numbered, Feed, Base64.Encode;
    var frame := W.FragmentAt(w, s.id, record, text, offset);
    var (u, ok) := W.Write(w, s, frame, false);
    Log.FragmentIsPartial(w, s.id, record, text, offset, s.seq_);
    Log.WriteKeeps(w, s, frame);
    if ok {
      Log.InvCounts(s);
      Log.InvCounts(u);
      AcceptNext(w, r, s.id, record, text, offset, s.seq_, t);
      FeedAppend(r, s.frames, Numbered(frame, s.seq_));
      LogicalDecides(r, InProgress(w, s.id, record, text, |text|), Num(s.seq_));
      var next := offset + W.BlockSize(text, offset);
      if next < |text| {
        FragmentsFed(w, r, u, record, text, next, Feed(r, u.frames).state, logicals);
      }
    }
  }

  /** A logical record of this response, as callers write them. */
  predicate Sendable(id: Text, record: map<Text, Json>) {
    Addressed(id, record) && IsLogical(Obj(record))
  }

  /** A record that has to be fragmented is read back only if it nests at most 32 deep. */
  predicate Readable(record: map<Text, Json>) {
    W.Fragmented(record) ==> NestsWithin(Obj(record), Nesting.MAX_DEPTH)
  }

  lemma WholeRecord(w: W.Host, r: R.Host, id: Text, record: map<Text, Json>, first: nat, n: nat)
    requires Paired(w, r) && Sendable(id, record)
    ensures R.Logical(r, InProgress(w, id, first, Dump(Obj(record)), |Dump(Obj(record))|), Num(n))
         == if NestsWithin(Obj(record), Nesting.MAX_DEPTH) then R.Ready(Numbered(record, n)) else R.Invalid
  {
    hide Dump, NestsWithin, Nesting.Scan, Ascii;
    var text := Dump(Obj(record));
    Nesting.NestingIsExact(Obj(record));
    assert text[..|text|] == text;
  }

  lemma AcceptWhole(r: R.Host, s: R.State, record: map<Text, Json>, id: Text, n: nat)
    requires Addressed(id, record) && R.IsText(record, TYPE) && record[TYPE] != Str(FRAGMENT)
    requires Idle(s) || record[TYPE] == Str(ERROR)
    ensures var (t, verdict) := R.Accept(r, s, Numbered(record, n));
            Idle(t) && verdict == R.Ready(Numbered(record, n))
  {
    hide Ascii;
    NamesDiffer();
  }

  lemma SendableIsWhole(id: Text, record: map<Text, Json>)
    requires Sendable(id, record)
    ensures R.IsText(record, TYPE) && record[TYPE] != Str(FRAGMENT)
  {
    NamesDiffer();
  }

  /** The reader has taken every frame, holds nothing back and delivered these records. */
  predicate CaughtUp(r: R.Host, frames: seq<Json>, records: seq<Json>) {
    var fed := Feed(r, frames);
    fed.Fed? && Idle(fed.state) && fed.logicals == records
  }

  lemma RecordFed(w: W.Host, r: R.Host, s: W.State, record: map<Text, Json>)
    requires Paired(w, r) && Log.Clean(s) && Log.Reserved(s) && s.limit <= UINT64_MAX && Sendable(s.id, record)
    requires CaughtUp(r, s.frames, s.records)
    ensures var (t, ok) := W.WriteRecord(w, s, record);
            && (ok && Readable(record) ==> CaughtUp(r, t.frames, t.records))
            && (ok && !Readable(record) ==> Feed(r, t.frames) == Broken)
            && (!ok ==> t.records == s.records && Feed(r, t.frames).Fed? && Feed(r, t.frames).logicals == t.records)
  {
    hide Dump, Lines, W.Write, W.WriteFragments, Log.Inv, R.Accept, R.Logical, Numbered, Feed, Sendable, NestsWithin;
    SendableHasId(s.id, record);
    Log.RecordKeeps(w, s, record);
    if !W.Fragmented(record) {
      Log.WriteKeeps(w, s, record);
      SendableIsWhole(s.id, record);
      Log.InvCounts(s);
      var (t, ok) := W.Write(w, s, record, false);
      if ok {
        AcceptWhole(r, Feed(r, s.frames).state, record, s.id, s.seq_);
        FeedAppend(r, s.frames, Numbered(record, s.seq_));
        Log.InvCounts(t);
      }
    } else if |Dump(Obj(record))| <= RECORD_BYTES {
      FragmentedFed(w, r, s, record);
    }
  }

  lemma SendableHasId(id: Text, record: map<Text, Json>)
    requires Sendable(id, record)
    ensures Addressed(id, record)
  {
  }

  lemma FragmentedFed(w: W.Host, r: R.Host, s: W.State, record: map<Text, Json>)
    requires Paired(w, r) && Log.Clean(s) && Log.Reserved(s) && s.limit <= UINT64_MAX && Sendable(s.id, record)
    requires CaughtUp(r, s.frames, s.records)
    requires W.Fragmented(record) && |Dump(Obj(record))| <= RECORD_BYTES
    ensures var (t, ok) := W.WriteRecord(w, s, record);
            && (ok && Readable(record) ==> CaughtUp(r, t.frames, t.records))
            && (ok && !Readable(record) ==> Feed(r, t.frames) == Broken)
            && (!ok ==> Feed(r, t.frames).Fed? && Feed(r, t.frames).logicals == s.records)
  {
    hide Dump, Lines, W.Write, W.WriteFragments, Log.Inv, R.Accept, R.Logical, Numbered, Feed, Sendable, NestsWithin;
    var text := Dump(Obj(record));
    assert |text| > 0;
    Log.InvCounts(s);
    SendableHasId(s.id, record);
    Log.RecordKeeps(w, s, record);
    var (u, ok) := W.WriteFragments(w, s, s.seq_, text, 0);
    Log.FragmentsKeep(w, s, s.seq_, text, 0);
    FragmentsFed(w, r, s, s.seq_, text, 0, Feed(r, s.frames).state, s.records);
    if ok {
      Log.InvCounts(u);
      WholeRecord(w, r, s.id, record, s.seq_, |u.frames| - 1);
    }
  }

  // ---- A whole response ----

  lemma {:induction false} BrokenStays(r: R.Host, frames: seq<Json>, more: seq<Json>)
    requires frames <= more && Feed(r, frames) == Broken
    ensures Feed(r, more) == Broken
    decreases |more|
  {
    if |more| > |frames| {
      var shorter := more[..|more| - 1];
      assert frames <= shorter;
      BrokenStays(r, frames, shorter);
      FeedAppend(r, shorter, more[|more| - 1]);
      assert shorter + [more[|more| - 1]] == more;
    } else {
      assert frames == more;
    }
  }

  /** Every item among the first `n` can be read back. */
  predicate ItemsReadable(id: Text, items: seq<Json>, n: nat)
    requires n <= |items|
  {
    forall i :: 0 <= i < n ==> Readable(ChunkRecord(id, items[i]))
  }

  /** After some adds: the reader has delivered the accepted items, unless one of
      them was large and nested too deep, in which case it has refused a frame. */
  ghost predicate DumpFed(r: R.Host, s: W.State, items: seq<Json>) {
    && s.items <= |items|
    && (ItemsReadable(s.id, items, s.items) ==>
          && Feed(r, s.frames).Fed? && Feed(r, s.frames).logicals == s.records
          && (s.status.Ok() ==> Idle(Feed(r, s.frames).state)))
    && (!ItemsReadable(s.id, items, s.items) ==> Feed(r, s.frames) == Broken)
  }

  lemma ChunkIsSendable(id: Text, item: Json)
    ensures Sendable(id, ChunkRecord(id, item))
  {
    hide Ascii;
    NamesDiffer();
  }

  lemma OneMoreItem(id: Text, items: seq<Json>, item: Json, n: nat)
    requires n <= |items|
    ensures ItemsReadable(id, items + [item], n) == ItemsReadable(id, items, n)
    ensures ItemsReadable(id, items + [item], |items| + 1)
         == (ItemsReadable(id, items, |items|) && Readable(ChunkRecord(id, item)))
  {
    hide Readable, ChunkRecord;
    var more := items + [item];
    forall i | 0 <= i < |items| ensures more[i] == items[i] {
    }
    assert more[|items|] == item;
    assert ItemsReadable(id, items, n) ==> ItemsReadable(id, more, n);
    if ItemsReadable(id, more, n) {
      forall i | 0 <= i < n ensures Readable(ChunkRecord(id, items[i])) {
        assert Readable(ChunkRecord(id, more[i]));
      }
    }
    if ItemsReadable(id, more, |items| + 1) {
      assert Readable(ChunkRecord(id, more[|items|]));
      forall i | 0 <= i < |items| ensures Readable(ChunkRecord(id, items[i])) {
        assert Readable(ChunkRecord(id, more[i]));
      }
    }
  }

  lemma AddFed(w: W.Host, r: R.Host, s: W.State, items: seq<Json>, item: Json)
    requires Paired(w, r) && Log.Dumped(s, items) && s.limit <= UINT64_MAX && DumpFed(r, s, items)
    ensures DumpFed(r, W.Add(w, s, item).0, items + [item])
  {
    hide Dump, Lines, W.WriteRecord, Log.Inv, Numbered, Feed, Sendable, NestsWithin, Readable, Log.ItemRecord,
         Log.FrameTotal;
    var more := items + [item];
    OneMoreItem(s.id, items, item, s.items);
    if s.status.Ok() {
      var record := ChunkRecord(s.id, item);
      Log.ChunkIsChunk(s.id, item);
      Log.RecordKeeps(w, s, record);
      Log.AddStep(w, s, items, item);
      var (t, ok) := W.WriteRecord(w, s, record);
      if ItemsReadable(s.id, items, s.items) {
        ChunkIsSendable(s.id, item);
        RecordFed(w, r, s, record);
      } else {
        BrokenStays(r, s.frames, t.frames);
      }
    }
  }

  lemma {:induction false} AddsFed(w: W.Host, r: R.Host, s: W.State, items: seq<Json>)
    requires Paired(w, r) && s.limit <= UINT64_MAX
    requires Log.Clean(s) && s.frames == [] && s.items == 0 && s.records == []
    ensures DumpFed(r, Log.Adds(w, s, items), items)
    decreases |items|
  {
    hide W.Add, Lines, Dump, Readable, Log.ItemRecord;
    if items != [] {
      var before, item := items[..|items| - 1], items[|items| - 1];
      AddsFed(w, r, s, before);
      Log.AddsShape(w, s, before);
      AddFed(w, r, Log.Adds(w, s, before), before, item);
      assert before + [item] == items;
    }
  }

  lemma FinishFed(w: W.Host, r: R.Host, s: W.State, items: seq<Json>, status: Status, synced: bool)
    requires Log.Dumped(s, items) && DumpFed(r, s, items)
    ensures var (t, final) := W.Finish(w, s, status, synced);
            && (final.Ok() && ItemsReadable(s.id, items, s.items) ==> CaughtUp(r, t.frames, t.records))
            && (final.Ok() && !ItemsReadable(s.id, items, s.items) ==> Feed(r, t.frames) == Broken)
  {
    hide Dump, Lines, W.Write, Log.Inv, Numbered, Feed, Readable, Log.ItemRecord, Log.FrameTotal, W.Terminal, Ascii,
         R.Accept, ChunkRecord;
    var (t, final) := W.Finish(w, s, status, synced);
    if final.Ok() {
      Log.StatusCodes();
      Log.NotStorageIsClean(s);
      Log.InvCounts(s);
      var frame := W.Terminal(s, status);
      Log.TerminalTypes(s, status);
      Log.TerminalWrite(w, s, frame);
      if ItemsReadable(s.id, items, s.items) {
        TerminalFields(s, status);
        AcceptWhole(r, Feed(r, s.frames).state, frame, s.id, s.seq_);
        FeedAppend(r, s.frames, Numbered(frame, s.seq_));
      } else {
        BrokenStays(r, s.frames, t.frames);
      }
    }
  }

  /** Spooling a dump and reading it back is the identity. Once finishing has succeeded,
      feeding the frames of the file in order delivers exactly the accepted items, each
      numbered like its last frame, and one terminal; it does so if and only if every
      accepted item too large for one frame nests at most 32 deep inside its record. */
  lemma SpoolThenReassemble(w: W.Host, r: R.Host, id: Text, limit: nat, open: bool, items: seq<Json>, status: Status,
                            synced: bool)
    requires Paired(w, r) && limit <= UINT64_MAX
    ensures var s := Log.Adds(w, W.Created(id, limit, open), items);
            var (t, final) := W.Finish(w, s, status, synced);
            && s.items <= |items|
            && (final.Ok() && ItemsReadable(id, items, s.items) ==> CaughtUp(r, t.frames, t.records))
            && (final.Ok() && !ItemsReadable(id, items, s.items) ==> Feed(r, t.frames) == Broken)
  {
    hide Dump, Lines, W.Finish, Log.Inv, Log.Adds, Feed, Readable, Log.ItemRecord;
    var start := W.Created(id, limit, open);
    Log.CreatedIsClean(id, limit, open);
    Log.AddsShape(w, start, items);
    AddsFed(w, r, start, items);
    FinishFed(w, r, Log.Adds(w, start, items), items, status, synced);
  }

  lemma TerminalFields(s: W.State, status: Status)
    ensures var frame := W.Terminal(s, status);
            && Addressed(s.id, frame) && R.IsText(frame, TYPE) && frame[TYPE] != Str(FRAGMENT)
            && (!s.status.Ok() ==> frame[TYPE] == Str(ERROR))
  {
    hide Ascii;
    NamesDiffer();
  }

  /** The same for a reply that ends a log the reader has kept up with. */
  lemma SingleThenReassemble(w: W.Host, r: R.Host, s: W.State, record: map<Text, Json>, synced: bool)
    requires Paired(w, r) && s.limit <= UINT64_MAX && Sendable(s.id, record) && IsTerminal(Obj(record))
    requires Log.Clean(s) && Log.Reserved(s) && Log.AllPartial(s.frames) && CaughtUp(r, s.frames, s.records)
    ensures var (t, final) := W.Single(w, s, record, synced);
            final.Ok() ==>
              && (W.WriteRecord(w, s, record).1 && !Readable(record) ==> Feed(r, t.frames) == Broken)
              && (!W.WriteRecord(w, s, record).1 || Readable(record) ==> CaughtUp(r, t.frames, t.records))
  {
    hide Dump, Lines, W.Write, W.WriteRecord, Log.Inv, Numbered, Feed, Readable, W.Terminal, Ascii, R.Accept;
    RecordFed(w, r, s, record);
    Log.RecordKeeps(w, s, record);
    var (t, ok) := W.WriteRecord(w, s, record);
    var (u, final) := W.Single(w, s, record, synced);
    if !ok && final.Ok() {
      Log.StatusCodes();
      Log.NotStorageIsClean(t);
      Log.InvCounts(t);
      Log.TerminalTypes(t, t.status);
      var frame := W.Terminal(t, t.status);
      Log.TerminalWrite(w, t, frame);
      TerminalFields(t, t.status);
      AcceptWhole(r, Feed(r, t.frames).state, frame, s.id, t.seq_);
      FeedAppend(r, t.frames, Numbered(frame, t.seq_));
    }
  }

  /** A log the reader has refused stays refused, whatever ends it. */
  lemma SingleStaysBroken(w: W.Host, r: R.Host, s: W.State, record: map<Text, Json>, synced: bool)
    requires Sendable(s.id, record) && IsTerminal(Obj(record))
    requires Log.Clean(s) && Log.Reserved(s) && Log.AllPartial(s.frames) && Feed(r, s.frames) == Broken
    ensures var (t, final) := W.Single(w, s, record, synced);
            final.Ok() ==> Feed(r, t.frames) == Broken
  {
    hide Dump, Lines, W.Write, W.WriteRecord, Log.Inv, Numbered, Feed, W.Terminal, Ascii;
    SendableHasId(s.id, record);
    Log.RecordKeeps(w, s, record);
    var (t, ok) := W.WriteRecord(w, s, record);
    var (u, final) := W.Single(w, s, record, synced);
    BrokenStays(r, s.frames, t.frames);
    if !ok && final.Ok() {
      Log.StatusCodes();
      Log.NotStorageIsClean(t);
      Log.TerminalTypes(t, t.status);
      Log.TerminalWrite(w, t, W.Terminal(t, t.status));
      BrokenStays(r, t.frames, u.frames);
    }
  }

  lemma FeedNothing(r: R.Host)
    ensures Feed(r, []) == Fed(R.EMPTY, [])
  {
  }
}
