/** Hosts that meet what the reader asks of its platform, and items that are lost
    although they were spooled without a complaint. */
module ReadingExamples {
  import opened Text
  import opened JsonText
  import opened Frames
  import opened Reassembly
  import opened SpoolBudget
  import Base64
  import JsonReading
  import Nesting
  import W = Spooling
  import Log = SpoolLog
  import R = Assembling

  // ---- The two ends can agree ----

  /** A decoder that leaves the bytes of the padding in its output. */
  function Unbase64(t: Text): Option<Text> {
    var b := Base64.Decode(t);
    Some(b + Base64.Filler(|b|))
  }

  /** A reader for whatever digest the writer uses. */
  ghost function ReaderFor(sha: Text -> Text): R.Host { R.Host(sha, JsonReading.Parse, Unbase64) }

  lemma PairsExist(sha: Text -> Text, room: nat -> nat)
    ensures Paired(W.Host(sha, room), ReaderFor(sha))
  {
    hide Dump, Base64.Encode, Base64.Decode, JsonReading.Parse, Base64.Filler;
    forall j ensures JsonReading.Parse(Dump(j)) == Some(j) {
      JsonReading.ParseOfDump(j);
    }
    forall b: Text | b != [] ensures Unbase64(Base64.Encode(b)) == Some(b + Base64.Filler(|b|)) {
      Base64.DecodeOfEncode(b);
    }
  }

  // ---- An item too large for a frame and nested too deep ----

  /** A value inside `n` arrays. */
  function Wrapped(n: nat, item: Json): Json { if n == 0 then item else Arr([Wrapped(n - 1, item)]) }

  lemma OneNests(item: Json, d: int)
    ensures NestsWithin(Arr([item]), d) <==> d >= 1 && NestsWithin(item, d - 1)
  {
    assert item in [item];
  }

  lemma {:induction false} WrappedNests(n: nat, t: Text, d: int)
    ensures NestsWithin(Wrapped(n, Str(t)), d) <==> n <= d
  {
    hide NestsWithin;
    if n == 0 {
      assert NestsWithin(Str(t), d) <==> d >= 0 by { LeafNests(t, d); }
    } else {
      OneNests(Wrapped(n - 1, Str(t)), d);
      WrappedNests(n - 1, t, d - 1);
    }
  }

  lemma LeafNests(t: Text, d: int)
    ensures NestsWithin(Str(t), d) <==> d >= 0
  {
  }

  lemma {:induction false} WrappedSize(n: nat, t: Text)
    requires Plain(t)
    ensures |Dump(Wrapped(n, Str(t)))| == 2 * n + |t| + 2
  {
    if n == 0 {
      PlainEscape(t);
    } else {
      WrappedSize(n - 1, t);
    }
  }

  /** The chunk record adds its own members and two levels. */
  lemma ChunkSize(id: Text, item: Json)
    requires Plain(id)
    ensures |Dump(Obj(ChunkRecord(id, item)))| == |id| + |Dump(item)| + 35
  {
    hide Dump, Ascii, Plain;
    NameSizes();
    EmptySize();
    var m0: map<Text, Json> := map[];
    var m1 := m0[ID := Str(id)];
    WithMember(m0, ID, Str(id));
    var m2 := m1[TYPE := Str(CHUNK)];
    WithMember(m1, TYPE, Str(CHUNK));
    WithMember(m2, ITEMS, Arr([item]));
    assert m2[ITEMS := Arr([item])] == ChunkRecord(id, item);
    QuoteSize(CHUNK);
    QuoteSize(id);
    OneItem(item);
  }

  lemma OneItem(item: Json)
    ensures |Dump(Arr([item]))| == |Dump(item)| + 2
  {
    assert Dump(Arr([item])) == [OPEN_ARRAY] + DumpItems([item]) + [CLOSE_ARRAY];
  }

  lemma ChunkNests(id: Text, item: Json, d: int)
    ensures NestsWithin(Obj(ChunkRecord(id, item)), d) <==> d >= 2 && NestsWithin(item, d - 2)
  {
    hide Ascii;
    NamesDiffer();
    var m := ChunkRecord(id, item);
    assert m.Keys == {ID, TYPE, ITEMS} && m[ITEMS] == Arr([item]);
    OneNests(item, d - 1);
    assert ITEMS in m && ID in m;
  }

  /** Inside the record thirty levels are left: one more and a large item is unreadable. */
  lemma ReadableExactly(id: Text, n: nat, t: Text)
    requires IsId(id) && Plain(t) && |t| >= FRAME_BYTES
    ensures Readable(ChunkRecord(id, Wrapped(n, Str(t)))) <==> n <= 30
  {
    hide Dump, NestsWithin, Ascii, ChunkRecord;
    assert Plain(id);
    WrappedSize(n, t);
    ChunkSize(id, Wrapped(n, Str(t)));
    ChunkNests(id, Wrapped(n, Str(t)), Nesting.MAX_DEPTH);
    WrappedNests(n, t, 30);
    WrappedNests(n, t, Nesting.MAX_DEPTH - 2);
  }

  // ---- A spool with room takes it ----

  /** A disk that is never full and a digest of 64 letters. */
  ghost predicate Ample(w: W.Host) {
    && (forall n :: w.room(n) >= FRAME_BYTES)
    && forall t :: |w.sha(t)| == 64 && Plain(w.sha(t))
  }

  /** Bytes that hold any line of a fragment. */
  const PIECE_LINE := 66000

  lemma {:induction false} FragmentsWritten(w: W.Host, s: W.State, record: nat, text: Text, offset: nat)
    requires Ample(w) && IsId(s.id) && s.open && Log.Clean(s) && s.limit <= UINT64_MAX
    requires |text| <= RECORD_BYTES && record <= s.seq_
    requires s.bytes + Log.Blocks(|text| - offset) * PIECE_LINE + W.TERMINAL_RESERVE <= s.limit
    ensures W.WriteFragments(w, s, record, text, offset).1
    decreases |text| - offset
  {
    hide Dump, Lines, W.FragmentAt, W.Line, Numbered, Log.Inv, Ascii;
    if offset < |text| {
      Log.InvCounts(s);
      var frame := W.FragmentAt(w, s.id, record, text, offset);
      assert Log.Blocks(|text| - offset) == 1 + Log.Blocks(|text| - (offset + W.BLOCK));
      FragmentFits(w, s, record, text, offset);
      Log.FragmentIsPartial(w, s.id, record, text, offset, s.seq_);
      Log.WriteKeeps(w, s, frame);
      Log.InvCounts(W.Write(w, s, frame, false).0);
      FragmentsWritten(w, W.Write(w, s, frame, false).0, record, text, offset + W.BLOCK);
    }
  }

  lemma FragmentFits(w: W.Host, s: W.State, record: nat, text: Text, offset: nat)
    requires Ample(w) && IsId(s.id) && s.seq_ <= UINT64_MAX && record <= s.seq_
    requires offset < |text| <= RECORD_BYTES
    ensures |W.Line(W.FragmentAt(w, s.id, record, text, offset), s.seq_)| <= PIECE_LINE
  {
    hide Dump, Base64.Encode, W.Line, Ascii;
    var piece := text[offset..offset + W.BlockSize(text, offset)];
    var data := Base64.Encode(piece);
    Base64.EncodeLength(piece);
    Base64.EncodePrintable(piece);
    assert Plain(data) && Plain(s.id);
    FragmentSize(s.id, record, offset, |text|, w.sha(text), data, s.seq_);
  }

  lemma LargeAdded(w: W.Host, id: Text, item: Json)
    requires Ample(w) && IsId(id)
    requires W.Fragmented(ChunkRecord(id, item)) && |Dump(Obj(ChunkRecord(id, item)))| <= RECORD_BYTES
    ensures var (s, ok) := W.Add(w, W.Created(id, SPOOL_BYTES, true), item);
            ok && s.items == 1 && s.status.Ok() && s.open && s.id == id && s.limit == SPOOL_BYTES
  {
    hide Dump, Lines, W.WriteFragments, Log.Inv, Numbered, Ascii, ChunkRecord;
    var start := W.Created(id, SPOOL_BYTES, true);
    var record := ChunkRecord(id, item);
    var text := Dump(Obj(record));
    Log.CreatedIsClean(id, SPOOL_BYTES, true);
    FragmentsWritten(w, start, 0, text, 0);
    Log.FragmentsKeep(w, start, 0, text, 0);
  }

  lemma CompleteFits(w: W.Host, s: W.State, items: seq<Json>)
    requires Ample(w) && IsId(s.id) && s.open && s.limit <= UINT64_MAX && s.status.Ok()
    requires Log.Dumped(s, items) && |items| <= UINT64_MAX
    ensures W.Finish(w, s, OK, true).1 == OK
  {
    hide Dump, Lines, Log.Inv, Ascii, CompleteRecord, Log.FrameTotal, Log.ItemRecord, Log.AllPartial;
    Log.StatusCodes();
    Log.InvCounts(s);
    CompleteSize(s.id, s.seq_, s.items, s.seq_);
  }

  /** With room for it, a large item is spooled and the dump finishes well; whether it is
      read back depends on its depth alone. */
  lemma LargeItemExactly(w: W.Host, r: R.Host, id: Text, item: Json)
    requires Paired(w, r) && Ample(w) && IsId(id)
    requires W.Fragmented(ChunkRecord(id, item)) && |Dump(Obj(ChunkRecord(id, item)))| <= RECORD_BYTES
    ensures var s := Log.Adds(w, W.Created(id, SPOOL_BYTES, true), [item]);
            var (t, final) := W.Finish(w, s, OK, true);
            && final.Ok() && s.items == 1
            && if NestsWithin(item, Nesting.MAX_DEPTH - 2)
               then CaughtUp(r, t.frames, t.records)
               else Feed(r, t.frames) == Broken
  {
    hide Dump, Lines, W.Finish, W.Add, Log.Inv, Feed, NestsWithin, Ascii, ChunkRecord, Log.FrameTotal, Log.ItemRecord;
    var start := W.Created(id, SPOOL_BYTES, true);
    Log.CreatedIsClean(id, SPOOL_BYTES, true);
    assert Log.Adds(w, start, [item]) == W.Add(w, start, item).0 by { OneAdded(w, start, item); }
    LargeAdded(w, id, item);
    Log.AddsShape(w, start, [item]);
    var s := Log.Adds(w, start, [item]);
    CompleteFits(w, s, [item]);
    SpoolThenReassemble(w, r, id, SPOOL_BYTES, true, [item], OK, true);
    ChunkNests(id, item, Nesting.MAX_DEPTH);
    assert [item][0] == item;
    assert ItemsReadable(id, [item], 1) <==> Readable(ChunkRecord(id, item));
  }

  lemma OneAdded(w: W.Host, s: W.State, item: Json)
    ensures Log.Adds(w, s, [item]) == W.Add(w, s, item).0
  {
    hide W.Add;
    assert [item][..0] == [];
    assert Log.Adds(w, s, []) == s;
  }

  /** Such items exist: 256 KiB of text inside 31 arrays. */
  lemma DeepItemIsLost(w: W.Host, r: R.Host, id: Text)
    requires Paired(w, r) && Ample(w) && IsId(id)
    ensures var item := Wrapped(31, Str(seq(FRAME_BYTES, _ => 97)));
            var (t, final) := W.Finish(w, Log.Adds(w, W.Created(id, SPOOL_BYTES, true), [item]), OK, true);
            final.Ok() && Feed(r, t.frames) == Broken
  {
    hide Dump, Lines, W.Finish, Log.Adds, Feed, NestsWithin, Ascii, ChunkRecord, Wrapped;
    var letters: Text := seq(FRAME_BYTES, _ => 97);
    assert Plain(letters) && Plain(id);
    WrappedSize(31, letters);
    ChunkSize(id, Wrapped(31, Str(letters)));
    WrappedNests(31, letters, 30);
    LargeItemExactly(w, r, id, Wrapped(31, Str(letters)));
  }
}
