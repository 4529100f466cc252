/** Why only the spool limit can refuse a record: the slack covers the frame number and
    a block of 48 KiB always fits a frame. */
module SpoolBudget {
  import opened Text
  import opened JsonText
  import opened Frames
  import opened Spooling
  import Base64

  /** Bytes that JSON copies as they are. */
  predicate Plain(t: Text) { forall c :: c in t ==> c >= 32 && c != QUOTE && c != BACKSLASH }

  lemma {:induction false} PlainEscape(t: Text)
    requires Plain(t)
    ensures Escape(t) == t
  {
    if t != [] {
      var rest := t[1..];
      assert Plain(rest) by { assert forall c :: c in rest ==> c in t; }
      PlainEscape(rest);
      assert t[0] in t;
      assert EscapeByte(t[0]) == [t[0]];
      assert t == [t[0]] + rest;
    }
  }

  /** A request id: up to 96 letters, digits, dashes and underscores. */
  predicate IsId(t: Text) {
    && 0 < |t| <= 96
    && forall c :: c in t ==> 97 <= c <= 122 || 65 <= c <= 90 || 48 <= c <= 57 || c == 45 || c == 95
  }

  /** A number member costs its key, a colon, a comma and at most twenty digits. */
  lemma NumberMember(m: map<Text, Json>, k: Text, n: nat)
    requires k !in m && Plain(k) && n <= UINT64_MAX
    ensures |Dump(Obj(m[k := Num(n)]))| <= |Dump(Obj(m))| + |k| + 24
  {
    hide Sorted, Escape, Digits;
    InsertSize(m, k, Num(n));
    PlainEscape(k);
    Uint64Digits(n);
  }

  lemma TextMember(m: map<Text, Json>, k: Text, v: Text)
    requires k !in m && Plain(k) && Plain(v)
    ensures |Dump(Obj(m[k := Str(v)]))| <= |Dump(Obj(m))| + |k| + |v| + 6
  {
    hide Sorted, Escape;
    InsertSize(m, k, Str(v));
    PlainEscape(k);
    PlainEscape(v);
  }

  predicate PlainChar(c: char) { 32 <= c as int < 127 && c != '"' && c != '\\' }

  lemma WordIsPlain(word: string)
    requires forall i :: 0 <= i < |word| ==> PlainChar(word[i])
    ensures Plain(Ascii(word))
  {
  }

  lemma SeqIsPlain()
    ensures Plain(SEQ)
  {
    WordIsPlain("seq");
  }

  /** A record that passes the size test is never too long once numbered. */
  lemma SlackSuffices(record: map<Text, Json>, n: nat)
    requires !Fragmented(record) && SEQ !in record && n <= UINT64_MAX
    ensures |Line(record, n)| <= FRAME_BYTES
  {
    hide Dump, Ascii;
    SeqIsPlain();
    NumberMember(record, SEQ, n);
  }

  lemma NamesArePlain()
    ensures Plain(ID) && Plain(TYPE) && Plain(RECORD) && Plain(OFFSET) && Plain(TOTAL) && Plain(SHA256)
    ensures Plain(ENCODING) && Plain(DATA)
    ensures Plain(FRAGMENT) && Plain(BASE64_JSON)
  {
    hide Plain, Ascii;
    WordIsPlain("id");
    WordIsPlain("type");
    WordIsPlain("record");
    WordIsPlain("offset");
    WordIsPlain("total");
    WordIsPlain("sha256");
    WordIsPlain("encoding");
    WordIsPlain("data");
    WordIsPlain("fragment");
    WordIsPlain("base64-json");
  }

  lemma FragmentSize(id: Text, record: nat, offset: nat, total: nat, digest: Text, data: Text, n: nat)
    requires Plain(id) && Plain(digest) && Plain(data)
    requires record <= UINT64_MAX && offset <= UINT64_MAX && total <= UINT64_MAX && n <= UINT64_MAX
    ensures |Line(FragmentFrame(id, record, offset, total, digest, data), n)| <= |id| + |digest| + |data| + 256
  {
    hide Dump, Ascii, Plain;
    NamesDiffer();
    NamesArePlain();
    SeqIsPlain();
    var m0 := map[];
    assert |Dump(Obj(m0))| == 2 by { ObjectSize(m0); }
    var m1: map<Text, Json> := map[ID := Str(id)];
    assert m1 == m0[ID := Str(id)];
    TextMember(m0, ID, id);
    var m2 := m1[TYPE := Str(FRAGMENT)];
    TextMember(m1, TYPE, FRAGMENT);
    var m3 := m2[RECORD := Num(record)];
    NumberMember(m2, RECORD, record);
    var m4 := m3[OFFSET := Num(offset)];
    NumberMember(m3, OFFSET, offset);
    var m5 := m4[TOTAL := Num(total)];
    NumberMember(m4, TOTAL, total);
    var m6 := m5[SHA256 := Str(digest)];
    TextMember(m5, SHA256, digest);
    var m7 := m6[ENCODING := Str(BASE64_JSON)];
    TextMember(m6, ENCODING, BASE64_JSON);
    var m8 := m7[DATA := Str(data)];
    TextMember(m7, DATA, data);
    assert m8 == FragmentFrame(id, record, offset, total, digest, data);
    NumberMember(m8, SEQ, n);
  }

  /** No block is refused for its length; a refusal always means the spool is full. */
  lemma RefusedMeansFull(host: Host, s: State, record: nat, text: Text, offset: nat)
    requires IsId(s.id) && Plain(host.sha(text)) && |host.sha(text)| == 64
    requires offset < |text| <= RECORD_BYTES && record <= s.seq_ <= UINT64_MAX
    requires Refuses(s, Line(FragmentAt(host, s.id, record, text, offset), s.seq_), false)
    ensures s.bytes + |Line(FragmentAt(host, s.id, record, text, offset), s.seq_)| + TERMINAL_RESERVE > s.limit
  {
    hide Dump, Ascii, Base64.Encode, Line;
    var piece := text[offset..offset + BlockSize(text, offset)];
    var data := Base64.Encode(piece);
    Base64.EncodeLength(piece);
    Base64.EncodePrintable(piece);
    assert Plain(data);
    FragmentSize(s.id, record, offset, |text|, host.sha(text), data, s.seq_);
  }

  // ---- Terminals are short ----

  lemma {:induction false} EscapeSize(t: Text)
    ensures |Escape(t)| <= 6 * |t|
  {
    if t != [] {
      EscapeSize(t[1..]);
    }
  }

  lemma IdIsPlain(id: Text)
    requires IsId(id)
    ensures Plain(id)
  {
  }

  lemma QuoteSize(t: Text)
    requires Plain(t)
    ensures |Quote(t)| == |t| + 2 && Dump(Str(t)) == Quote(t)
  {
    hide Escape;
    PlainEscape(t);
  }

  lemma TextSize(t: Text)
    ensures |Dump(Str(t))| == |Escape(t)| + 2
  {
    hide Escape;
  }

  /** What one more member costs. */
  lemma WithMember(m: map<Text, Json>, k: Text, v: Json)
    requires k !in m && Plain(k)
    ensures |Dump(Obj(m[k := v]))| == |Dump(Obj(m))| + |k| + 3 + |Dump(v)| + (if m == map[] then 0 else 1)
  {
    hide Dump, Quote, Plain;
    InsertSize(m, k, v);
    QuoteSize(k);
  }

  lemma EmptySize()
    ensures |Dump(Obj(map[]))| == 2
  {
    ObjectSize(map[]);
  }

  lemma NameSizes()
    ensures |ID| == 2 && |TYPE| == 4 && |SEQ| == 3 && |ITEMS| == 5 && |CHUNKS| == 6 && |CHUNK| == 5 && |COMPLETE| == 8
    ensures |ERROR| == 5 && |CODE| == 4 && |MESSAGE| == 7 && |RESULT| == 6
    ensures Plain(ID) && Plain(TYPE) && Plain(SEQ) && Plain(ITEMS) && Plain(CHUNKS) && Plain(CHUNK) && Plain(COMPLETE)
    ensures Plain(ERROR) && Plain(CODE) && Plain(MESSAGE) && Plain(RESULT)
  {
    hide Plain, Ascii;
    NamesArePlain();
    SeqIsPlain();
    WordIsPlain("items");
    WordIsPlain("chunks");
    WordIsPlain("chunk");
    WordIsPlain("complete");
    WordIsPlain("error");
    WordIsPlain("code");
    WordIsPlain("message");
    WordIsPlain("result");
  }

  /** Code and message, as they are printed. */
  function StatusSize(status: Status): nat { |Escape(status.code)| + |Escape(status.message)| }

  lemma ReasonSize(status: Status)
    ensures |Dump(Obj(map[CODE := Str(status.code), MESSAGE := Str(status.message)]))| == StatusSize(status) + 24
  {
    hide Dump, Ascii, Plain, Escape;
    NameSizes();
    EmptySize();
    var m0: map<Text, Json> := map[];
    var m1 := m0[CODE := Str(status.code)];
    WithMember(m0, CODE, Str(status.code));
    WithMember(m1, MESSAGE, Str(status.message));
    TextSize(status.code);
    TextSize(status.message);
    assert m1[MESSAGE := Str(status.message)] == map[CODE := Str(status.code), MESSAGE := Str(status.message)];
  }

  /** An object of one value beside the id and the type. */
  lemma EnvelopeSize(id: Text, type_: Text, k: Text, v: Json, n: nat)
    requires IsId(id) && Plain(type_) && Plain(k) && k != ID && k != TYPE && k != SEQ && n <= UINT64_MAX
    ensures |Dump(Numbered(map[ID := Str(id), TYPE := Str(type_), k := v], n))| <= |type_| + |k| + |Dump(v)| + 150
  {
    hide Dump, Ascii, Plain;
    NameSizes();
    IdIsPlain(id);
    EmptySize();
    var m0: map<Text, Json> := map[];
    var m1 := m0[ID := Str(id)];
    WithMember(m0, ID, Str(id));
    var m2 := m1[TYPE := Str(type_)];
    WithMember(m1, TYPE, Str(type_));
    var m3 := m2[k := v];
    WithMember(m2, k, v);
    QuoteSize(id);
    QuoteSize(type_);
    NumberMember(m3, SEQ, n);
    assert m3 == map[ID := Str(id), TYPE := Str(type_), k := v];
  }

  /** An error costs what its status costs, and little more. */
  lemma ErrorSize(id: Text, status: Status, n: nat)
    requires IsId(id) && n <= UINT64_MAX
    ensures |Dump(Numbered(ErrorRecord(id, status), n))| <= StatusSize(status) + 184
  {
    hide Dump, Ascii, Plain, StatusSize;
    NameSizes();
    NamesDiffer();
    ReasonSize(status);
    EnvelopeSize(id, ERROR, ERROR, Obj(map[CODE := Str(status.code), MESSAGE := Str(status.message)]), n);
  }

  lemma CompleteSize(id: Text, chunks: nat, items: nat, n: nat)
    requires IsId(id) && chunks <= UINT64_MAX && items <= UINT64_MAX && n <= UINT64_MAX
    ensures |Dump(Numbered(CompleteRecord(id, chunks, items), n))| <= 300
  {
    hide Dump, Ascii, Plain;
    NameSizes();
    IdIsPlain(id);
    EmptySize();
    var m0: map<Text, Json> := map[];
    var m1 := m0[ID := Str(id)];
    WithMember(m0, ID, Str(id));
    var m2 := m1[TYPE := Str(COMPLETE)];
    WithMember(m1, TYPE, Str(COMPLETE));
    QuoteSize(id);
    QuoteSize(COMPLETE);
    var m3 := m2[CHUNKS := Num(chunks)];
    NumberMember(m2, CHUNKS, chunks);
    NumberMember(m3, ITEMS, items);
    assert m3[ITEMS := Num(items)] == CompleteRecord(id, chunks, items);
    NumberMember(m3[ITEMS := Num(items)], SEQ, n);
  }

  /** The spool's own reasons to end a log fit the room it keeps for them. */
  lemma OwnStatusSize(status: Status)
    requires status == QUOTA_EXCEEDED || status == TOO_LARGE
    ensures StatusSize(status) <= 400
  {
    hide Escape;
    EscapeSize(status.code);
    EscapeSize(status.message);
  }
}
