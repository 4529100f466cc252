/** The answers the gateway gives by itself, and how long they are. */
module InlineReplies {
  import opened Text
  import opened JsonText
  import opened Frames
  import opened SpoolBudget
  import T = Transfers
  import W = Spooling

  // ---- What they are ----

  datatype Reply =
    | Failure(status: Status)
    | Capabilities(vapi: bool)
    | Renewed(expires: nat)
    | Transfer(id: Text, position: T.Reply)

  const METHODS: seq<string> := ["api.describe", "api.replay", "session.renew", "interface.list", "interface.set_state",
                                 "transfer.begin", "transfer.chunk", "transfer.commit", "transfer.status"]

  function Words(words: seq<string>): Json { Arr(seq(|words|, i requires 0 <= i < |words| => Str(Ascii(words[i])))) }

  function Put(m: map<Text, Json>, word: string, v: Json): map<Text, Json> { m[Ascii(word) := v] }

  function Protocol(vapi: bool): map<Text, Json> {
    var m := Put(map[], "protocol", Num(1));
    var m := Put(m, "backend", Str(Ascii(if vapi then "vapi" else "mock")));
    var m := Put(m, "methods", Words(METHODS));
    var m := Put(m, "generated_methods", if vapi then Str(Ascii("api.methods")) else Null);
    var m := Put(m, "response_fragments", Str(Ascii("base64-json")));
    var m := Put(m, "request_retention", Str(Ascii("session_lifetime")));
    var m := Put(m, "events", Bool(false));
    Put(m, "snapshot", Bool(false))
  }

  function WithLimits(m: map<Text, Json>): map<Text, Json> {
    var m := Put(m, "frame_bytes", Num(FRAME_BYTES));
    var m := Put(m, "response_window", Num(32));
    var m := Put(m, "max_upload_bytes", Num(T.UPLOAD_BYTES));
    var m := Put(m, "max_response_bytes", Num(SPOOL_BYTES));
    var m := Put(m, "max_params_bytes", Num(T.PARAMS_BYTES));
    var m := Put(m, "max_record_bytes", Num(RECORD_BYTES));
    var m := Put(m, "max_native_payload_bytes", Num(1024 * 1024));
    var m := Put(m, "lease_seconds", Num(3600));
    Put(m, "max_requests_per_session", Num(128))
  }

  /** The position of a transfer, as its request is answered. */
  function Position(id: Text, position: T.Reply): map<Text, Json> {
    var m := Put(map[], "transfer", Str(id));
    match position
    case Refused(_) => m
    case Resumed(next, committed) => Put(Put(m, "next_seq", Num(next)), "committed", Bool(committed))
    case Repeated(next) => Put(m, "next_seq", Num(next))
    case Position(next, bytes, committed) =>
      Put(Put(Put(m, "next_seq", Num(next)), "bytes", Num(bytes)), "committed", Bool(committed))
  }

  function RecordOf(id: Text, reply: Reply): map<Text, Json> {
    match reply
    case Failure(status) => ErrorRecord(id, status)
    case Capabilities(vapi) => ResultRecord(id, Obj(WithLimits(Protocol(vapi))))
    case Renewed(expires) => ResultRecord(id, Obj(Put(map[], "expires_at", Num(expires))))
    case Transfer(transfer, position) => ResultRecord(id, Obj(Position(transfer, position)))
  }

  predicate Counts(position: T.Reply) {
    match position
    case Refused(_) => false
    case Resumed(next, _) => next <= UINT64_MAX
    case Repeated(next) => next <= UINT64_MAX
    case Position(next, bytes, _) => next <= UINT64_MAX && bytes <= UINT64_MAX
  }

  /** What the handlers see to: causes are short sentences, numbers are machine words and
      transfers are named like requests. */
  predicate Proper(reply: Reply) {
    match reply
    case Failure(status) => StatusSize(status) <= 800
    case Capabilities(_) => true
    case Renewed(expires) => expires <= UINT64_MAX
    case Transfer(id, position) => IsId(id) && Counts(position)
  }

  // ---- How long they are ----

  predicate Within(m: map<Text, Json>, n: nat) { |Dump(Obj(m))| <= n }

  /** A member costs at most this much, even if it replaces another. */
  lemma PutSize(m: map<Text, Json>, word: string, v: Json, n: nat, most: nat)
    requires Within(m, n) && |Dump(v)| <= most
    ensures Within(Put(m, word, v), n + 6 * |word| + most + 4)
  {
    hide Dump, Ascii, Escape;
    var k := Ascii(word);
    var others := m - {k};
    assert Put(m, word, v) == others[k := v];
    InsertSize(others, k, v);
    QuoteAtMost(k);
    if k in m {
      assert m == others[k := m[k]];
      InsertSize(others, k, m[k]);
    } else {
      assert m == others;
    }
  }

  lemma QuoteAtMost(t: Text)
    ensures |Quote(t)| <= 6 * |t| + 2 && |Dump(Str(t))| <= 6 * |t| + 2
  {
    hide Escape;
    EscapeSize(t);
  }

  lemma NumberSize(n: nat)
    requires n <= UINT64_MAX
    ensures |Dump(Num(n))| <= 20
  {
    hide Digits;
    Uint64Digits(n);
  }

  lemma FlagSize(b: bool)
    ensures |Dump(Bool(b))| <= 5
  {
  }

  lemma WordSize(word: string)
    ensures |Dump(Str(Ascii(word)))| <= 6 * |word| + 2
  {
    hide Ascii, Dump;
    QuoteAtMost(Ascii(word));
  }

  lemma {:induction false} ItemsAtMost(xs: seq<Json>, most: nat)
    requires forall x :: x in xs ==> |Dump(x)| <= most
    ensures |DumpItems(xs)| <= |xs| * (most + 1)
  {
    hide Dump, DumpItems;
    if xs == [] {
      NoItems();
    } else {
      ItemsStep(xs);
      var rest := xs[1..];
      assert xs[0] in xs && forall x :: x in rest ==> x in xs;
      ItemsAtMost(rest, most);
      Distribute(|rest|, most + 1);
    }
  }

  lemma NoItems()
    ensures DumpItems([]) == []
  {
  }

  lemma ItemsStep(xs: seq<Json>)
    requires xs != []
    ensures |DumpItems(xs)| <= |Dump(xs[0])| + 1 + |DumpItems(xs[1..])|
  {
    hide Dump;
  }

  lemma Distribute(n: nat, m: nat)
    ensures (n + 1) * m == n * m + m
  {
  }

  lemma WordsSize(words: seq<string>, most: nat)
    requires forall i :: 0 <= i < |words| ==> |words[i]| <= most
    ensures |Dump(Words(words))| <= |words| * (6 * most + 3) + 2
  {
    hide Ascii, DumpItems;
    var xs := Words(words).items;
    forall x | x in xs ensures |Dump(x)| <= 6 * most + 2 {
      var i :| 0 <= i < |words| && x == xs[i];
      WordSize(words[i]);
    }
    ItemsAtMost(xs, 6 * most + 2);
  }

  lemma MethodsSize()
    ensures |Dump(Words(METHODS))| <= 1100
  {
    hide Words, Dump;
    assert forall i :: 0 <= i < |METHODS| ==> |METHODS[i]| <= 19;
    WordsSize(METHODS, 19);
  }

  lemma ProtocolSize(vapi: bool)
    ensures Within(Protocol(vapi), 2000)
  {
    hide Words, Within, Dump, Put, Ascii;
    MethodsSize();
    WordSize("mock");
    WordSize("vapi");
    WordSize("api.methods");
    WordSize("base64-json");
    WordSize("session_lifetime");
    NumberSize(1);
    FlagSize(false);
    NullSize();
    EmptyWithin();
    var m0: map<Text, Json> := map[];
    var m1 := Put(m0, "protocol", Num(1));
    PutSize(m0, "protocol", Num(1), 2, 20);
    var m2 := Put(m1, "backend", Str(Ascii(if vapi then "vapi" else "mock")));
    PutSize(m1, "backend", Str(Ascii(if vapi then "vapi" else "mock")), 74, 26);
    var m3 := Put(m2, "methods", Words(METHODS));
    PutSize(m2, "methods", Words(METHODS), 146, 1100);
    var generated := if vapi then Str(Ascii("api.methods")) else Null;
    var m4 := Put(m3, "generated_methods", generated);
    PutSize(m3, "generated_methods", generated, 1292, 68);
    var m5 := Put(m4, "response_fragments", Str(Ascii("base64-json")));
    PutSize(m4, "response_fragments", Str(Ascii("base64-json")), 1466, 68);
    var m6 := Put(m5, "request_retention", Str(Ascii("session_lifetime")));
    PutSize(m5, "request_retention", Str(Ascii("session_lifetime")), 1646, 98);
    var m7 := Put(m6, "events", Bool(false));
    PutSize(m6, "events", Bool(false), 1850, 5);
    PutSize(m7, "snapshot", Bool(false), 1895, 5);
    Loosen(Protocol(vapi), 1952, 2000);
  }

  lemma Loosen(m: map<Text, Json>, n: nat, more: nat)
    requires Within(m, n) && n <= more
    ensures Within(m, more)
  {
  }

  lemma NumberPut(m: map<Text, Json>, word: string, v: nat, n: nat)
    requires Within(m, n) && v <= UINT64_MAX
    ensures Within(Put(m, word, Num(v)), n + 6 * |word| + 24)
  {
    hide Within, Put, Dump;
    NumberSize(v);
    PutSize(m, word, Num(v), n, 20);
  }

  lemma LimitsSize(m: map<Text, Json>)
    requires Within(m, 2000)
    ensures Within(WithLimits(m), 3200)
  {
    hide Within, Put;
    NumberPut(m, "frame_bytes", FRAME_BYTES, 2000);
    var m1 := Put(m, "frame_bytes", Num(FRAME_BYTES));
    NumberPut(m1, "response_window", 32, 2090);
    var m2 := Put(m1, "response_window", Num(32));
    NumberPut(m2, "max_upload_bytes", T.UPLOAD_BYTES, 2204);
    var m3 := Put(m2, "max_upload_bytes", Num(T.UPLOAD_BYTES));
    NumberPut(m3, "max_response_bytes", SPOOL_BYTES, 2324);
    var m4 := Put(m3, "max_response_bytes", Num(SPOOL_BYTES));
    NumberPut(m4, "max_params_bytes", T.PARAMS_BYTES, 2456);
    var m5 := Put(m4, "max_params_bytes", Num(T.PARAMS_BYTES));
    NumberPut(m5, "max_record_bytes", RECORD_BYTES, 2576);
    var m6 := Put(m5, "max_record_bytes", Num(RECORD_BYTES));
    NumberPut(m6, "max_native_payload_bytes", 1024 * 1024, 2696);
    var m7 := Put(m6, "max_native_payload_bytes", Num(1024 * 1024));
    NumberPut(m7, "lease_seconds", 3600, 2864);
    var m8 := Put(m7, "lease_seconds", Num(3600));
    NumberPut(m8, "max_requests_per_session", 128, 2966);
    Loosen(WithLimits(m), 3134, 3200);
  }

  lemma PositionSize(id: Text, position: T.Reply)
    requires IsId(id) && Counts(position)
    ensures Within(Position(id, position), 3200)
  {
    hide Within, Put, Dump;
    EmptyWithin();
    QuoteAtMost(id);
    PutSize(map[], "transfer", Str(id), 2, 578);
    var m := Put(map[], "transfer", Str(id));
    match position
    case Refused(_) =>
    case Resumed(next, committed) =>
      NumberPut(m, "next_seq", next, 632);
      FlagSize(committed);
      PutSize(Put(m, "next_seq", Num(next)), "committed", Bool(committed), 704, 5);
      Loosen(Position(id, position), 767, 3200);
    case Repeated(next) =>
      NumberPut(m, "next_seq", next, 632);
      Loosen(Position(id, position), 704, 3200);
    case Position(next, bytes, committed) =>
      NumberPut(m, "next_seq", next, 632);
      NumberPut(Put(m, "next_seq", Num(next)), "bytes", bytes, 704);
      FlagSize(committed);
      PutSize(Put(Put(m, "next_seq", Num(next)), "bytes", Num(bytes)), "committed", Bool(committed), 758, 5);
      Loosen(Position(id, position), 821, 3200);
  }

  lemma ResultSize(id: Text, m: map<Text, Json>)
    requires IsId(id) && Within(m, 3200)
    ensures |Dump(Numbered(ResultRecord(id, Obj(m)), 0))| < 3500
  {
    hide Dump, Ascii, Plain;
    NameSizes();
    NamesDiffer();
    EnvelopeSize(id, RESULT, RESULT, Obj(m), 0);
  }

  /** Whatever the gateway answers by itself fits 4 KiB, its number and the end of its line included. */
  lemma InlineIsShort(id: Text, reply: Reply)
    requires IsId(id) && Proper(reply)
    ensures |W.Line(RecordOf(id, reply), 0)| <= 4096
  {
    hide Within, Put, Dump, Ascii, StatusSize, Protocol, WithLimits, Position, Numbered, ErrorRecord, ResultRecord;
    match reply
    case Failure(status) => ErrorSize(id, status, 0);
    case Capabilities(vapi) =>
      ProtocolSize(vapi);
      LimitsSize(Protocol(vapi));
      ResultSize(id, WithLimits(Protocol(vapi)));
    case Renewed(expires) =>
      EmptyWithin();
      NumberPut(map[], "expires_at", expires, 2);
      Loosen(Put(map[], "expires_at", Num(expires)), 86, 3200);
      ResultSize(id, Put(map[], "expires_at", Num(expires)));
    case Transfer(transfer, position) =>
      PositionSize(transfer, position);
      ResultSize(id, Position(transfer, position));
  }

  /** Each is a result or an error of its request, and ends its log. */
  lemma InlineEnds(id: Text, reply: Reply)
    ensures var record := RecordOf(id, reply);
            && Addressed(id, record) && IsLogical(Obj(record)) && IsTerminal(Obj(record)) && SEQ !in record
            && IsTerminal(Numbered(record, 0)) && Addressed(id, Numbered(record, 0).m)
  {
    hide Ascii, Protocol, WithLimits, Position, Put;
    NamesDiffer();
  }

  /** The log of such a reply. */
  function LogOf(id: Text, reply: Reply): seq<Json> { [Numbered(RecordOf(id, reply), 0)] }

  lemma LogLine(id: Text, reply: Reply)
    ensures Lines(LogOf(id, reply)) == W.Line(RecordOf(id, reply), 0)
  {
    hide Dump, RecordOf, Numbered;
    assert LogOf(id, reply)[..0] == [];
  }

  lemma EmptyWithin()
    ensures Within(map[], 2)
  {
    EmptySize();
  }

  lemma NullSize()
    ensures |Dump(Null)| == 4
  {
  }
}
