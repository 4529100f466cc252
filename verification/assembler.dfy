/** The reader: puts the fragments of one logical record back together. */
module Assembling {
  import opened Text
  import opened JsonText
  import opened Frames
  import Nesting
  import Base64

  /** What the reader runs on: the digest, the JSON parser and the base64 decoder of
      the platform. The decoder may be lenient; `None` is its negative count. */
  datatype Host = Host(sha: Text -> Text, parse: Text -> Option<Json>, unbase64: Text -> Option<Text>)

  datatype State = State(data: Text, total: nat, record: nat, id: Text, digest: Text)

  const EMPTY := State([], 0, 0, [], [])

  /** `More`: accepted, the record is unfinished. `Ready`: one logical frame. */
  datatype Verdict = Invalid | More | Ready(logical: Json)

  predicate IsText(frame: map<Text, Json>, key: Text) { key in frame && frame[key].Str? }

  predicate IsUnsigned(frame: map<Text, Json>, key: Text) {
    key in frame && frame[key].Num? && 0 <= frame[key].n <= UINT64_MAX
  }

  predicate WellFormed(frame: map<Text, Json>) {
    && IsUnsigned(frame, RECORD) && IsUnsigned(frame, OFFSET) && IsUnsigned(frame, TOTAL) && IsUnsigned(frame, SEQ)
    && IsText(frame, SHA256) && IsText(frame, DATA)
    && ENCODING in frame && frame[ENCODING] == Str(BASE64_JSON)
  }

  predicate FitsLimits(total: nat, encoded: Text) {
    && 0 < total <= RECORD_BYTES
    && 0 < |encoded| <= 64 * 1024 && |encoded| % 4 == 0
  }

  /** The decoder's bytes without those the padding stands for; `None` unless they
      are at least one, at most `room`, and encode back to exactly this text. */
  function Decoded(host: Host, encoded: Text, room: int): Option<Text>
    requires |encoded| >= 2
  {
    match host.unbase64(encoded)
    case None => None
    case Some(raw) =>
      var count := |raw| - Base64.Padding(encoded);
      if count <= 0 || count > room || Base64.Encode(raw[..count]) != encoded then None
      else Some(raw[..count])
  }

  /** What a finished record must be, and the frame it becomes. */
  function Logical(host: Host, s: State, seq_: Json): Verdict {
    if host.sha(s.data) != s.digest || !Nesting.Accepts(s.data) then Invalid
    else
      match host.parse(s.data)
      case None => Invalid
      case Some(logical) =>
        if !logical.Obj? || ID !in logical.m || logical.m[ID] != Str(s.id) || !IsLogical(logical) then Invalid
        else Ready(Obj(logical.m[SEQ := seq_]))
  }

  function AcceptFragment(host: Host, s: State, frame: map<Text, Json>): (State, Verdict)
    requires IsText(frame, ID)
  {
    if !WellFormed(frame) then (s, Invalid)
    else
      var total, offset, encoded := frame[TOTAL].n, frame[OFFSET].n, frame[DATA].s;
      if !FitsLimits(total, encoded) || (s.total == 0 && offset != 0) then (s, Invalid)
      else
        var t := if s.total == 0 then State(s.data, total, frame[RECORD].n, frame[ID].s, frame[SHA256].s) else s;
        if offset != |t.data| || total != t.total || frame[RECORD].n != t.record || frame[ID].s != t.id
          || frame[SHA256].s != t.digest
        then (t, Invalid)
        else Continue(host, t, encoded, frame[SEQ])
  }

  /** The next bytes of the record in progress. */
  function Continue(host: Host, t: State, encoded: Text, seq_: Json): (State, Verdict)
    requires |encoded| >= 2
  {
    match Decoded(host, encoded, t.total - |t.data|)
    case None => (t, Invalid)
    case Some(bytes) =>
      var u := t.(data := t.data + bytes);
      if |u.data| != u.total then (u, More)
      else
        var verdict := Logical(host, u, seq_);
        (if verdict.Ready? then u.(data := [], total := 0) else u, verdict)
  }

  function Accept(host: Host, s: State, frame: Json): (State, Verdict) {
    if !frame.Obj? || !IsText(frame.m, TYPE) || !IsText(frame.m, ID) then (s, Invalid)
    else if frame.m[TYPE] != Str(FRAGMENT) then
      if s.total != 0 && frame.m[TYPE] != Str(ERROR) then (s, Invalid)
      else (s.(data := [], total := 0), Ready(frame))
    else AcceptFragment(host, s, frame.m)
  }

  /** The reader itself. */
  class ResponseAssembler {
    const host: Host
    var data: Text
    var id: Text
    var digest: Text
    var total: nat
    var record: nat

    ghost function Now(): State
      reads this
    {
      State(data, total, record, id, digest)
    }

    constructor (host: Host)
      ensures Now() == EMPTY && this.host == host
    {
      this.host := host;
      data, id, digest, total, record := [], [], [], 0, 0;
    }

    method AcceptFrame(frame: Json) returns (verdict: Verdict)
      modifies this
      ensures (Now(), verdict) == Accept(host, old(Now()), frame)
    {
      hide Ascii, Base64.Encode;
      if !frame.Obj? || TYPE !in frame.m || !frame.m[TYPE].Str? || ID !in frame.m || !frame.m[ID].Str? {
        return Invalid;
      }
      if frame.m[TYPE] != Str(FRAGMENT) {
        if total != 0 && frame.m[TYPE] != Str(ERROR) {
          return Invalid;
        }
        data := [];
        total := 0;
        return Ready(frame);
      }
      verdict := AcceptPiece(frame.m);
    }

    method AcceptPiece(frame: map<Text, Json>) returns (verdict: Verdict)
      requires IsText(frame, ID)
      modifies this
      ensures (Now(), verdict) == AcceptFragment(host, old(Now()), frame)
    {
      hide Ascii, Continue;
      if !WellFormed(frame) {
        return Invalid;
      }
      var declared, offset, encoded := frame[TOTAL].n, frame[OFFSET].n, frame[DATA].s;
      if declared == 0 || declared > RECORD_BYTES || encoded == [] || |encoded| > 64 * 1024 || |encoded| % 4 != 0 {
        return Invalid;
      }
      if total == 0 {
        if offset != 0 {
          return Invalid;
        }
        total := declared;
        record := frame[RECORD].n;
        id := frame[ID].s;
        digest := frame[SHA256].s;
      }
      if offset != |data| || declared != total || frame[RECORD].n != record || frame[ID].s != id
        || frame[SHA256].s != digest {
        return Invalid;
      }
      verdict := Extend(encoded, frame[SEQ]);
    }

    method Extend(encoded: Text, seq_: Json) returns (verdict: Verdict)
      requires |encoded| >= 2
      modifies this
      ensures (Now(), verdict) == Continue(host, old(Now()), encoded, seq_)
    {
      hide Ascii, Decoded, Logical;
      var bytes := DecodePiece(encoded, total - |data|);
      if bytes.None? {
        return Invalid;
      }
      data := data + bytes.value;
      if |data| != total {
        return More;
      }
      verdict := Conclude(seq_);
      if verdict.Ready? {
        data := [];
        total := 0;
      }
    }

    method DecodePiece(encoded: Text, room: int) returns (bytes: Option<Text>)
      requires |encoded| >= 2
      ensures bytes == Decoded(host, encoded, room)
    {
      hide Ascii, Base64.Encode;
      var raw := host.unbase64(encoded);
      if raw.None? {
        return None;
      }
      var count := |raw.value|;
      if encoded[|encoded| - 1] == Base64.PAD {
        count := count - 1;
      }
      if encoded[|encoded| - 2] == Base64.PAD {
        count := count - 1;
      }
      if count <= 0 || count > room {
        return None;
      }
      var decoded := raw.value[..count];
      return if Base64.Encode(decoded) != encoded then None else Some(decoded);
    }

    method Conclude(seq_: Json) returns (verdict: Verdict)
      ensures verdict == Logical(host, Now(), seq_)
    {
      hide Ascii;
      if host.sha(data) != digest {
        return Invalid;
      }
      var shallow := Nesting.CheckNesting(data);
      if !shallow {
        return Invalid;
      }
      var parsed := host.parse(data);
      if parsed.None? || !parsed.value.Obj? {
        return Invalid;
      }
      var logical := parsed.value;
      if ID !in logical.m || logical.m[ID] != Str(id) || !IsLogical(logical) {
        return Invalid;
      }
      return Ready(Obj(logical.m[SEQ := seq_]));
    }
  }
}
