/** What the reader guarantees on frames from anyone, with a decoder as lenient as it likes. */
module ReaderSafety {
  import opened Text
  import opened JsonText
  import opened Frames
  import opened Assembling
  import Nesting
  import Base64

  type Piece = map<Text, Json>

  predicate HasData(piece: Piece) { IsText(piece, DATA) }

  /** The bytes of the pieces, each decoded strictly. */
  function Joined(pieces: seq<Piece>): Text
    requires forall p :: p in pieces ==> HasData(p)
    decreases |pieces|
  {
    if pieces == [] then []
    else
      assert HasData(pieces[|pieces| - 1]);
      Joined(pieces[..|pieces| - 1]) + Base64.Decode(pieces[|pieces| - 1][DATA].s)
  }

  /** A fragment of this very record, canonically encoded, that starts at `offset`. */
  predicate PieceOf(id: Text, record: nat, total: nat, digest: Text, offset: nat, p: Piece) {
    && HasData(p) && WellFormed(p) && IsText(p, ID)
    && p[ID] == Str(id) && p[RECORD] == Num(record) && p[TOTAL] == Num(total) && p[SHA256] == Str(digest)
    && p[OFFSET] == Num(offset)
    && Base64.Encode(Base64.Decode(p[DATA].s)) == p[DATA].s
  }

  /** The pieces are contiguous from offset zero and belong to one record. */
  predicate Contiguous(id: Text, record: nat, total: nat, digest: Text, pieces: seq<Piece>)
    decreases |pieces|
  {
    pieces == [] ||
    var before := pieces[..|pieces| - 1];
    && Contiguous(id, record, total, digest, before)
    && (forall p :: p in before ==> HasData(p))
    && PieceOf(id, record, total, digest, |Joined(before)|, pieces[|pieces| - 1])
  }

  lemma ContiguousHasData(id: Text, record: nat, total: nat, digest: Text, pieces: seq<Piece>)
    requires Contiguous(id, record, total, digest, pieces)
    ensures forall p :: p in pieces ==> HasData(p)
  {
    if pieces != [] {
      var before := pieces[..|pieces| - 1];
      assert pieces == before + [pieces[|pieces| - 1]];
    }
  }

  /** History: the pieces whose bytes the reader holds. */
  function Held(host: Host, s: State, pieces: seq<Piece>, frame: Json): seq<Piece> {
    var t := Accept(host, s, frame).0;
    if t.data == [] then [] else if |t.data| > |s.data| && frame.Obj? then pieces + [frame.m] else pieces
  }

  /** What the reader holds is the start of one record within its declared, bounded total. */
  ghost predicate Safe(s: State, pieces: seq<Piece>) {
    && (s.total == 0 ==> s.data == []) && |s.data| <= s.total <= RECORD_BYTES
    && (s.data == [] ==> pieces == [])
    && Contiguous(s.id, s.record, s.total, s.digest, pieces)
    && (ContiguousHasData(s.id, s.record, s.total, s.digest, pieces); Joined(pieces) == s.data)
  }

  lemma Extended(s: State, pieces: seq<Piece>, p: Piece, bytes: Text)
    requires Safe(s, pieces) && HasData(p) && bytes == Base64.Decode(p[DATA].s)
    requires PieceOf(s.id, s.record, s.total, s.digest, |s.data|, p)
    requires 0 < |s.data + bytes| <= s.total
    ensures Safe(s.(data := s.data + bytes), pieces + [p])
  {
    hide Base64.Decode, Base64.Encode;
    var more := pieces + [p];
    ContiguousHasData(s.id, s.record, s.total, s.digest, pieces);
    assert more[..|more| - 1] == pieces && more[|more| - 1] == p;
    assert Contiguous(s.id, s.record, s.total, s.digest, more);
    ContiguousHasData(s.id, s.record, s.total, s.digest, more);
  }

  lemma DecodedIsCanonical(host: Host, encoded: Text, room: int)
    requires |encoded| >= 2
    ensures match Decoded(host, encoded, room)
            case None => true
            case Some(bytes) =>
              0 < |bytes| <= room && Base64.Decode(encoded) == bytes && Base64.Encode(bytes) == encoded
  {
    hide Base64.Decode, Base64.Encode;
    match Decoded(host, encoded, room)
    case None =>
    case Some(bytes) => Base64.DecodeOfEncode(bytes);
  }

  /** The record in progress once a first fragment has set its header. */
  function Header(s: State, frame: Piece): State
    requires IsText(frame, ID) && WellFormed(frame)
  {
    if s.total == 0 then State(s.data, frame[TOTAL].n, frame[RECORD].n, frame[ID].s, frame[SHA256].s) else s
  }

  lemma AcceptFragmentSafe(host: Host, s: State, pieces: seq<Piece>, frame: Piece)
    requires Safe(s, pieces) && IsText(frame, ID)
    ensures var (t, verdict) := AcceptFragment(host, s, frame);
            var held := if t.data == [] then [] else if |t.data| > |s.data| then pieces + [frame] else pieces;
            Safe(t, held)
  {
    hide Base64.Decode, Base64.Encode, Decoded, Logical, Contiguous, Joined, Ascii;
    if WellFormed(frame) && FitsLimits(frame[TOTAL].n, frame[DATA].s) && (s.total != 0 || frame[OFFSET].n == 0) {
      var t := Header(s, frame);
      NothingHeld(s, t, pieces);
      if !(frame[OFFSET].n != |t.data| || frame[TOTAL].n != t.total || frame[RECORD].n != t.record
           || frame[ID].s != t.id || frame[SHA256].s != t.digest) {
        var encoded := frame[DATA].s;
        DecodedIsCanonical(host, encoded, t.total - |t.data|);
        var bytes := Decoded(host, encoded, t.total - |t.data|);
        if bytes.Some? {
          Extended(t, pieces, frame, bytes.value);
          Reset(t.(data := [], total := 0));
        }
      }
    }
  }

  lemma NothingHeld(s: State, t: State, pieces: seq<Piece>)
    requires Safe(s, pieces) && (t == s || (s.total == 0 && t.data == [] && 0 < t.total <= RECORD_BYTES))
    ensures Safe(t, pieces)
  {
  }

  lemma Reset(s: State)
    requires s.data == [] && s.total == 0
    ensures Safe(s, [])
  {
  }

  lemma AcceptSafe(host: Host, s: State, pieces: seq<Piece>, frame: Json)
    requires Safe(s, pieces)
    ensures Safe(Accept(host, s, frame).0, Held(host, s, pieces, frame))
  {
    hide AcceptFragment, Contiguous, Joined, Ascii;
    if frame.Obj? && IsText(frame.m, TYPE) && IsText(frame.m, ID) {
      if frame.m[TYPE] == Str(FRAGMENT) {
        AcceptFragmentSafe(host, s, pieces, frame.m);
      } else if s.total == 0 || frame.m[TYPE] == Str(ERROR) {
        Reset(s.(data := [], total := 0));
      }
    }
  }

  /** The state and the held pieces after any frames whatever, refused ones included. */
  function After(host: Host, frames: seq<Json>): (State, seq<Piece>)
    decreases |frames|
  {
    if frames == [] then (EMPTY, [])
    else
      var (s, pieces) := After(host, frames[..|frames| - 1]);
      var frame := frames[|frames| - 1];
      (Accept(host, s, frame).0, Held(host, s, pieces, frame))
  }

  /** Over any sequence of frames the reader never holds more than the record declares,
      nor more than 16 MiB, and what it holds is the join of canonical, contiguous
      pieces of one record. */
  lemma {:induction false} AlwaysSafe(host: Host, frames: seq<Json>)
    ensures Safe(After(host, frames).0, After(host, frames).1)
    decreases |frames|
  {
    hide Safe, Accept, Held;
    if frames == [] {
      assert Safe(EMPTY, []) by { Reset(EMPTY); }
    } else {
      var before := frames[..|frames| - 1];
      AlwaysSafe(host, before);
      AcceptSafe(host, After(host, before).0, After(host, before).1, frames[|frames| - 1]);
    }
  }

  /** The pieces make up a whole record with the digest they all declare, and `logical`
      is its content, numbered like the last of them. */
  ghost predicate WholeRecord(host: Host, pieces: seq<Piece>, logical: Json) {
    && pieces != [] && (forall p :: p in pieces ==> HasData(p))
    && var last := pieces[|pieces| - 1];
    && WellFormed(last) && IsText(last, ID)
    && Contiguous(last[ID].s, last[RECORD].n, last[TOTAL].n, last[SHA256].s, pieces)
    && var text := Joined(pieces);
    && |text| == last[TOTAL].n && host.sha(text) == last[SHA256].s && Nesting.Accepts(text)
    && match host.parse(text)
       case None => false
       case Some(content) =>
         && content.Obj? && ID in content.m && content.m[ID] == last[ID] && IsLogical(content)
         && logical == Obj(content.m[SEQ := last[SEQ]])
  }

  lemma FragmentReady(host: Host, s: State, pieces: seq<Piece>, frame: Piece)
    requires Safe(s, pieces) && IsText(frame, ID)
    ensures var verdict := AcceptFragment(host, s, frame).1;
            verdict.Ready? ==> WholeRecord(host, pieces + [frame], verdict.logical)
  {
    hide Base64.Decode, Base64.Encode, Decoded, Contiguous, Joined, Ascii, Nesting.Scan, IsLogical;
    var verdict := AcceptFragment(host, s, frame).1;
    if verdict.Ready? {
      var t := Header(s, frame);
      NothingHeld(s, t, pieces);
      var encoded := frame[DATA].s;
      DecodedIsCanonical(host, encoded, t.total - |t.data|);
      var bytes := Decoded(host, encoded, t.total - |t.data|).value;
      Extended(t, pieces, frame, bytes);
      ContiguousHasData(t.id, t.record, t.total, t.digest, pieces + [frame]);
    }
  }

  /** A record becomes ready from fragments only when the fragments held since the last
      reset are exactly that record: after any frames, if the next one is a fragment
      and completes a record, the record is whole. */
  lemma ReadyOnlyWhole(host: Host, frames: seq<Json>, frame: Json)
    ensures var (s, pieces) := After(host, frames);
            var verdict := Accept(host, s, frame).1;
            verdict.Ready? && HasType(frame, FRAGMENT) ==> WholeRecord(host, pieces + [frame.m], verdict.logical)
  {
    hide Safe, AcceptFragment, WholeRecord, After, Ascii;
    var (s, pieces) := After(host, frames);
    AlwaysSafe(host, frames);
    if Accept(host, s, frame).1.Ready? && HasType(frame, FRAGMENT) {
      FragmentReady(host, s, pieces, frame.m);
    }
  }
}
