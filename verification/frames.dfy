/** Limits, member names and record shapes shared by both ends of a response. */
module Frames {
  import opened Text
  import opened JsonText

  const FRAME_BYTES := 256 * 1024
  const RECORD_BYTES := 16 * 1024 * 1024
  const SPOOL_BYTES := 64 * 1024 * 1024
  const UINT64_MAX := 0xFFFF_FFFF_FFFF_FFFF

  const ID := Ascii("id")
  const TYPE := Ascii("type")
  const SEQ := Ascii("seq")
  const RECORD := Ascii("record")
  const OFFSET := Ascii("offset")
  const TOTAL := Ascii("total")
  const SHA256 := Ascii("sha256")
  const ENCODING := Ascii("encoding")
  const DATA := Ascii("data")
  const ITEMS := Ascii("items")
  const CHUNKS := Ascii("chunks")
  const ERROR := Ascii("error")
  const CODE := Ascii("code")
  const MESSAGE := Ascii("message")
  const RESULT := Ascii("result")

  const CHUNK := Ascii("chunk")
  const COMPLETE := Ascii("complete")
  const FRAGMENT := Ascii("fragment")
  const BASE64_JSON := Ascii("base64-json")

  /** No two names in play coincide; those of equal length differ in a letter. */
  lemma NamesDiffer()
    ensures TYPE != DATA && TYPE != CODE
    ensures RECORD != OFFSET && RECORD != SHA256 && OFFSET != SHA256
    ensures ERROR != CHUNK && COMPLETE != FRAGMENT && RESULT != SHA256 && TOTAL != ITEMS
    ensures ERROR != TOTAL && ERROR != ITEMS
  {
    assert TYPE[0] != DATA[0] && TYPE[0] != CODE[0];
    assert RECORD[0] != OFFSET[0] && RECORD[0] != SHA256[0] && OFFSET[0] != SHA256[0];
    assert ERROR[0] != CHUNK[0] && COMPLETE[0] != FRAGMENT[0] && RESULT[0] != SHA256[0] && TOTAL[0] != ITEMS[0];
    assert ERROR[0] != TOTAL[0] && ERROR[0] != ITEMS[0];
  }

  /** A status is fine exactly when its code is empty. */
  datatype Status = Status(code: Text, message: Text) {
    predicate Ok() { code == [] }
  }

  const OK := Status([], [])

  function ErrorRecord(id: Text, status: Status): map<Text, Json> {
    map[ID := Str(id), TYPE := Str(ERROR), ERROR := Obj(map[CODE := Str(status.code), MESSAGE := Str(status.message)])]
  }

  function ResultRecord(id: Text, value: Json): map<Text, Json> {
    map[ID := Str(id), TYPE := Str(RESULT), RESULT := value]
  }

  function ChunkRecord(id: Text, item: Json): map<Text, Json> {
    map[ID := Str(id), TYPE := Str(CHUNK), ITEMS := Arr([item])]
  }

  function CompleteRecord(id: Text, chunks: nat, items: nat): map<Text, Json> {
    map[ID := Str(id), TYPE := Str(COMPLETE), CHUNKS := Num(chunks), ITEMS := Num(items)]
  }

  function FragmentFrame(id: Text, record: nat, offset: nat, total: nat, digest: Text, data: Text): map<Text, Json> {
    map[ID := Str(id), TYPE := Str(FRAGMENT), RECORD := Num(record), OFFSET := Num(offset), TOTAL := Num(total),
        SHA256 := Str(digest), ENCODING := Str(BASE64_JSON), DATA := Str(data)]
  }

  /** A frame or logical record as it carries its sequence number. */
  function Numbered(frame: map<Text, Json>, seq_: nat): Json { Obj(frame[SEQ := Num(seq_)]) }

  /** Every frame and record of a response names the request it answers. */
  predicate Addressed(id: Text, frame: map<Text, Json>) { ID in frame && frame[ID] == Str(id) }

  predicate HasType(frame: Json, type_: Text) { frame.Obj? && TYPE in frame.m && frame.m[TYPE] == Str(type_) }

  /** The record types a receiver accepts from fragments, and those that end a response. */
  predicate IsLogical(frame: Json) { HasType(frame, CHUNK) || HasType(frame, RESULT) || HasType(frame, ERROR) }

  predicate IsTerminal(frame: Json) { HasType(frame, COMPLETE) || HasType(frame, RESULT) || HasType(frame, ERROR) }

  // ---- Files of lines ----

  /** The bytes of a file that holds one frame a line. */
  function Lines(frames: seq<Json>): Text {
    if frames == [] then [] else Lines(frames[..|frames| - 1]) + Dump(frames[|frames| - 1]) + [NEWLINE]
  }

  lemma LinesAppend(frames: seq<Json>, frame: Json)
    ensures Lines(frames + [frame]) == Lines(frames) + Dump(frame) + [NEWLINE]
  {
    hide Dump;
    assert (frames + [frame])[..|frames|] == frames;
  }
}
