/** The writer: a bounded, line-oriented response log that always ends in one terminal. */
module Spooling {
  import opened Text
  import opened JsonText
  import opened Frames
  import Base64

  const BLOCK := 48 * 1024
  const SLACK := 64
  const TERMINAL_RESERVE := 1024

  const QUOTA_EXCEEDED := Status(Ascii("quota_exceeded"), Ascii("Response spool or record limit exceeded"))
  const TOO_LARGE := Status(Ascii("payload_too_large"), Ascii("Logical response exceeds 16 MiB"))
  const WRITE_FAILED := Status(Ascii("storage_error"), Ascii("Response spool write failed"))
  const NOT_CREATED := Status(Ascii("storage_error"), Ascii("Cannot create response spool"))
  const NOT_PERSISTED := Status(Ascii("storage_error"), Ascii("Cannot persist response"))

  /** What the writer runs on: the digest it stamps on fragments and the disk, which
      accepts only `room(n)` bytes of a write that starts at file length `n`. */
  datatype Host = Host(sha: Text -> Text, room: nat -> nat)

  /** The fields of a spool, its file, and two history variables: the frames written
      in full and the logical records they carry, numbered as a receiver sees them. */
  datatype State = State(id: Text, limit: nat, open: bool, file: Text, seq_: nat, items: nat, bytes: nat,
                         status: Status, frames: seq<Json>, records: seq<Json>)

  function Created(id: Text, limit: nat, open: bool): State {
    State(id, limit, open, [], 0, 0, 0, if open then OK else NOT_CREATED, [], [])
  }

  function Line(frame: map<Text, Json>, seq_: nat): Text { Dump(Numbered(frame, seq_)) + [NEWLINE] }

  predicate Refuses(s: State, text: Text, terminal: bool) {
    |text| > FRAME_BYTES || (!terminal && s.bytes + |text| + TERMINAL_RESERVE > s.limit)
  }

  function Write(host: Host, s: State, frame: map<Text, Json>, terminal: bool): (State, bool) {
    var text := Line(frame, s.seq_);
    if Refuses(s, text, terminal) then (s.(status := QUOTA_EXCEEDED), false)
    else if !s.open then (s.(status := WRITE_FAILED), false)
    else if host.room(|s.file|) < |text| then
      (s.(status := WRITE_FAILED, file := s.file + text[..host.room(|s.file|)]), false)
    else
      (s.(file := s.file + text, bytes := s.bytes + |text|, seq_ := s.seq_ + 1,
          frames := s.frames + [Numbered(frame, s.seq_)]), true)
  }

  predicate Fragmented(record: map<Text, Json>) { |Dump(Obj(record))| + SLACK > FRAME_BYTES }

  function BlockSize(text: Text, offset: nat): nat
    requires offset <= |text|
  {
    if |text| - offset < BLOCK then |text| - offset else BLOCK
  }

  function FragmentAt(host: Host, id: Text, record: nat, text: Text, offset: nat): map<Text, Json>
    requires offset <= |text|
  {
    FragmentFrame(id, record, offset, |text|, host.sha(text),
                  Base64.Encode(text[offset..offset + BlockSize(text, offset)]))
  }

  function WriteFragments(host: Host, s: State, record: nat, text: Text, offset: nat): (State, bool)
    decreases |text| - offset
  {
    if offset >= |text| then (s, true)
    else
      var (t, ok) := Write(host, s, FragmentAt(host, s.id, record, text, offset), false);
      if ok then WriteFragments(host, t, record, text, offset + BLOCK) else (t, false)
  }

  function WriteRecord(host: Host, s: State, record: map<Text, Json>): (State, bool) {
    var text := Dump(Obj(record));
    if !Fragmented(record) then Noted(record, Write(host, s, record, false))
    else if |text| > RECORD_BYTES then (s.(status := TOO_LARGE), false)
    else Noted(record, WriteFragments(host, s, s.seq_, text, 0))
  }

  /** History: a record written in full is numbered like its last frame. */
  function Noted(record: map<Text, Json>, outcome: (State, bool)): (State, bool) {
    var (s, ok) := outcome;
    if ok && s.seq_ > 0 then (s.(records := s.records + [Numbered(record, s.seq_ - 1)]), ok) else (s, ok)
  }

  function Add(host: Host, s: State, item: Json): (State, bool) {
    if !s.status.Ok() then (s, false)
    else
      var (t, ok) := WriteRecord(host, s, ChunkRecord(s.id, item));
      if ok then (t.(items := t.items + 1), true) else (t, false)
  }

  function Terminal(s: State, status: Status): map<Text, Json> {
    var final := if s.status.Ok() then status else s.status;
    if final.Ok() then CompleteRecord(s.id, s.seq_, s.items) else ErrorRecord(s.id, final)
  }

  function Finish(host: Host, s: State, status: Status, synced: bool): (State, Status) {
    if s.status.code == WRITE_FAILED.code then (s, s.status)
    else
      var (t, ok) := Noted(Terminal(s, status), Write(host, s, Terminal(s, status), true));
      (t, if ok && synced then OK else NOT_PERSISTED)
  }

  function Single(host: Host, s: State, record: map<Text, Json>, synced: bool): (State, Status) {
    var (t, ok) := WriteRecord(host, s, record);
    if !ok then Finish(host, t, t.status, synced)
    else (t, if synced then OK else NOT_PERSISTED)
  }

  /** The writer itself. Its fields are those of the original; `frames` and `records`
      are the history the specification speaks of. */
  class Spool {
    const host: Host
    const id: Text
    const limit: nat
    const open: bool
    var file: Text
    var seq_: nat
    var items: nat
    var bytes: nat
    var status: Status
    ghost var frames: seq<Json>
    ghost var records: seq<Json>

    ghost function Now(): State
      reads this
    {
      State(id, limit, open, file, seq_, items, bytes, status, frames, records)
    }

    constructor (host: Host, id: Text, limit: nat, open: bool)
      ensures Now() == Created(id, limit, open) && this.host == host
    {
      this.host, this.id, this.limit, this.open := host, id, limit, open;
      file, seq_, items, bytes := [], 0, 0, 0;
      status := if open then OK else NOT_CREATED;
      frames, records := [], [];
    }

    method WriteFrame(frame: map<Text, Json>, terminal: bool) returns (ok: bool)
      modifies this
      ensures (Now(), ok) == Write(host, old(Now()), frame, terminal)
    {
      hide Dump, Ascii, Base64.Encode;
      var text := Dump(Obj(frame[SEQ := Num(seq_)])) + [NEWLINE];
      if |text| > FRAME_BYTES || (!terminal && bytes + |text| + TERMINAL_RESERVE > limit) {
        status := QUOTA_EXCEEDED;
        return false;
      }
      if !open {
        status := WRITE_FAILED;
        return false;
      }
      var room := host.room(|file|);
      if room < |text| {
        file := file + text[..room];
        status := WRITE_FAILED;
        return false;
      }
      file := file + text;
      frames := frames + [Numbered(frame, seq_)];
      bytes := bytes + |text|;
      seq_ := seq_ + 1;
      return true;
    }

    method WriteLogical(record: map<Text, Json>) returns (ok: bool)
      modifies this
      ensures (Now(), ok) == WriteRecord(host, old(Now()), record)
    {
      hide Dump, Ascii, Base64.Encode, Write, WriteFragments;
      var text := Dump(Obj(record));
      if |text| + SLACK <= FRAME_BYTES {
        ok := WriteFrame(record, false);
      } else if |text| > RECORD_BYTES {
        status := TOO_LARGE;
        return false;
      } else {
        ok := WriteBlocks(text);
      }
      if ok && seq_ > 0 {
        records := records + [Numbered(record, seq_ - 1)];
      }
    }

    /** The fragments of one record, block by block. */
    method WriteBlocks(text: Text) returns (ok: bool)
      modifies this
      ensures (Now(), ok) == WriteFragments(host, old(Now()), old(seq_), text, 0)
    {
      hide Ascii, Base64.Encode, Write;
      var digest := host.sha(text);
      var first := seq_;
      var offset := 0;
      while offset < |text|
        invariant WriteFragments(host, old(Now()), first, text, 0) == WriteFragments(host, Now(), first, text, offset)
        decreases |text| - offset
      {
        var size := if |text| - offset < BLOCK then |text| - offset else BLOCK;
        var encoded := Base64.Encode(text[offset..offset + size]);
        var written := WriteFrame(FragmentFrame(id, first, offset, |text|, digest, encoded), false);
        if !written {
          return false;
        }
        offset := offset + BLOCK;
      }
      return true;
    }

    method AddItem(item: Json) returns (ok: bool)
      modifies this
      ensures (Now(), ok) == Add(host, old(Now()), item)
    {
      hide Dump, Ascii, Base64.Encode;
      if !status.Ok() {
        return false;
      }
      ok := WriteLogical(ChunkRecord(id, item));
      if ok {
        items := items + 1;
      }
    }

    /** `synced` is whether the final fsync succeeds. */
    method FinishWith(result: Status, synced: bool) returns (final: Status)
      modifies this
      ensures (Now(), final) == Finish(host, old(Now()), result, synced)
    {
      hide Dump, Ascii, Base64.Encode;
      if status.code == WRITE_FAILED.code {
        return status;
      }
      var terminal := if status.Ok() then result else status;
      var frame := if terminal.Ok() then CompleteRecord(id, seq_, items) else ErrorRecord(id, terminal);
      var ok := WriteFrame(frame, true);
      if ok && seq_ > 0 {
        records := records + [Numbered(frame, seq_ - 1)];
      }
      return if !ok || !synced then NOT_PERSISTED else OK;
    }

    method WriteSingle(record: map<Text, Json>, synced: bool) returns (final: Status)
      modifies this
      ensures (Now(), final) == Single(host, old(Now()), record, synced)
    {
      hide Dump, Ascii, Base64.Encode;
      var ok := WriteLogical(record);
      if !ok {
        final := FinishWith(status, synced);
        return;
      }
      return if !synced then NOT_PERSISTED else OK;
    }
  }
}
