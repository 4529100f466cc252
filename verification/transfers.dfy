/** Resumable uploads: a manifest replaced atomically over a data file written in place. */
module Transfers {
  import opened Text
  import opened JsonText
  import opened Sums
  import Spool = SpoolBudget

  const UPLOAD_BYTES := 64 * 1024 * 1024
  const RESERVED_BYTES := 256 * 1024 * 1024
  const SESSION_TRANSFERS := 4
  const PARAMS_BYTES := 16 * 1024 * 1024
  const LIFETIME := 600

  datatype Key = Key(sid: Text, id: Text)

  datatype Manifest = Manifest(session: Text, total: nat, sha256: Text, bytes: nat, next: nat, lastHash: Text,
                               expires: int, committed: bool)

  /** The two files of a transfer: what is visible now, and what could be left after a
      power failure. Of the manifest that is any of `versions`. Of the data at least the
      first `firm` bytes stay and at most `reach` bytes are found; a data file whose
      directory entry is not `linked` may be found in any state. */
  datatype File = File(manifest: Option<Manifest>, versions: set<Option<Manifest>>,
                       data: Option<Text>, linked: bool, firm: nat, reach: nat)

  const NO_FILE := File(None, {None}, None, true, 0, 0)

  /** The directory, and the chunks that made up each transfer as far as it got. */
  datatype Store = Store(files: map<Key, File>, accepted: map<Key, seq<Text>>)

  datatype Request = Nameless | Named(id: Text, op: Operation)

  datatype Operation =
    | Begin(bytes: nat, sha256: Text)
    | MalformedBegin
    | Chunk(number: nat, data: Text)
    | Commit
    | Report
    | Malformed
    | Unknown

  datatype Refusal =
    | InvalidParams | NotFound | Expired | Conflict | Quota | Storage
    | Committed | Mismatch | TooLarge | Incomplete | Checksum | NoMethod

  datatype Reply =
    | Refused(why: Refusal)
    | Resumed(next: nat, committed: bool)
    | Repeated(next: nat)
    | Position(next: nat, bytes: nat, committed: bool)

  // ---- How system calls can go ----

  /** An atomic replacement: nothing happened, it is visible, or it is there to stay. */
  datatype Atomic = Undone | Visible | Durable

  datatype WriteResult = Interrupted | Stopped | Wrote(count: nat)

  datatype Io = Io(opens: bool, writes: seq<WriteResult>, truncates: bool, syncs: bool)

  datatype Faults = Faults(listed: bool, empties: Atomic, io: Io, readable: bool, saves: Atomic)

  // ---- The requests ----

  const HEX_DIGITS := Ascii("0123456789abcdef")

  predicate IsDigest(t: Text) { |t| == 64 && forall c :: c in t ==> c in HEX_DIGITS }

  predicate IsCount(params: map<Text, Json>, key: Text, most: nat) {
    key in params && params[key].Num? && 0 <= params[key].n <= most
  }

  predicate IsString(params: map<Text, Json>, key: Text) { key in params && params[key].Str? }

  const TRANSFER := Ascii("transfer")
  const BYTES := Ascii("bytes")
  const DIGEST := Ascii("sha256")
  const NUMBER := Ascii("seq")
  const DATA := Ascii("data")

  function Read(method_: Text, params: map<Text, Json>): Request {
    if !IsString(params, TRANSFER) || !Spool.IsId(params[TRANSFER].s) then Nameless
    else
      Named(params[TRANSFER].s,
            if method_ == Ascii("transfer.begin") then
              (if |params| != 3 || !IsCount(params, BYTES, UPLOAD_BYTES) || !IsString(params, DIGEST)
               || !IsDigest(params[DIGEST].s)
               then MalformedBegin
               else Begin(params[BYTES].n, params[DIGEST].s))
            else if method_ == Ascii("transfer.chunk") then
              (if |params| != 3 || !IsCount(params, NUMBER, 0xFFFF_FFFF) || !IsString(params, DATA)
               || params[DATA].s == []
               then Malformed
               else Chunk(params[NUMBER].n, params[DATA].s))
            else if method_ == Ascii("transfer.commit") then (if |params| != 1 then Malformed else Commit)
            else if method_ == Ascii("transfer.status") then (if |params| != 1 then Malformed else Report)
            else Unknown)
  }

  // ---- The directory ----

  function FileOf(files: map<Key, File>, key: Key): File { if key in files then files[key] else NO_FILE }

  /** The directory is synced: what is visible is what stays. */
  function Settled(files: map<Key, File>): map<Key, File> {
    map k | k in files :: files[k].(versions := {files[k].manifest}, linked := true)
  }

  function PutManifest(files: map<Key, File>, key: Key, manifest: Manifest, how: Atomic): map<Key, File> {
    var f := FileOf(files, key);
    match how
    case Undone => files
    case Visible => files[key := f.(manifest := Some(manifest), versions := f.versions + {Some(manifest)})]
    case Durable => Settled(files[key := f.(manifest := Some(manifest))])
  }

  /** A new, empty data file takes the place of any other. */
  function PutEmpty(files: map<Key, File>, key: Key, how: Atomic): map<Key, File> {
    var f := FileOf(files, key).(data := Some([]), firm := 0, reach := 0);
    match how
    case Undone => files
    case Visible => files[key := f.(linked := false)]
    case Durable => Settled(files[key := f])
  }

  // ---- Writing in place ----

  /** How much of `size` bytes the write loop gets through, from `written` on. */
  function Written(size: nat, writes: seq<WriteResult>, written: nat): (n: nat)
    requires written <= size
    ensures written <= n <= size
  {
    if written == size || writes == [] then written
    else
      match writes[0]
      case Interrupted => Written(size, writes[1..], written)
      case Stopped => written
      case Wrote(count) => if count == 0 then written else Written(size, writes[1..], Least(size, written + count))
  }

  function Least(a: nat, b: nat): nat { if a < b then a else b }

  function Most(a: nat, b: nat): nat { if a < b then b else a }

  /** A write past the end leaves zeros in between. */
  function Zeros(n: nat): Text { seq(n, _ => 0) }

  function Overwrite(old_: Text, offset: nat, piece: Text): Text {
    if piece == [] then old_
    else
      var long := if |old_| < offset then old_ + Zeros(offset - |old_|) else old_;
      long[..offset] + piece + (if offset + |piece| < |long| then long[offset + |piece|..] else [])
  }

  /** The data file after the chunk was written at `offset`, and whether it is on disk. */
  function WriteChunk(f: File, offset: nat, data: Text, io: Io): (File, bool) {
    if f.data.None? || !io.opens then (f, false)
    else
      var written := Written(|data|, io.writes, 0);
      var long := Overwrite(f.data.value, offset, data[..written]);
      var loose := f.(firm := Least(f.firm, offset), reach := Most(f.reach, |long|));
      if written < |data| || !io.truncates then (loose.(data := Some(long)), false)
      else
        var exact := long[..Least(|long|, offset + |data|)];
        if !io.syncs then (loose.(data := Some(exact)), false)
        else (f.(data := Some(exact), firm := |exact|, reach := |exact|), true)
  }

  // ---- The operations ----

  predicate Present(f: File) { f.manifest.Some? }

  function TotalWeight(): File -> nat { (f: File) => if f.manifest.Some? then f.manifest.value.total else 0 }

  /** Bytes promised to transfers that have a manifest, expired or not. */
  ghost function Reserved(files: map<Key, File>): nat { Sum(files, files.Keys, TotalWeight()) }

  function Held(files: map<Key, File>, sid: Text): set<Key> {
    set k | k in files && Present(files[k]) && files[k].manifest.value.session == sid
  }

  function FirstManifest(sid: Text, bytes: nat, sha256: Text, now: int): Manifest {
    Manifest(sid, bytes, sha256, 0, 0, [], now + LIFETIME, false)
  }

  ghost function DoBegin(s: Store, now: int, key: Key, bytes: nat, sha256: Text, faults: Faults): (Store, Reply) {
    var f := FileOf(s.files, key);
    if f.manifest.Some? then
      var m := f.manifest.value;
      (s, if m.total != bytes || m.sha256 != sha256 then Refused(Conflict) else Resumed(m.next, m.committed))
    else if !faults.listed then (s, Refused(Storage))
    else if |Held(s.files, key.sid)| >= SESSION_TRANSFERS
      || Reserved(s.files) + bytes > RESERVED_BYTES then (s, Refused(Quota))
    else
      var t := s.(files := PutEmpty(s.files, key, faults.empties));
      if faults.empties != Durable then (t, Refused(Storage))
        else Save(t, key, FirstManifest(key.sid, bytes, sha256, now), [], faults)
  }

  /** The manifest replaces the visible one; with it the chunks it counts. */
  function Save(s: Store, key: Key, manifest: Manifest, chunks: seq<Text>, faults: Faults): (Store, Reply) {
    var files := PutManifest(s.files, key, manifest, faults.saves);
    var t := if faults.saves == Undone then s else Store(files, s.accepted[key := chunks]);
    (t, if faults.saves == Durable then Position(manifest.next, manifest.bytes, manifest.committed)
     else Refused(Storage))
  }

  function ChunksOf(s: Store, key: Key): seq<Text> { if key in s.accepted then s.accepted[key] else [] }

  function Counted(s: Store, key: Key, n: nat): seq<Text> { ChunksOf(s, key)[..Least(n, |ChunksOf(s, key)|)] }

  function DoChunk(sha: Text -> Text, s: Store, key: Key, m: Manifest, number: nat, data: Text,
                   faults: Faults): (Store, Reply) {
    if m.next > 0 && number == m.next - 1 && sha(data) == m.lastHash then (s, Repeated(m.next))
    else if m.committed then (s, Refused(Committed))
    else if number != m.next then (s, Refused(Mismatch))
    else if m.bytes + |data| > m.total then (s, Refused(TooLarge))
    else
      var (f, ok) := WriteChunk(FileOf(s.files, key), m.bytes, data, faults.io);
      var t := s.(files := s.files[key := f]);
      if !ok then (t, Refused(Storage))
      else
        Save(t, key, m.(bytes := m.bytes + |data|, next := m.next + 1, lastHash := sha(data)),
             Counted(s, key, m.next) + [data], faults)
  }

  /** No digest when the file cannot be read to its end. */
  function FileHash(sha: Text -> Text, f: File, readable: bool): Text {
    if f.data.None? || !readable then [] else sha(f.data.value)
  }

  function DoCommit(sha: Text -> Text, s: Store, key: Key, m: Manifest, faults: Faults): (Store, Reply) {
    if m.bytes != m.total then (s, Refused(Incomplete))
    else if FileHash(sha, FileOf(s.files, key), faults.readable) != m.sha256 then (s, Refused(Checksum))
    else Save(s, key, m.(committed := true), Counted(s, key, m.next), faults)
  }

  /** The operations on a transfer that was found and has not expired. */
  function DoLoaded(sha: Text -> Text, s: Store, key: Key, m: Manifest, op: Operation, faults: Faults): (Store, Reply) {
    match op
    case Chunk(number, data) => DoChunk(sha, s, key, m, number, data, faults)
    case Commit => DoCommit(sha, s, key, m, faults)
    case Report => Save(s, key, m, Counted(s, key, m.next), faults)
    case Unknown => (s, Refused(NoMethod))
    case _ => (s, Refused(InvalidParams))
  }

  ghost function Handled(sha: Text -> Text, s: Store, now: int, sid: Text, request: Request,
                         faults: Faults): (Store, Reply) {
    if request.Nameless? || request.op.MalformedBegin? then (s, Refused(InvalidParams))
    else
      var key, op := Key(sid, request.id), request.op;
      if op.Begin? then DoBegin(s, now, key, op.bytes, op.sha256, faults)
      else
        var found := FileOf(s.files, key).manifest;
        if found.None? then (s, Refused(NotFound))
        else if found.value.expires <= now then (s, Refused(Expired))
        else DoLoaded(sha, s, key, found.value, op, faults)
  }

  /** The text a committed transfer stands for. */
  function Resolved(s: Store, now: int, sid: Text, id: Text): (Option<Text>, Refusal) {
    var f := FileOf(s.files, Key(sid, id));
    if f.manifest.None? then (None, NotFound)
    else if f.manifest.value.expires <= now then (None, Expired)
    else if !f.manifest.value.committed then (None, Incomplete)
    else if f.manifest.value.total > PARAMS_BYTES then (None, TooLarge)
    else (Some(if f.data.Some? then f.data.value else []), InvalidParams)
  }

  datatype Unlink = Unlink(data: bool, manifest: bool)

  /** One entry of the expiry loop: the data first, then the manifest; either may fail. */
  function ExpireEntry(files: map<Key, File>, now: int, key: Key, how: Unlink): map<Key, File> {
    var f := FileOf(files, key);
    if f.manifest.None? || f.manifest.value.expires > now then files
    else
      var g := if how.data then f.(data := None, linked := false, firm := 0, reach := 0) else f;
      files[key := if how.manifest then g.(manifest := None, versions := g.versions + {None}) else g]
  }

  function Expiry(files: map<Key, File>, now: int, entries: seq<(Key, Unlink)>): map<Key, File>
    decreases |entries|
  {
    if entries == [] then files
    else
      var last := entries[|entries| - 1];
      ExpireEntry(Expiry(files, now, entries[..|entries| - 1]), now, last.0, last.1)
  }
}
