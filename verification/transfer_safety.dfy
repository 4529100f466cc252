/** What holds of every upload, whatever system calls fail and whenever the power does. */
module TransferSafety {
  import opened Text
  import opened Sums
  import opened Transfers
  import JsonText

  // ---- Runs ----

  /** What a power failure leaves of a transfer. */
  datatype Left = Left(manifest: Option<Manifest>, data: Option<Text>)

  datatype Action =
    | Tick(time: int)
    | Call(sid: Text, request: Request, faults: Faults)
    | Expire(entries: seq<(Key, Unlink)>)
    | PowerFail(left: map<Key, Left>)

  datatype World = World(now: int, store: Store)

  /** What the request parser lets through. */
  predicate Sane(request: Request) {
    request.Named? ==>
      && (request.op.Begin? ==> request.op.bytes <= UPLOAD_BYTES && |request.op.sha256| == 64)
      && (request.op.Chunk? ==> request.op.data != [])
  }

  lemma ReadIsSane(method_: Text, params: map<Text, JsonText.Json>)
    ensures Sane(Read(method_, params))
  {
    hide Ascii;
  }

  /** Any version of the manifest; of the data what was synced, and no more than was there. */
  predicate CanBeLeft(f: File, left: Left) {
    && left.manifest in f.versions
    && (f.linked ==>
          && (f.data.None? <==> left.data.None?)
          && (f.data.Some? && f.firm <= |f.data.value| ==>
                f.firm <= |left.data.value| <= f.reach && left.data.value[..f.firm] == f.data.value[..f.firm]))
  }

  function Found(left: Left): File {
    var size := if left.data.Some? then |left.data.value| else 0;
    File(left.manifest, {left.manifest}, left.data, true, size, size)
  }

  predicate Enabled(w: World, a: Action) {
    match a
    case Tick(time) => w.now <= time
    case Call(sid, request, faults) => Sane(request)
    case Expire(entries) => true
    case PowerFail(left) =>
      left.Keys == w.store.files.Keys && forall k :: k in left ==> CanBeLeft(w.store.files[k], left[k])
  }

  ghost function Step(sha: Text -> Text, w: World, a: Action): World {
    if !Enabled(w, a) then w
    else
      match a
      case Tick(time) => w.(now := time)
      case Call(sid, request, faults) => w.(store := Handled(sha, w.store, w.now, sid, request, faults).0)
      case Expire(entries) => w.(store := w.store.(files := Expiry(w.store.files, w.now, entries)))
      case PowerFail(left) => w.(store := w.store.(files := map k | k in left :: Found(left[k])))
  }

  /** The guard on calls is what parsing guarantees, so it stops no request. */
  lemma ParsedRequestsRun(sha: Text -> Text, w: World, sid: Text, method_: Text, params: map<Text, JsonText.Json>,
                          faults: Faults)
    ensures var request := Read(method_, params);
            Step(sha, w, Call(sid, request, faults))
            == w.(store := Handled(sha, w.store, w.now, sid, request, faults).0)
  {
    hide Read, Handled;
    ReadIsSane(method_, params);
  }

  const NOTHING := World(0, Store(map[], map[]))

  ghost function After(sha: Text -> Text, actions: seq<Action>): World
    decreases |actions|
  {
    if actions == [] then NOTHING else Step(sha, After(sha, actions[..|actions| - 1]), actions[|actions| - 1])
  }

  // ---- The invariant ----

  function Concat(chunks: seq<Text>): Text
    decreases |chunks|
  {
    if chunks == [] then [] else Concat(chunks[..|chunks| - 1]) + chunks[|chunks| - 1]
  }

  /** One manifest, visible or possible after a power failure, of a transfer that has
      not expired: the data starts with the chunks it counts, they are on disk, and a
      committed one has the whole data with the promised digest. */
  ghost predicate GoodVersion(sha: Text -> Text, f: File, chunks: seq<Text>, m: Manifest) {
    && |m.sha256| == 64 && m.next <= |chunks| && m.total <= UPLOAD_BYTES
    && f.data.Some? && f.linked && m.bytes <= f.firm <= |f.data.value| <= f.reach <= m.total
    && f.data.value[..m.bytes] == Concat(chunks[..m.next])
    && m.lastHash == (if m.next == 0 then [] else sha(chunks[m.next - 1]))
    && (m.committed ==> m.bytes == m.total && sha(f.data.value) == m.sha256)
  }

  /** The visible manifest is the one furthest on. */
  predicate Ahead(f: File, m: Manifest) {
    && f.manifest.Some? && f.manifest.value.expires == m.expires && f.manifest.value.total == m.total
    && m.next <= f.manifest.value.next && m.bytes <= f.manifest.value.bytes
  }

  ghost predicate GoodFile(sha: Text -> Text, now: int, f: File, chunks: seq<Text>, key: Key) {
    && f.manifest in f.versions
    && (forall m: Manifest :: Some(m) in f.versions ==> m.session == key.sid)
    && (forall m, n: Manifest :: Some(m) in f.versions && Some(n) in f.versions ==> m.total == n.total)
    && (forall m: Manifest :: Some(m) in f.versions && m.expires > now ==>
          GoodVersion(sha, f, chunks, m) && Ahead(f, m))
  }

  ghost predicate Uploads(sha: Text -> Text, w: World) {
    forall key :: key in w.store.files ==> GoodFile(sha, w.now, w.store.files[key], ChunksOf(w.store, key), key)
  }

  // ---- One file ----

  lemma OverwriteFacts(d: Text, offset: nat, piece: Text)
    requires offset <= |d|
    ensures var long := Overwrite(d, offset, piece);
            && |long| == Most(|d|, offset + |piece|) && long[..offset] == d[..offset]
            && long[offset..offset + |piece|] == piece
  {
  }

  lemma ConcatAppend(chunks: seq<Text>, data: Text)
    ensures Concat(chunks + [data]) == Concat(chunks) + data
  {
    assert (chunks + [data])[..|chunks|] == chunks;
  }

  /** What a chunk writes, in full or in part, lies behind everything that is counted. */
  lemma WriteChunkFacts(f: File, offset: nat, data: Text, io: Io)
    requires f.data.Some? && offset <= f.firm <= |f.data.value| <= f.reach && data != []
    ensures var (g, ok) := WriteChunk(f, offset, data, io);
            && g.manifest == f.manifest && g.versions == f.versions && g.linked == f.linked && g.data.Some?
            && offset <= g.firm <= |g.data.value| <= g.reach <= Most(f.reach, offset + |data|)
            && g.data.value[..offset] == f.data.value[..offset]
            && (ok ==> g.data.value == f.data.value[..offset] + data && g.firm == |g.data.value| == g.reach)
  {
    if io.opens {
      var written := Written(|data|, io.writes, 0);
      OverwriteFacts(f.data.value, offset, data[..written]);
      assert written == |data| ==> data[..written] == data;
    }
  }

  lemma VersionStays(sha: Text -> Text, f: File, g: File, chunks: seq<Text>, more: seq<Text>, m: Manifest)
    requires GoodVersion(sha, f, chunks, m)
    requires g.data.Some? && g.linked && m.bytes <= g.firm <= |g.data.value| <= g.reach <= m.total
    requires g.data.value[..m.bytes] == f.data.value[..m.bytes]
    requires m.next <= |more| && more[..m.next] == chunks[..m.next]
    ensures GoodVersion(sha, g, more, m)
  {
    if m.committed {
      assert g.data.value == g.data.value[..m.bytes] && f.data.value == f.data.value[..m.bytes];
    }
    if m.next > 0 {
      assert more[m.next - 1] == more[..m.next][m.next - 1] == chunks[..m.next][m.next - 1];
    }
  }

  lemma SettledGood(sha: Text -> Text, now: int, f: File, chunks: seq<Text>, key: Key)
    requires GoodFile(sha, now, f, chunks, key)
    ensures GoodFile(sha, now, f.(versions := {f.manifest}, linked := true), chunks, key)
  {
    hide Concat;
  }

  /** Writing a chunk keeps every version good, whether or not it succeeds. */
  lemma ChunkKeeps(sha: Text -> Text, now: int, f: File, chunks: seq<Text>, key: Key, data: Text, io: Io)
    requires GoodFile(sha, now, f, chunks, key) && data != []
    requires f.manifest.Some? && f.manifest.value.expires > now
    requires f.manifest.value.bytes + |data| <= f.manifest.value.total
    ensures GoodFile(sha, now, WriteChunk(f, f.manifest.value.bytes, data, io).0, chunks, key)
  {
    hide Concat, WriteChunk;
    var visible := f.manifest.value;
    WriteChunkFacts(f, visible.bytes, data, io);
    var g := WriteChunk(f, visible.bytes, data, io).0;
    forall m: Manifest | Some(m) in g.versions && m.expires > now
      ensures GoodVersion(sha, g, chunks, m) && Ahead(g, m)
    {
      assert g.data.value[..m.bytes] == g.data.value[..visible.bytes][..m.bytes];
      assert f.data.value[..m.bytes] == f.data.value[..visible.bytes][..m.bytes];
      VersionStays(sha, f, g, chunks, chunks, m);
    }
  }

  /** A manifest for the same transfer, no further back than the visible one, may
      replace it once it is good itself. */
  lemma SaveKeeps(sha: Text -> Text, now: int, f: File, chunks: seq<Text>, more: seq<Text>, key: Key, m: Manifest)
    requires GoodFile(sha, now, f, chunks, key) && GoodVersion(sha, f, more, m) && m.session == key.sid
    requires f.manifest.Some? && f.manifest.value.expires == m.expires > now && f.manifest.value.total == m.total
    requires f.manifest.value.next <= m.next && f.manifest.value.bytes <= m.bytes
    requires more[..f.manifest.value.next] == chunks[..f.manifest.value.next]
    ensures GoodFile(sha, now, f.(manifest := Some(m), versions := f.versions + {Some(m)}), more, key)
  {
    hide Concat;
    var visible := f.manifest.value;
    var g := f.(manifest := Some(m), versions := f.versions + {Some(m)});
    forall n: Manifest | Some(n) in g.versions && n.expires > now ensures GoodVersion(sha, g, more, n) && Ahead(g, n) {
      if n != m {
        assert more[..n.next] == more[..visible.next][..n.next];
        assert chunks[..n.next] == chunks[..visible.next][..n.next];
        VersionStays(sha, f, g, chunks, more, n);
      } else {
        VersionStays(sha, f, g, more, more, m);
      }
    }
  }

  /** The manifest after a chunk that is on disk. */
  lemma NextManifest(sha: Text -> Text, f: File, g: File, chunks: seq<Text>, m: Manifest, data: Text)
    requires GoodVersion(sha, f, chunks, m) && data != [] && m.bytes + |data| <= m.total && !m.committed
    requires g.data.Some? && g.linked && g.data.value == f.data.value[..m.bytes] + data
    requires g.firm == |g.data.value| == g.reach
    ensures GoodVersion(sha, g, chunks[..m.next] + [data],
                        m.(bytes := m.bytes + |data|, next := m.next + 1, lastHash := sha(data)))
  {
    ConcatAppend(chunks[..m.next], data);
    var more := chunks[..m.next] + [data];
    assert more[..m.next + 1] == more;
  }

  lemma PowerFailKeeps(sha: Text -> Text, now: int, f: File, chunks: seq<Text>, key: Key, left: Left)
    requires GoodFile(sha, now, f, chunks, key) && CanBeLeft(f, left)
    ensures GoodFile(sha, now, Found(left), chunks, key)
  {
    hide Concat;
    if left.manifest.Some? && left.manifest.value.expires > now {
      var m := left.manifest.value;
      assert GoodVersion(sha, f, chunks, m);
      assert left.data.value[..m.bytes] == left.data.value[..f.firm][..m.bytes];
      assert f.data.value[..m.bytes] == f.data.value[..f.firm][..m.bytes];
      VersionStays(sha, f, Found(left), chunks, chunks, m);
    }
  }

  // ---- Steps ----

  lemma SettledKeeps(sha: Text -> Text, w: World, v: World)
    requires Uploads(sha, w) && v.now == w.now && v.store == w.store.(files := Settled(w.store.files))
    ensures Uploads(sha, v)
  {
    hide GoodFile;
    forall key | key in v.store.files ensures GoodFile(sha, v.now, v.store.files[key], ChunksOf(v.store, key), key) {
      SettledGood(sha, w.now, w.store.files[key], ChunksOf(w.store, key), key);
    }
  }

  /** One file is replaced. */
  lemma ReplacedKeeps(sha: Text -> Text, w: World, v: World, key: Key)
    requires Uploads(sha, w) && v.now == w.now && key in v.store.files
    requires v.store.files == w.store.files[key := v.store.files[key]]
    requires forall k :: k != key ==> ChunksOf(v.store, k) == ChunksOf(w.store, k)
    requires GoodFile(sha, w.now, v.store.files[key], ChunksOf(v.store, key), key)
    ensures Uploads(sha, v)
  {
    hide GoodFile;
  }

  lemma SaveUploads(sha: Text -> Text, w: World, key: Key, m: Manifest, more: seq<Text>, faults: Faults)
    requires Uploads(sha, w) && m.session == key.sid
    requires var f := FileOf(w.store.files, key);
             && GoodVersion(sha, f, more, m)
             && f.manifest.Some? && f.manifest.value.expires == m.expires > w.now && f.manifest.value.total == m.total
             && f.manifest.value.next <= m.next && f.manifest.value.bytes <= m.bytes
             && more[..f.manifest.value.next] == Counted(w.store, key, f.manifest.value.next)
    ensures Uploads(sha, w.(store := Save(w.store, key, m, more, faults).0))
  {
    hide GoodVersion, Concat, GoodFile;
    var f := FileOf(w.store.files, key);
    GoodHere(sha, w, key);
    var g := f.(manifest := Some(m), versions := f.versions + {Some(m)});
    assert Counted(w.store, key, f.manifest.value.next) == ChunksOf(w.store, key)[..f.manifest.value.next] by {
      CountsChunks(sha, w, key);
    }
    SaveKeeps(sha, w.now, f, ChunksOf(w.store, key), more, key, m);
    var visible := w.(store := Store(w.store.files[key := g], w.store.accepted[key := more]));
    ReplacedKeeps(sha, w, visible, key);
    if faults.saves == Durable {
      var settled := visible.(store := visible.store.(files := Settled(visible.store.files)));
      SettledKeeps(sha, visible, settled);
      SettledAgree(w.store.files, key, m);
    }
  }

  lemma GoodHere(sha: Text -> Text, w: World, key: Key)
    requires Uploads(sha, w) && FileOf(w.store.files, key).manifest.Some?
    ensures key in w.store.files && GoodFile(sha, w.now, FileOf(w.store.files, key), ChunksOf(w.store, key), key)
  {
    hide GoodFile;
  }

  lemma CountsChunks(sha: Text -> Text, w: World, key: Key)
    requires Uploads(sha, w)
    requires var f := FileOf(w.store.files, key); f.manifest.Some? && f.manifest.value.expires > w.now
    ensures FileOf(w.store.files, key).manifest.value.next <= |ChunksOf(w.store, key)|
    ensures var next := FileOf(w.store.files, key).manifest.value.next;
            Counted(w.store, key, next) == ChunksOf(w.store, key)[..next]
  {
    hide Concat;
    GoodHere(sha, w, key);
  }

  /** Settling forgets what was possible, so the order does not matter. */
  lemma SettledAgree(files: map<Key, File>, key: Key, m: Manifest)
    ensures Settled(PutManifest(files, key, m, Visible)) == PutManifest(files, key, m, Durable)
  {
  }

  /** A file without a manifest promises nothing. */
  lemma AbsentGood(sha: Text -> Text, w: World, key: Key)
    requires Uploads(sha, w) && FileOf(w.store.files, key).manifest.None?
    ensures var f := FileOf(w.store.files, key);
            forall g: File, chunks: seq<Text> :: g.manifest == f.manifest && g.versions == f.versions ==>
                GoodFile(sha, w.now, g, chunks, key)
  {
    hide GoodVersion;
  }

  lemma BeginSaves(sha: Text -> Text, w: World, key: Key, m: Manifest, faults: Faults)
    requires Uploads(sha, w) && key in w.store.files
    requires var f := w.store.files[key];
             f.manifest.None? && f.versions == {None} && f.data == Some([]) && f.linked && f.firm == 0 == f.reach
    requires m.session == key.sid && |m.sha256| == 64 && m.total <= UPLOAD_BYTES
    requires m.bytes == 0 && m.next == 0 && m.lastHash == [] && !m.committed
    ensures Uploads(sha, w.(store := Save(w.store, key, m, [], faults).0))
  {
    hide GoodFile;
    var f := w.store.files[key];
    var g := f.(manifest := Some(m), versions := f.versions + {Some(m)});
    assert GoodFile(sha, w.now, g, [], key) by { FirstGood(sha, w.now, g, key, m); }
    var visible := w.(store := Store(w.store.files[key := g], w.store.accepted[key := []]));
    if faults.saves != Undone {
      ReplacedKeeps(sha, w, visible, key);
    }
    if faults.saves == Durable {
      SettledKeeps(sha, visible, visible.(store := visible.store.(files := Settled(visible.store.files))));
      SettledAgree(w.store.files, key, m);
    }
  }

  lemma FirstGood(sha: Text -> Text, now: int, g: File, key: Key, m: Manifest)
    requires g.manifest == Some(m) && g.versions == {None, Some(m)}
    requires g.data == Some([]) && g.linked && g.firm == 0 == g.reach
    requires m.session == key.sid && |m.sha256| == 64 && m.total <= UPLOAD_BYTES
    requires m.bytes == 0 && m.next == 0 && m.lastHash == [] && !m.committed
    ensures GoodFile(sha, now, g, [], key)
  {
    assert GoodVersion(sha, g, [], m);
  }

  lemma BeginUploads(sha: Text -> Text, w: World, key: Key, bytes: nat, sha256: Text, faults: Faults)
    requires Uploads(sha, w) && bytes <= UPLOAD_BYTES && |sha256| == 64
    ensures Uploads(sha, w.(store := DoBegin(w.store, w.now, key, bytes, sha256, faults).0))
  {
    hide GoodFile, Reserved, Held;
    var f := FileOf(w.store.files, key);
    if f.manifest.None? {
      AbsentGood(sha, w, key);
      var g := f.(data := Some([]), firm := 0, reach := 0);
      var empty := w.(store := w.store.(files := w.store.files[key := g]));
      ReplacedKeeps(sha, w, empty, key);
      ReplacedKeeps(sha, w, w.(store := w.store.(files := w.store.files[key := g.(linked := false)])), key);
      var settled := w.(store := w.store.(files := PutEmpty(w.store.files, key, Durable)));
      SettledKeeps(sha, empty, settled);
      BeginSaves(sha, settled, key, FirstManifest(key.sid, bytes, sha256, w.now), faults);
    }
  }

  lemma ChunkUploads(sha: Text -> Text, w: World, key: Key, m: Manifest, number: nat, data: Text, faults: Faults)
    requires Uploads(sha, w) && FileOf(w.store.files, key).manifest == Some(m) && m.expires > w.now && data != []
    ensures Uploads(sha, w.(store := DoChunk(sha, w.store, key, m, number, data, faults).0))
  {
    hide GoodFile, WriteChunk, Save, Uploads;
    var f := FileOf(w.store.files, key);
    GoodHere(sha, w, key);
    if !m.committed && number == m.next && m.bytes + |data| <= m.total {
      var (g, ok) := WriteChunk(f, m.bytes, data, faults.io);
      ChunkWritten(sha, w, key, m, data, faults.io);
      if ok {
        ChunkSaved(sha, w, key, m, data, faults);
      }
    }
  }

  lemma ChunkWritten(sha: Text -> Text, w: World, key: Key, m: Manifest, data: Text, io: Io)
    requires Uploads(sha, w) && FileOf(w.store.files, key).manifest == Some(m) && m.expires > w.now && data != []
    requires m.bytes + |data| <= m.total
    ensures var (g, ok) := WriteChunk(FileOf(w.store.files, key), m.bytes, data, io);
            Uploads(sha, w.(store := w.store.(files := w.store.files[key := g])))
  {
    hide GoodFile, WriteChunk;
    var f := FileOf(w.store.files, key);
    GoodHere(sha, w, key);
    ChunkKeeps(sha, w.now, f, ChunksOf(w.store, key), key, data, io);
    var v := w.(store := w.store.(files := w.store.files[key := WriteChunk(f, m.bytes, data, io).0]));
    ReplacedKeeps(sha, w, v, key);
  }

  lemma ChunkSaved(sha: Text -> Text, w: World, key: Key, m: Manifest, data: Text, faults: Faults)
    requires Uploads(sha, w) && FileOf(w.store.files, key).manifest == Some(m) && m.expires > w.now && data != []
    requires m.bytes + |data| <= m.total && !m.committed
    requires WriteChunk(FileOf(w.store.files, key), m.bytes, data, faults.io).1
    ensures var t := w.store.(files := w.store.files[key := WriteChunk(FileOf(w.store.files, key), m.bytes, data,
                                                                       faults.io).0]);
            var next := m.(bytes := m.bytes + |data|, next := m.next + 1, lastHash := sha(data));
            Uploads(sha, w.(store := Save(t, key, next, Counted(w.store, key, m.next) + [data], faults).0))
  {
    hide GoodFile, GoodVersion, WriteChunk, Save, Concat, Uploads;
    var f, chunks := FileOf(w.store.files, key), ChunksOf(w.store, key);
    VisibleGood(sha, w, key, m);
    VisibleFile(sha, f, chunks, m);
    WriteChunkFacts(f, m.bytes, data, faults.io);
    ChunkWritten(sha, w, key, m, data, faults.io);
    CountsChunks(sha, w, key);
    var g := WriteChunk(f, m.bytes, data, faults.io).0;
    NextManifest(sha, f, g, chunks, m, data);
    var next := m.(bytes := m.bytes + |data|, next := m.next + 1, lastHash := sha(data));
    var more := chunks[..m.next] + [data];
    assert more[..m.next] == chunks[..m.next];
    SaveUploads(sha, w.(store := w.store.(files := w.store.files[key := g])), key, next, more, faults);
  }

  lemma VisibleGood(sha: Text -> Text, w: World, key: Key, m: Manifest)
    requires Uploads(sha, w) && FileOf(w.store.files, key).manifest == Some(m) && m.expires > w.now
    ensures GoodVersion(sha, FileOf(w.store.files, key), ChunksOf(w.store, key), m) && m.session == key.sid
  {
    hide GoodVersion;
    GoodHere(sha, w, key);
  }

  lemma VisibleFile(sha: Text -> Text, f: File, chunks: seq<Text>, m: Manifest)
    requires GoodVersion(sha, f, chunks, m)
    ensures f.data.Some? && m.bytes <= f.firm <= |f.data.value| <= f.reach <= m.total && f.linked
  {
    hide Concat;
  }

  /** The same manifest again, or the same one committed over the data it promised. */
  lemma SaysSame(sha: Text -> Text, w: World, key: Key, m: Manifest, committed: bool, faults: Faults)
    requires Uploads(sha, w) && FileOf(w.store.files, key).manifest == Some(m) && m.expires > w.now
    requires committed != m.committed ==>
               committed && m.bytes == m.total && FileHash(sha, FileOf(w.store.files, key), faults.readable) == m.sha256
    ensures Uploads(sha, w.(store := Save(w.store, key, m.(committed := committed), Counted(w.store, key, m.next),
                                          faults).0))
  {
    hide GoodFile, Save, Concat;
    var f, chunks := FileOf(w.store.files, key), ChunksOf(w.store, key);
    VisibleGood(sha, w, key, m);
    CountsChunks(sha, w, key);
    var n := m.(committed := committed);
    var more := chunks[..m.next];
    assert more[..m.next] == chunks[..m.next];
    assert GoodVersion(sha, f, chunks, n);
    VersionStays(sha, f, f, chunks, more, n);
    SaveUploads(sha, w, key, n, more, faults);
  }

  lemma CallUploads(sha: Text -> Text, w: World, sid: Text, request: Request, faults: Faults)
    requires Uploads(sha, w) && Sane(request)
    ensures Uploads(sha, w.(store := Handled(sha, w.store, w.now, sid, request, faults).0))
  {
    hide Uploads, DoBegin, DoChunk, Save, FileHash;
    if request.Named? && !request.op.MalformedBegin? {
      var key, op := Key(sid, request.id), request.op;
      var found := FileOf(w.store.files, key).manifest;
      if op.Begin? {
        BeginUploads(sha, w, key, op.bytes, op.sha256, faults);
      } else if found.Some? && found.value.expires > w.now {
        var m := found.value;
        if op.Chunk? {
          ChunkUploads(sha, w, key, m, op.number, op.data, faults);
        } else if op.Commit? && m.bytes == m.total
          && FileHash(sha, FileOf(w.store.files, key), faults.readable) == m.sha256 {
          SaysSame(sha, w, key, m, true, faults);
        } else if op.Report? {
          SaysSame(sha, w, key, m, m.committed, faults);
          assert m.(committed := m.committed) == m;
        }
      }
    }
  }

  lemma {:induction false} ExpiryUploads(sha: Text -> Text, w: World, entries: seq<(Key, Unlink)>)
    requires Uploads(sha, w)
    ensures Uploads(sha, w.(store := w.store.(files := Expiry(w.store.files, w.now, entries))))
    decreases |entries|
  {
    hide GoodFile;
    if entries != [] {
      var before, last := entries[..|entries| - 1], entries[|entries| - 1];
      ExpiryUploads(sha, w, before);
      var v := w.(store := w.store.(files := Expiry(w.store.files, w.now, before)));
      EntryUploads(sha, v, last.0, last.1);
    }
  }

  lemma EntryUploads(sha: Text -> Text, w: World, key: Key, how: Unlink)
    requires Uploads(sha, w)
    ensures Uploads(sha, w.(store := w.store.(files := ExpireEntry(w.store.files, w.now, key, how))))
  {
    hide GoodFile;
    var f := FileOf(w.store.files, key);
    if f.manifest.Some? && f.manifest.value.expires <= w.now {
      GoodHere(sha, w, key);
      var v := w.(store := w.store.(files := ExpireEntry(w.store.files, w.now, key, how)));
      ExpiredGood(sha, w.now, f, v.store.files[key], ChunksOf(w.store, key), key);
      ReplacedKeeps(sha, w, v, key);
    }
  }

  lemma ExpiredGood(sha: Text -> Text, now: int, f: File, g: File, chunks: seq<Text>, key: Key)
    requires GoodFile(sha, now, f, chunks, key) && f.manifest.Some? && f.manifest.value.expires <= now
    requires || (g.manifest == f.manifest && g.versions == f.versions)
             || (g.manifest.None? && g.versions == f.versions + {None})
    ensures GoodFile(sha, now, g, chunks, key)
  {
    hide GoodVersion;
  }

  lemma StepUploads(sha: Text -> Text, w: World, a: Action)
    requires Uploads(sha, w)
    ensures Uploads(sha, Step(sha, w, a))
  {
    hide Handled, Expiry, GoodVersion, CanBeLeft, Found;
    if Enabled(w, a) {
      match a
      case Tick(time) =>
      case Call(sid, request, faults) => CallUploads(sha, w, sid, request, faults);
      case Expire(entries) => ExpiryUploads(sha, w, entries);
      case PowerFail(left) =>
        forall key | key in left ensures GoodFile(sha, w.now, Found(left[key]), ChunksOf(w.store, key), key) {
          PowerFailKeeps(sha, w.now, w.store.files[key], ChunksOf(w.store, key), key, left[key]);
        }
    }
  }

  lemma {:induction false} AlwaysUploads(sha: Text -> Text, actions: seq<Action>)
    ensures Uploads(sha, After(sha, actions))
    decreases |actions|
  {
    hide Step, GoodFile;
    if actions != [] {
      AlwaysUploads(sha, actions[..|actions| - 1]);
      StepUploads(sha, After(sha, actions[..|actions| - 1]), actions[|actions| - 1]);
    }
  }
}
