/** What an upload promises its client. */
module TransferPromises {
  import opened Text
  import opened Transfers
  import opened TransferSafety

  /** Every manifest that is visible, or that a power failure could leave, of a transfer
      that has not expired: the data file starts with exactly the chunks it counts, it is
      no longer than promised, as long as promised once they are all there, and if it is
      committed the digest of the data is the promised one. */
  lemma UploadHolds(sha: Text -> Text, actions: seq<Action>, key: Key, m: Manifest)
    requires var w := After(sha, actions);
             key in w.store.files && Some(m) in w.store.files[key].versions && m.expires > w.now
    ensures var w := After(sha, actions);
            var f, chunks := w.store.files[key], ChunksOf(w.store, key);
            && f.data.Some? && m.next <= |chunks| && m.bytes <= |f.data.value| <= m.total
            && f.data.value[..m.bytes] == Concat(chunks[..m.next])
            && (m.bytes == m.total ==> |f.data.value| == m.total)
            && (m.committed ==>
                  m.bytes == m.total && sha(f.data.value) == m.sha256 && f.data.value == Concat(chunks[..m.next]))
  {
    hide After, Concat;
    AlwaysUploads(sha, actions);
    var w := After(sha, actions);
    assert GoodFile(sha, w.now, w.store.files[key], ChunksOf(w.store, key), key);
    assert GoodVersion(sha, w.store.files[key], ChunksOf(w.store, key), m);
  }

  /** A chunk that was answered, or that is visible although its answer was an error, can
      be sent again: it is acknowledged and nothing changes, whatever calls would do. */
  lemma SendAgain(sha: Text -> Text, s: Store, now: int, later: int, sid: Text, id: Text, number: nat, data: Text,
                  first: Faults, again: Faults)
    requires var (t, reply) := Handled(sha, s, now, sid, Named(id, Chunk(number, data)), first);
             reply.Position? || (reply == Refused(Storage) && t.files != s.files
                                 && FileOf(t.files, Key(sid, id)).manifest != FileOf(s.files, Key(sid, id)).manifest)
    requires FileOf(s.files, Key(sid, id)).manifest.value.expires > later
    ensures var t := Handled(sha, s, now, sid, Named(id, Chunk(number, data)), first).0;
            Handled(sha, t, later, sid, Named(id, Chunk(number, data)), again) == (t, Repeated(number + 1))
  {
    hide WriteChunk, Counted;
    var key := Key(sid, id);
    WriteChunkManifest(FileOf(s.files, key), FileOf(s.files, key).manifest.value.bytes, data, first.io);
  }

  lemma WriteChunkManifest(f: File, offset: nat, data: Text, io: Io)
    ensures var g := WriteChunk(f, offset, data, io).0; g.manifest == f.manifest && g.versions == f.versions
  {
  }

  // ---- Committed data is final ----

  /** The commit was answered: it is the only version left. */
  predicate Final(f: File, m: Manifest) { f.manifest == Some(m) && f.versions == {Some(m)} && m.committed }

  /** Still final, with the same data. */
  predicate Stays(files: map<Key, File>, more: map<Key, File>, key: Key, m: Manifest) {
    key in files && key in more && Final(more[key], m) && more[key].data == files[key].data
  }

  lemma ManifestStays(files: map<Key, File>, key: Key, m: Manifest, other: Key, n: Manifest, how: Atomic)
    requires key in files && Final(files[key], m) && (other == key ==> n == m)
    ensures Stays(files, PutManifest(files, other, n, how), key, m)
  {
    hide Settled;
    var f := FileOf(files, other);
    SettledAt(files[other := f.(manifest := Some(n))], key);
    assert {Some(m)} + {Some(m)} == {Some(m)};
  }

  lemma EmptyStays(files: map<Key, File>, key: Key, m: Manifest, other: Key, how: Atomic)
    requires key in files && Final(files[key], m) && other != key
    ensures Stays(files, PutEmpty(files, other, how), key, m)
  {
    hide Settled;
    SettledAt(files[other := FileOf(files, other).(data := Some([]), firm := 0, reach := 0)], key);
  }

  lemma FinalCall(sha: Text -> Text, w: World, sid: Text, request: Request, faults: Faults, key: Key, m: Manifest)
    requires key in w.store.files && Final(w.store.files[key], m)
    ensures Stays(w.store.files, Handled(sha, w.store, w.now, sid, request, faults).0.files, key, m)
  {
    hide PutManifest, PutEmpty, WriteChunk, Counted, FileHash, Reserved, Held, DoLoaded;
    var files := w.store.files;
    if request.Named? && !request.op.MalformedBegin? {
      var other, op := Key(sid, request.id), request.op;
      if op.Begin? {
        if other != key {
          EmptyStays(files, key, m, other, faults.empties);
          var empty := PutEmpty(files, other, faults.empties);
          ManifestStays(empty, key, m, other, FirstManifest(sid, op.bytes, op.sha256, w.now), faults.saves);
        }
      } else if FileOf(files, other).manifest.Some? {
        FinalLoaded(sha, w.store, other, FileOf(files, other).manifest.value, op, faults, key, m);
      }
    }
  }

  lemma FinalLoaded(sha: Text -> Text, s: Store, other: Key, n: Manifest, op: Operation, faults: Faults, key: Key,
                    m: Manifest)
    requires key in s.files && Final(s.files[key], m) && FileOf(s.files, other).manifest == Some(n)
    ensures Stays(s.files, DoLoaded(sha, s, other, n, op, faults).0.files, key, m)
  {
    hide PutManifest, WriteChunk, Counted, FileHash;
    assert other == key ==> n == m;
    if op.Chunk? {
      if other != key {
        var files := s.files[other := WriteChunk(FileOf(s.files, other), n.bytes, op.data, faults.io).0];
        var next := n.(bytes := n.bytes + |op.data|, next := n.next + 1, lastHash := sha(op.data));
        ManifestStays(files, key, m, other, next, faults.saves);
      }
    } else {
      ManifestStays(s.files, key, m, other, n.(committed := true), faults.saves);
      ManifestStays(s.files, key, m, other, n, faults.saves);
    }
  }

  lemma SettledAt(files: map<Key, File>, key: Key)
    requires key in files
    ensures key in Settled(files)
    ensures Settled(files)[key] == files[key].(versions := {files[key].manifest}, linked := true)
  {
  }

  lemma {:induction false} FinalExpiry(files: map<Key, File>, now: int, entries: seq<(Key, Unlink)>, key: Key,
                                       m: Manifest)
    requires key in files && Final(files[key], m) && m.expires > now
    ensures key in Expiry(files, now, entries) && Expiry(files, now, entries)[key] == files[key]
    decreases |entries|
  {
    if entries != [] {
      FinalExpiry(files, now, entries[..|entries| - 1], key, m);
    }
  }

  /** All of it was synced, so all of it is found. */
  lemma FinalPowerFail(sha: Text -> Text, w: World, left: Left, key: Key, m: Manifest)
    requires Uploads(sha, w) && key in w.store.files && Final(w.store.files[key], m) && m.expires > w.now
    requires CanBeLeft(w.store.files[key], left)
    ensures Final(Found(left), m) && left.data == w.store.files[key].data
  {
    hide Concat;
    var f := w.store.files[key];
    assert GoodFile(sha, w.now, f, ChunksOf(w.store, key), key);
    assert GoodVersion(sha, f, ChunksOf(w.store, key), m);
    assert f.firm == |f.data.value| == f.reach;
    assert f.data.value[..f.firm] == f.data.value && left.data.value[..f.firm] == left.data.value;
  }

  lemma FinalStep(sha: Text -> Text, w: World, a: Action, key: Key, m: Manifest)
    requires Uploads(sha, w) && key in w.store.files && Final(w.store.files[key], m) && m.expires > w.now
    ensures var v := Step(sha, w, a);
            key in v.store.files && Final(v.store.files[key], m) && v.store.files[key].data == w.store.files[key].data
  {
    hide Handled, Expiry, Uploads, CanBeLeft, Final;
    if Enabled(w, a) {
      match a
      case Tick(time) =>
      case Call(sid, request, faults) => FinalCall(sha, w, sid, request, faults, key, m);
      case Expire(entries) => FinalExpiry(w.store.files, w.now, entries, key, m);
      case PowerFail(left) => FinalPowerFail(sha, w, left[key], key, m);
    }
  }

  lemma ClockRuns(sha: Text -> Text, w: World, a: Action)
    ensures w.now <= Step(sha, w, a).now
  {
    hide Handled, Expiry;
  }

  /** Once a commit has been answered, neither the manifest nor a byte of the data changes
      until the transfer expires: not by later requests, expiry runs or power failures. */
  lemma {:induction false} CommittedIsFinal(sha: Text -> Text, actions: seq<Action>, n: nat, key: Key, m: Manifest)
    requires n <= |actions|
    requires var w := After(sha, actions[..n]); key in w.store.files && Final(w.store.files[key], m)
    requires m.expires > After(sha, actions).now
    ensures var w, v := After(sha, actions[..n]), After(sha, actions);
            && key in v.store.files && Final(v.store.files[key], m)
              && v.store.files[key].data == w.store.files[key].data
    decreases |actions|
  {
    hide Step, Final, Uploads;
    if n < |actions| {
      var before, last := actions[..|actions| - 1], actions[|actions| - 1];
      assert before[..n] == actions[..n];
      ClockRuns(sha, After(sha, before), last);
      CommittedIsFinal(sha, before, n, key, m);
      AlwaysUploads(sha, before);
      FinalStep(sha, After(sha, before), last, key, m);
    } else {
      assert actions[..n] == actions;
    }
  }

  /** The answer to a commit makes it final. */
  lemma CommitAnswered(sha: Text -> Text, s: Store, now: int, sid: Text, id: Text, faults: Faults)
    requires Handled(sha, s, now, sid, Named(id, Commit), faults).1.Position?
    ensures var t := Handled(sha, s, now, sid, Named(id, Commit), faults).0;
            var key := Key(sid, id);
            key in t.files && t.files[key].manifest.Some? && Final(t.files[key], t.files[key].manifest.value)
  {
    hide Counted, FileHash, Concat;
  }

  /** What a reference to a transfer resolves to is the chunks in order, all of them, with
      the promised digest; nothing else ever resolves. */
  lemma ResolvesToUpload(sha: Text -> Text, actions: seq<Action>, sid: Text, id: Text)
    ensures var w := After(sha, actions);
            var key := Key(sid, id);
            var text := Resolved(w.store, w.now, sid, id).0;
            text.Some? ==>
              && key in w.store.files && w.store.files[key].manifest.Some?
              && var m := w.store.files[key].manifest.value;
              && m.next <= |ChunksOf(w.store, key)| && text.value == Concat(ChunksOf(w.store, key)[..m.next])
              && |text.value| == m.total <= PARAMS_BYTES && sha(text.value) == m.sha256
  {
    hide After, Concat;
    var w := After(sha, actions);
    var key := Key(sid, id);
    if Resolved(w.store, w.now, sid, id).0.Some? {
      var m := w.store.files[key].manifest.value;
      AlwaysUploads(sha, actions);
      assert GoodFile(sha, w.now, w.store.files[key], ChunksOf(w.store, key), key);
      assert Some(m) in w.store.files[key].versions;
      UploadHolds(sha, actions, key, m);
    }
  }
}
