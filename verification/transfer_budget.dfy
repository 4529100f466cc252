/** Reservations: 256 MiB of promised bytes and four transfers a session, also after any
    power failure. */
module TransferBudget {
  import opened Text
  import opened Sums
  import opened Transfers
  import opened TransferSafety

  /** The bytes a transfer could hold a claim to after a power failure. */
  ghost function Pledge(f: File): nat {
    if m: Manifest :| Some(m) in f.versions then m.total else 0
  }

  ghost function PledgeWeight(): File -> nat { (f: File) => Pledge(f) }

  ghost function Pledged(files: map<Key, File>): nat { Sum(files, files.Keys, PledgeWeight()) }

  ghost predicate Claims(f: File) { exists m: Manifest :: Some(m) in f.versions }

  ghost function Claimants(files: map<Key, File>, sid: Text): set<Key> {
    set k | k in files && k.sid == sid && Claims(files[k])
  }

  ghost predicate Quotas(files: map<Key, File>) {
    Pledged(files) <= RESERVED_BYTES && forall sid: Text :: |Claimants(files, sid)| <= SESSION_TRANSFERS
  }

  /** What Uploads says of the versions of one file. */
  ghost predicate OneTransfer(f: File, key: Key) {
    && f.manifest in f.versions
    && (forall m: Manifest :: Some(m) in f.versions ==> m.session == key.sid)
    && (forall m, n: Manifest :: Some(m) in f.versions && Some(n) in f.versions ==> m.total == n.total)
  }

  ghost predicate Tidy(files: map<Key, File>) { forall k :: k in files ==> OneTransfer(files[k], k) }

  lemma UploadsTidy(sha: Text -> Text, w: World)
    requires Uploads(sha, w)
    ensures Tidy(w.store.files)
  {
    hide GoodVersion;
    forall k | k in w.store.files ensures OneTransfer(w.store.files[k], k) {
      assert GoodFile(sha, w.now, w.store.files[k], ChunksOf(w.store, k), k);
    }
  }

  /** No transfer has a claim it did not have before. */
  ghost predicate Narrows(a: map<Key, File>, b: map<Key, File>) {
    forall k :: k in b && Claims(b[k]) ==> k in a && Claims(a[k]) && Pledge(b[k]) == Pledge(a[k])
  }

  lemma QuotasStay(a: map<Key, File>, b: map<Key, File>)
    requires Quotas(a) && Narrows(a, b)
    ensures Quotas(b)
  {
    hide Sum;
    forall k | k in b && Pledge(b[k]) > 0 ensures k in a && Pledge(b[k]) <= Pledge(a[k]) {
      assert Claims(b[k]);
    }
    SumBound(a, a.Keys, PledgeWeight(), b, b.Keys, PledgeWeight());
    forall sid: Text ensures |Claimants(b, sid)| <= |Claimants(a, sid)| {
      SubsetCount(Claimants(b, sid), Claimants(a, sid));
    }
  }

  /** All versions agree, so any of them says what is pledged. */
  lemma PledgeIs(f: File, key: Key, m: Manifest)
    requires OneTransfer(f, key) && Some(m) in f.versions
    ensures Claims(f) && Pledge(f) == m.total
  {
  }

  /** Every version of one file has the size that the other one pledges. */
  ghost predicate Within(f: File, g: File) {
    forall m: Manifest :: Some(m) in g.versions ==> Claims(f) && m.total == Pledge(f)
  }

  lemma FewerVersions(f: File, g: File, key: Key)
    requires OneTransfer(f, key) && g.versions <= f.versions
    ensures Within(f, g)
  {
    hide Pledge;
    forall m: Manifest | Some(m) in g.versions ensures Claims(f) && m.total == Pledge(f) {
      PledgeIs(f, key, m);
    }
  }

  lemma FileNarrows(f: File, g: File)
    requires Within(f, g) && Claims(g)
    ensures Claims(f) && Pledge(g) == Pledge(f)
  {
    var m: Manifest :| Some(m) in g.versions && Pledge(g) == m.total;
  }

  lemma SettledNarrows(files: map<Key, File>)
    requires Tidy(files)
    ensures Narrows(files, Settled(files))
  {
    hide OneTransfer, Pledge;
    var b := Settled(files);
    forall k | k in b && Claims(b[k]) ensures Claims(files[k]) && Pledge(b[k]) == Pledge(files[k]) {
      TidyAt(files, k);
      FewerVersions(files[k], b[k], k);
      FileNarrows(files[k], b[k]);
    }
  }

  lemma TidyAt(files: map<Key, File>, k: Key)
    requires Tidy(files) && k in files
    ensures OneTransfer(files[k], k) && files[k].manifest in files[k].versions
  {
  }

  /** One file changes and claims nothing new. */
  lemma ReplacedNarrows(files: map<Key, File>, key: Key, g: File)
    requires Within(FileOf(files, key), g)
    ensures Narrows(files, files[key := g])
  {
    hide Pledge, Within;
    if Claims(g) {
      FileNarrows(FileOf(files, key), g);
      assert key in files;
    }
  }

  lemma NarrowsOn(a: map<Key, File>, b: map<Key, File>, c: map<Key, File>)
    requires Narrows(a, b) && Narrows(b, c)
    ensures Narrows(a, c)
  {
    hide Pledge, Claims;
  }

  lemma TidyReplaced(files: map<Key, File>, key: Key, g: File)
    requires Tidy(files) && OneTransfer(g, key)
    ensures Tidy(files[key := g])
  {
    hide OneTransfer;
  }

  /** One more version of the same transfer. */
  lemma VersionAdded(f: File, key: Key, m: Manifest)
    requires OneTransfer(f, key) && f.manifest.Some? && f.manifest.value.total == m.total && m.session == key.sid
    ensures OneTransfer(f.(manifest := Some(m), versions := f.versions + {Some(m)}), key)
    ensures Within(f, f.(manifest := Some(m), versions := f.versions + {Some(m)}))
  {
    hide Pledge;
    assert Some(f.manifest.value) in f.versions;
    forall n: Manifest | Some(n) in f.versions + {Some(m)} ensures Claims(f) && n.total == Pledge(f) {
      PledgeIs(f, key, f.manifest.value);
    }
  }

  lemma VisibleNarrows(files: map<Key, File>, key: Key, m: Manifest)
    requires Tidy(files) && FileOf(files, key).manifest.Some?
    requires FileOf(files, key).manifest.value.total == m.total && m.session == key.sid
    ensures Tidy(PutManifest(files, key, m, Visible)) && Narrows(files, PutManifest(files, key, m, Visible))
  {
    hide OneTransfer, Tidy, Narrows, Within;
    var f := FileOf(files, key);
    TidyManifest(files, key);
    TidyAt(files, key);
    VersionAdded(f, key, m);
    var g := f.(manifest := Some(m), versions := f.versions + {Some(m)});
    ReplacedNarrows(files, key, g);
    TidyReplaced(files, key, g);
  }

  lemma SaveNarrows(files: map<Key, File>, key: Key, m: Manifest, how: Atomic)
    requires Tidy(files) && FileOf(files, key).manifest.Some?
    requires FileOf(files, key).manifest.value.total == m.total && m.session == key.sid
    ensures Narrows(files, PutManifest(files, key, m, how))
  {
    hide OneTransfer, Tidy, Narrows, PutManifest;
    match how
    case Undone =>
      NarrowsSelf(files);
      NothingPut(files, key, m);
    case Visible => VisibleNarrows(files, key, m);
    case Durable =>
      var visible := PutManifest(files, key, m, Visible);
      VisibleNarrows(files, key, m);
      SettledNarrows(visible);
      SettledAgree(files, key, m);
      NarrowsOn(files, visible, Settled(visible));
  }

  lemma NothingPut(files: map<Key, File>, key: Key, m: Manifest)
    ensures PutManifest(files, key, m, Undone) == files
  {
  }

  /** With one version besides none, that is the pledge. */
  lemma OnlyPledge(f: File, version: Option<Manifest>)
    requires version in f.versions && f.versions <= {None, version}
    ensures Claims(f) <==> version.Some?
    ensures Pledge(f) == if version.Some? then version.value.total else 0
  {
    if version.Some? {
      assert Some(version.value) in f.versions;
    }
  }

  /** The new transfer fits what the quota test left. */
  lemma BeginQuotas(files: map<Key, File>, key: Key, m: Manifest, how: Atomic)
    requires Tidy(files) && FileOf(files, key).manifest.None? && m.session == key.sid && Quotas(files)
    requires |Held(files, key.sid)| < SESSION_TRANSFERS && Reserved(files) + m.total <= RESERVED_BYTES && how != Undone
    ensures Quotas(PutManifest(PutEmpty(files, key, Durable), key, m, how))
  {
    hide Sum, Tidy, Pledge, Claims, OneTransfer;
    var b := PutManifest(PutEmpty(files, key, Durable), key, m, how);
    assert b[key].versions <= {None, Some(m)} && Some(m) in b[key].versions;
    OnlyPledge(b[key], Some(m));
    forall k | k in b && k != key
      ensures k in files
      ensures (Claims(b[k]) || Pledge(b[k]) > 0 ==> Present(files[k]) && Pledge(b[k]) == files[k].manifest.value.total)
    {
      assert b[k].versions == {files[k].manifest};
      OnlyPledge(b[k], files[k].manifest);
    }
    SumTake(b, b.Keys, PledgeWeight(), key);
    SumBound(files, files.Keys, TotalWeight(), b, b.Keys - {key}, PledgeWeight());
    forall sid: Text ensures |Claimants(b, sid)| <= SESSION_TRANSFERS {
      ClaimantsBegin(files, b, key, sid);
    }
  }

  lemma ClaimantsBegin(files: map<Key, File>, b: map<Key, File>, key: Key, sid: Text)
    requires Tidy(files) && Quotas(files) && |Held(files, key.sid)| < SESSION_TRANSFERS
    requires forall k :: k in b && k != key ==> k in files && (Claims(b[k]) ==> Present(files[k]))
    ensures |Claimants(b, sid)| <= SESSION_TRANSFERS
  {
    hide Pledged;
    if sid == key.sid {
      forall k | k in Claimants(b, sid) && k != key ensures k in Held(files, sid) {
        TidyAt(files, k);
        assert files[k].manifest == Some(files[k].manifest.value);
      }
      SubsetCount(Claimants(b, sid), Held(files, sid) + {key});
    } else {
      forall k | k in Claimants(b, sid) ensures k in Claimants(files, sid) {
        TidyAt(files, k);
        assert files[k].manifest == Some(files[k].manifest.value);
      }
      SubsetCount(Claimants(b, sid), Claimants(files, sid));
    }
  }

  /** A file with the same versions. */
  lemma SameNarrows(files: map<Key, File>, key: Key, g: File)
    requires Tidy(files) && g.manifest == FileOf(files, key).manifest && g.versions == FileOf(files, key).versions
    ensures Tidy(files[key := g]) && Narrows(files, files[key := g])
  {
    hide Narrows, Tidy, Within;
    if key in files {
      TidyAt(files, key);
    }
    assert OneTransfer(g, key);
    FewerVersions(FileOf(files, key), g, key);
    TidyReplaced(files, key, g);
    ReplacedNarrows(files, key, g);
  }

  lemma EmptyNarrows(files: map<Key, File>, key: Key, how: Atomic)
    requires Tidy(files)
    ensures Narrows(files, PutEmpty(files, key, how))
  {
    hide OneTransfer, Tidy, Narrows;
    var g := FileOf(files, key).(data := Some([]), firm := 0, reach := 0);
    NarrowsSelf(files);
    SameNarrows(files, key, g);
    SameNarrows(files, key, g.(linked := false));
    SettledNarrows(files[key := g]);
    if how == Durable {
      NarrowsOn(files, files[key := g], PutEmpty(files, key, how));
    }
  }

  lemma CallQuotas(sha: Text -> Text, w: World, sid: Text, request: Request, faults: Faults)
    requires Tidy(w.store.files) && Quotas(w.store.files)
    ensures Quotas(Handled(sha, w.store, w.now, sid, request, faults).0.files)
  {
    hide Quotas, Tidy, PutManifest, PutEmpty, Held, Reserved, WriteChunk, FileHash, Narrows;
    var s := w.store;
    NarrowsSelf(s.files);
    if request.Named? && !request.op.MalformedBegin? {
      var key, op := Key(sid, request.id), request.op;
      var found := FileOf(s.files, key).manifest;
      if op.Begin? {
        if found.None? && |Held(s.files, sid)| < SESSION_TRANSFERS && Reserved(s.files) + op.bytes <= RESERVED_BYTES {
          EmptyNarrows(s.files, key, faults.empties);
          QuotasStay(s.files, PutEmpty(s.files, key, faults.empties));
          if faults.saves != Undone {
            BeginQuotas(s.files, key, FirstManifest(sid, op.bytes, op.sha256, w.now), faults.saves);
          }
        }
      } else if found.Some? {
        LoadedQuotas(sha, s, key, found.value, op, faults);
      }
    }
  }

  lemma NarrowsSelf(files: map<Key, File>)
    ensures Narrows(files, files)
  {
  }

  lemma LoadedQuotas(sha: Text -> Text, s: Store, key: Key, m: Manifest, op: Operation, faults: Faults)
    requires Tidy(s.files) && Quotas(s.files) && FileOf(s.files, key).manifest == Some(m)
    ensures Quotas(DoLoaded(sha, s, key, m, op, faults).0.files)
  {
    hide Quotas, Tidy, PutManifest, Narrows, Counted, FileHash, WriteChunk;
    assert m.session == key.sid by { TidyManifest(s.files, key); }
    SaveNarrows(s.files, key, m.(committed := true), faults.saves);
    SaveNarrows(s.files, key, m, faults.saves);
    QuotasStay(s.files, PutManifest(s.files, key, m.(committed := true), faults.saves));
    QuotasStay(s.files, PutManifest(s.files, key, m, faults.saves));
    if op.Chunk? {
      ChunkQuotas(sha, s, key, m, op.number, op.data, faults);
    }
  }

  lemma TidyManifest(files: map<Key, File>, key: Key)
    requires Tidy(files) && FileOf(files, key).manifest.Some?
    ensures key in files && FileOf(files, key).manifest.value.session == key.sid
  {
    TidyAt(files, key);
    assert files[key].manifest == Some(files[key].manifest.value);
  }

  lemma ChunkQuotas(sha: Text -> Text, s: Store, key: Key, m: Manifest, number: nat, data: Text, faults: Faults)
    requires Tidy(s.files) && Quotas(s.files) && FileOf(s.files, key).manifest == Some(m)
    ensures Quotas(DoChunk(sha, s, key, m, number, data, faults).0.files)
  {
    hide Quotas, PutManifest, Narrows, Counted, OneTransfer, Tidy;
    TidyManifest(s.files, key);
    var (g, ok) := WriteChunk(FileOf(s.files, key), m.bytes, data, faults.io);
    var files := s.files[key := g];
    SameNarrows(s.files, key, g);
    QuotasStay(s.files, files);
    var next := m.(bytes := m.bytes + |data|, next := m.next + 1, lastHash := sha(data));
    SaveNarrows(files, key, next, faults.saves);
    QuotasStay(files, PutManifest(files, key, next, faults.saves));
  }

  lemma EntryNarrows(files: map<Key, File>, now: int, key: Key, how: Unlink)
    requires Tidy(files)
    ensures Tidy(ExpireEntry(files, now, key, how)) && Narrows(files, ExpireEntry(files, now, key, how))
  {
    hide OneTransfer, Tidy, Narrows;
    var f := FileOf(files, key);
    NarrowsSelf(files);
    if f.manifest.Some? && f.manifest.value.expires <= now {
      TidyManifest(files, key);
      TidyAt(files, key);
      var g := ExpireEntry(files, now, key, how)[key];
      UnlinkedIsTidy(f, g, key);
      FewerVersionsOrNone(f, g, key);
      TidyReplaced(files, key, g);
      ReplacedNarrows(files, key, g);
    }
  }

  lemma FewerVersionsOrNone(f: File, g: File, key: Key)
    requires OneTransfer(f, key) && g.versions <= f.versions + {None}
    ensures Within(f, g)
  {
    FewerVersions(f, f, key);
  }

  lemma UnlinkedIsTidy(f: File, g: File, key: Key)
    requires OneTransfer(f, key)
    requires (g.manifest == f.manifest && g.versions == f.versions)
             || (g.manifest.None? && g.versions == f.versions + {None})
    ensures OneTransfer(g, key)
  {
  }

  lemma {:induction false} ExpiryNarrows(files: map<Key, File>, now: int, entries: seq<(Key, Unlink)>)
    requires Tidy(files)
    ensures Tidy(Expiry(files, now, entries)) && Narrows(files, Expiry(files, now, entries))
    decreases |entries|
  {
    hide Tidy, Narrows, ExpireEntry;
    if entries == [] {
      NarrowsSelf(files);
    } else {
      var before, last := entries[..|entries| - 1], entries[|entries| - 1];
      ExpiryNarrows(files, now, before);
      EntryNarrows(Expiry(files, now, before), now, last.0, last.1);
      NarrowsOn(files, Expiry(files, now, before), Expiry(files, now, entries));
    }
  }

  lemma PowerFailNarrows(files: map<Key, File>, left: map<Key, Left>)
    requires Tidy(files) && left.Keys == files.Keys && forall k :: k in left ==> CanBeLeft(files[k], left[k])
    ensures Narrows(files, map k | k in left :: Found(left[k]))
  {
    hide Pledge, OneTransfer;
    var b := map k | k in left :: Found(left[k]);
    forall k | k in b && Claims(b[k]) ensures Claims(files[k]) && Pledge(b[k]) == Pledge(files[k]) {
      TidyAt(files, k);
      assert CanBeLeft(files[k], left[k]);
      FewerVersions(files[k], b[k], k);
      FileNarrows(files[k], b[k]);
    }
  }

  lemma StepQuotas(sha: Text -> Text, w: World, a: Action)
    requires Tidy(w.store.files) && Quotas(w.store.files)
    ensures Quotas(Step(sha, w, a).store.files)
  {
    hide Quotas, Tidy, Narrows, Handled, Expiry, Found;
    if Enabled(w, a) {
      match a
      case Tick(time) =>
      case Call(sid, request, faults) => CallQuotas(sha, w, sid, request, faults);
      case Expire(entries) =>
        ExpiryNarrows(w.store.files, w.now, entries);
        QuotasStay(w.store.files, Expiry(w.store.files, w.now, entries));
      case PowerFail(left) =>
        PowerFailNarrows(w.store.files, left);
        QuotasStay(w.store.files, map k | k in left :: Found(left[k]));
    }
  }

  lemma {:induction false} AlwaysQuotas(sha: Text -> Text, actions: seq<Action>)
    ensures Quotas(After(sha, actions).store.files)
    decreases |actions|
  {
    hide Step, Uploads;
    if actions == [] {
      forall sid: Text ensures |Claimants(NOTHING.store.files, sid)| == 0 {
        assert Claimants(NOTHING.store.files, sid) == {};
      }
    } else {
      var before := After(sha, actions[..|actions| - 1]);
      AlwaysQuotas(sha, actions[..|actions| - 1]);
      AlwaysUploads(sha, actions[..|actions| - 1]);
      UploadsTidy(sha, before);
      StepQuotas(sha, before, actions[|actions| - 1]);
    }
  }

  /** Whatever was called, expired or lost: the visible transfers reserve at most 256 MiB
      and a session has at most four. */
  lemma ReservationsHold(sha: Text -> Text, actions: seq<Action>, sid: Text)
    ensures var files := After(sha, actions).store.files;
            Reserved(files) <= RESERVED_BYTES && |Held(files, sid)| <= SESSION_TRANSFERS
  {
    hide Sum, After, Uploads;
    var files := After(sha, actions).store.files;
    AlwaysQuotas(sha, actions);
    AlwaysUploads(sha, actions);
    UploadsTidy(sha, After(sha, actions));
    forall k | k in files && Present(files[k])
      ensures Pledge(files[k]) == files[k].manifest.value.total && Claims(files[k])
      ensures files[k].manifest.value.session == k.sid
    {
      TidyAt(files, k);
      assert files[k].manifest == Some(files[k].manifest.value);
      PledgeIs(files[k], k, files[k].manifest.value);
    }
    SumBound(files, files.Keys, PledgeWeight(), files, files.Keys, TotalWeight());
    SubsetCount(Held(files, sid), Claimants(files, sid));
  }
}
