/** The manager itself, over a directory whose system calls may fail. */
module TransferManaging {
  import opened Text
  import opened Sums
  import opened Transfers

  /** A directory listing: every transfer once, in any order. */
  ghost predicate Lists(entries: seq<Key>, files: map<Key, File>) {
    && (forall k :: k in files <==> k in entries)
    && forall i, j :: 0 <= i < j < |entries| ==> entries[i] != entries[j]
  }

  lemma OverwriteTwice(d: Text, offset: nat, piece: Text, more: Text)
    ensures Overwrite(Overwrite(d, offset, piece), offset + |piece|, more) == Overwrite(d, offset, piece + more)
  {
    if piece == [] {
      assert piece + more == more;
    } else if more == [] {
      assert piece + more == piece;
    }
  }

  function Prefix(entries: seq<Key>, n: nat): set<Key>
    requires n <= |entries|
  {
    set i | 0 <= i < n :: entries[i]
  }

  class TransferManager {
    const sha: Text -> Text
    var files: map<Key, File>
    ghost var accepted: map<Key, seq<Text>>

    ghost function Now(): Store
      reads this
    {
      Store(files, accepted)
    }

    constructor (sha: Text -> Text)
      ensures Now() == Store(map[], map[]) && this.sha == sha
    {
      this.sha := sha;
      files, accepted := map[], map[];
    }

    /** Adds up what the manifests of the directory promise. */
    method HasRoom(entries: seq<Key>, sid: Text, bytes: nat) returns (room: bool)
      requires Lists(entries, files)
      ensures room <==> |Held(files, sid)| < SESSION_TRANSFERS && Reserved(files) + bytes <= RESERVED_BYTES
    {
      hide Sum, Held, Lists, Prefix, TotalWeight;
      var reserved, count := 0, 0;
      var i := 0;
      RoomOfNothing(files, entries, sid);
      while i < |entries|
        invariant i <= |entries| && Prefix(entries, i) <= files.Keys
        invariant reserved == Sum(files, Prefix(entries, i), TotalWeight())
        invariant count == |Held(files, sid) * Prefix(entries, i)|
      {
        RoomStep(files, entries, sid, i);
        var manifest := files[entries[i]].manifest;
        if manifest.Some? {
          reserved := reserved + manifest.value.total;
          if manifest.value.session == sid {
            count := count + 1;
          }
        }
        i := i + 1;
      }
      RoomOfAll(files, entries, sid);
      room := count < SESSION_TRANSFERS && reserved + bytes <= RESERVED_BYTES;
    }

    /** Writes as much as the calls let it. */
    method WriteAll(before: Text, offset: nat, data: Text,
                    writes: seq<WriteResult>) returns (content: Text, written: nat)
      ensures written == Written(|data|, writes, 0) && content == Overwrite(before, offset, data[..written])
    {
      hide Overwrite;
      var k, stopped := 0, false;
      content, written := before, 0;
      OverwriteNothing(content, offset);
      assert data[..0] == [] && writes[0..] == writes;
      while written < |data| && k < |writes| && !stopped
        invariant written <= |data| && k <= |writes|
        invariant content == Overwrite(before, offset, data[..written])
        invariant Written(|data|, writes, 0) == if stopped then written else Written(|data|, writes[k..], written)
        decreases |writes| - k, !stopped
      {
        assert writes[k..][0] == writes[k] && writes[k..][1..] == writes[k + 1..];
        match writes[k] {
          case Interrupted =>
          case Stopped => stopped := true;
          case Wrote(count) =>
            if count == 0 {
              stopped := true;
            } else {
              var upto := Least(|data|, written + count);
              OverwriteTwice(before, offset, data[..written], data[written..upto]);
              assert data[..written] + data[written..upto] == data[..upto];
              content := Overwrite(content, offset + written, data[written..upto]);
              written := upto;
            }
        }
        k := k + 1;
      }
    }

    /** Writes a chunk where it belongs, cuts off what an earlier attempt left, and syncs. */
    method WriteInPlace(key: Key, offset: nat, data: Text, io: Io) returns (ok: bool)
      requires key in files
      modifies this`files
      ensures files == old(files)[key := WriteChunk(old(files)[key], offset, data, io).0]
      ensures ok == WriteChunk(old(files)[key], offset, data, io).1
    {
      hide Overwrite, Written;
      var f := files[key];
      if f.data.None? || !io.opens {
        assert files == files[key := f];
        return false;
      }
      var long, written := WriteAll(f.data.value, offset, data, io.writes);
      var g := f.(firm := Least(f.firm, offset), reach := Most(f.reach, |long|), data := Some(long));
      ok := written == |data| && io.truncates;
      if ok {
        var exact := long[..Least(|long|, offset + |data|)];
        g := g.(data := Some(exact));
        ok := io.syncs;
        if ok {
          g := g.(firm := |exact|, reach := |exact|);
        }
      }
      assert g == WriteChunk(f, offset, data, io).0;
      files := files[key := g];
    }

    /** Puts a manifest in the place of the visible one. */
    method SaveManifest(key: Key, manifest: Manifest, ghost chunks: seq<Text>, faults: Faults) returns (reply: Reply)
      modifies this
      ensures (Now(), reply) == Save(old(Now()), key, manifest, chunks, faults)
    {
      files := PutManifest(files, key, manifest, faults.saves);
      if faults.saves != Undone {
        accepted := accepted[key := chunks];
      }
      reply := if faults.saves == Durable then Position(manifest.next, manifest.bytes, manifest.committed)
        else Refused(Storage);
    }

    method HandleBegin(key: Key, now: int, bytes: nat, sha256: Text, entries: seq<Key>,
                       faults: Faults) returns (reply: Reply)
      requires Lists(entries, files)
      modifies this
      ensures (Now(), reply) == DoBegin(old(Now()), now, key, bytes, sha256, faults)
    {
      hide Reserved, Held, PutEmpty, PutManifest;
      var manifest := FileOf(files, key).manifest;
      if manifest.Some? {
        if manifest.value.total != bytes || manifest.value.sha256 != sha256 {
          return Refused(Conflict);
        }
        return Resumed(manifest.value.next, manifest.value.committed);
      }
      if !faults.listed {
        return Refused(Storage);
      }
      var room := HasRoom(entries, key.sid, bytes);
      if !room {
        return Refused(Quota);
      }
      files := PutEmpty(files, key, faults.empties);
      if faults.empties != Durable {
        return Refused(Storage);
      }
      reply := SaveManifest(key, FirstManifest(key.sid, bytes, sha256, now), [], faults);
    }

    method HandleChunk(key: Key, m: Manifest, number: nat, data: Text, faults: Faults) returns (reply: Reply)
      requires FileOf(files, key).manifest == Some(m)
      modifies this
      ensures (Now(), reply) == DoChunk(sha, old(Now()), key, m, number, data, faults)
    {
      hide WriteChunk, PutManifest, Save;
      if m.next > 0 && number == m.next - 1 && sha(data) == m.lastHash {
        return Repeated(m.next);
      }
      if m.committed {
        return Refused(Committed);
      }
      if number != m.next {
        return Refused(Mismatch);
      }
      if m.bytes + |data| > m.total {
        return Refused(TooLarge);
      }
      ghost var chunks := Counted(Now(), key, m.next) + [data];
      var ok := WriteInPlace(key, m.bytes, data, faults.io);
      if !ok {
        return Refused(Storage);
      }
      reply := SaveManifest(key, m.(bytes := m.bytes + |data|, next := m.next + 1, lastHash := sha(data)), chunks,
                            faults);
    }

    /** One request of a session, with the listing of the directory it may need. */
    method Handle(sid: Text, request: Request, now: int, entries: seq<Key>, faults: Faults) returns (reply: Reply)
      requires Lists(entries, files)
      modifies this
      ensures (Now(), reply) == Handled(sha, old(Now()), now, sid, request, faults)
    {
      hide DoBegin, DoChunk, Save, FileHash;
      if request.Nameless? {
        return Refused(InvalidParams);
      }
      var key := Key(sid, request.id);
      var manifest := FileOf(files, key).manifest;
      if request.op.MalformedBegin? {
        return Refused(InvalidParams);
      }
      if request.op.Begin? {
        reply := HandleBegin(key, now, request.op.bytes, request.op.sha256, entries, faults);
        return;
      }
      if manifest.None? {
        return Refused(NotFound);
      }
      var m := manifest.value;
      if m.expires <= now {
        return Refused(Expired);
      }
      match request.op {
        case Chunk(number, data) =>
          reply := HandleChunk(key, m, number, data, faults);
        case Commit =>
          if m.bytes != m.total {
            return Refused(Incomplete);
          }
          if FileHash(sha, FileOf(files, key), faults.readable) != m.sha256 {
            return Refused(Checksum);
          }
          reply := SaveManifest(key, m.(committed := true), Counted(Now(), key, m.next), faults);
        case Report =>
          reply := SaveManifest(key, m, Counted(Now(), key, m.next), faults);
        case Unknown =>
          return Refused(NoMethod);
        case Malformed =>
          return Refused(InvalidParams);
      }
    }

    /** Deletes what has expired, one entry of the listing after the other. */
    method Expire(now: int, entries: seq<(Key, Unlink)>)
      modifies this`files
      ensures files == Expiry(old(files), now, entries)
    {
      hide ExpireEntry;
      var i := 0;
      while i < |entries|
        invariant i <= |entries| && files == Expiry(old(files), now, entries[..i])
      {
        assert entries[..i + 1] == entries[..i] + [entries[i]] && entries[..i + 1][..i] == entries[..i];
        files := ExpireEntry(files, now, entries[i].0, entries[i].1);
        i := i + 1;
      }
      assert entries[..i] == entries;
    }
  }

  lemma OverwriteNothing(d: Text, offset: nat)
    ensures Overwrite(d, offset, []) == d
  {
  }

  lemma RoomOfNothing(files: map<Key, File>, entries: seq<Key>, sid: Text)
    ensures Prefix(entries, 0) == {} && Sum(files, {}, TotalWeight()) == 0
    ensures Held(files, sid) * Prefix(entries, 0) == {}
  {
  }

  lemma RoomOfAll(files: map<Key, File>, entries: seq<Key>, sid: Text)
    requires Lists(entries, files)
    ensures Prefix(entries, |entries|) == files.Keys
    ensures Held(files, sid) * Prefix(entries, |entries|) == Held(files, sid)
  {
  }

  /** What one more entry of the listing adds. */
  lemma RoomStep(files: map<Key, File>, entries: seq<Key>, sid: Text, i: nat)
    requires Lists(entries, files) && i < |entries| && Prefix(entries, i) <= files.Keys
    ensures entries[i] in files && Prefix(entries, i + 1) <= files.Keys
    ensures var f := files[entries[i]];
            && Sum(files, Prefix(entries, i + 1), TotalWeight())
               == Sum(files, Prefix(entries, i), TotalWeight())
                 + (if f.manifest.Some? then f.manifest.value.total else 0)
            && |Held(files, sid) * Prefix(entries, i + 1)|
               == |Held(files, sid) * Prefix(entries, i)|
                 + (if f.manifest.Some? && f.manifest.value.session == sid then 1 else 0)
  {
    hide Sum, Held;
    var key := entries[i];
    var before, after := Prefix(entries, i), Prefix(entries, i + 1);
    assert after == before + {key} && key !in before;
    assert after - {key} == before;
    SumTake(files, after, TotalWeight(), key);
    HeldStep(files, before, key, sid);
  }

  lemma HeldStep(files: map<Key, File>, before: set<Key>, key: Key, sid: Text)
    requires key in files && key !in before
    ensures var f := files[key];
            |Held(files, sid) * (before + {key})|
            == |Held(files, sid) * before| + (if f.manifest.Some? && f.manifest.value.session == sid then 1 else 0)
  {
    if key in Held(files, sid) {
      assert Held(files, sid) * (before + {key}) == Held(files, sid) * before + {key};
    } else {
      assert Held(files, sid) * (before + {key}) == Held(files, sid) * before;
    }
  }
}
