/** From the spool to the client: what is printed is what was spooled, whatever crashes,
    duplicates and replays lie between. */
module EndToEnd {
  import opened Text
  import opened JsonText
  import opened Frames
  import opened Journal
  import opened JournalPosts
  import opened JournalSafety
  import opened JournalBudget
  import opened ResponseClient
  import opened SpoolBudget
  import LineFile
  import Reassembly
  import A = Answers
  import W = Spooling
  import Log = SpoolLog
  import R = Assembling

  // ---- The reader over the frames of one log ----

  /** The parser reads back what the printer wrote. */
  ghost predicate Reads(host: R.Host) { forall j {:trigger Dump(j)} :: host.parse(Dump(j)) == Some(j) }

  /** A log that reads back as these records. */
  ghost predicate Legible(host: R.Host, frames: seq<Json>, records: seq<Json>) {
    Reassembly.CaughtUp(host, frames, records) && A.OneEnd(records)
  }

  lemma {:induction false} FeedPrefix(host: R.Host, frames: seq<Json>, n: nat)
    requires n <= |frames| && Reassembly.Feed(host, frames).Fed?
    ensures var fed := Reassembly.Feed(host, frames[..n]);
            fed.Fed? && fed.logicals <= Reassembly.Feed(host, frames).logicals
    decreases |frames|
  {
    hide R.Accept;
    if n < |frames| {
      var shorter := frames[..|frames| - 1];
      assert shorter[..n] == frames[..n];
      FeedPrefix(host, shorter, n);
    } else {
      assert frames[..n] == frames;
    }
  }

  /** Where the client stands once it has accepted the first `n` frames. */
  ghost predicate AtFrame(host: R.Host, frames: seq<Json>, n: nat, p: Progress)
    requires n <= |frames|
  {
    var fed := Reassembly.Feed(host, frames[..n]);
    && fed.Fed? && p.printed == fed.logicals
    && match p
       case Waiting(expected, reader, printed) =>
         expected == n && reader == fed.state && forall i :: 0 <= i < |printed| ==> !IsTerminal(printed[i])
       case Answered(printed) => |printed| > 0 && IsTerminal(printed[|printed| - 1])
       case Failed(_) => false
  }

  lemma NextFrame(host: R.Host, frames: seq<Json>, n: nat, p: Progress)
    requires n < |frames| && Reassembly.Feed(host, frames).Fed? && p.Waiting? && AtFrame(host, frames, n, p)
    ensures AtFrame(host, frames, n + 1, TakeNext(host, n, p.reader, p.printed, frames[n]))
  {
    hide R.Accept, Reassembly.Feed;
    assert frames[..n + 1] == frames[..n] + [frames[n]];
    Reassembly.FeedAppend(host, frames[..n], frames[n]);
    FeedPrefix(host, frames, n + 1);
  }

  /** Printed is a beginning of the records; when it ends in a terminal it is all of them. */
  lemma AtFrameReads(host: R.Host, frames: seq<Json>, records: seq<Json>, n: nat, p: Progress)
    requires n <= |frames| && AtFrame(host, frames, n, p) && Legible(host, frames, records)
    ensures !p.Failed? && p.printed <= records && (p.Answered? ==> p.printed == records)
    ensures (p.Waiting? ==> n < |frames|)
  {
    hide Reassembly.Feed;
    FeedPrefix(host, frames, n);
    if n == |frames| {
      assert frames[..n] == frames;
    }
  }

  // ---- One entry of the stream ----

  /** A frame of the log: its number and the request it answers. */
  ghost predicate Framed(id: Text, frames: seq<Json>) {
    |frames| <= UINT64_MAX
    && forall i :: 0 <= i < |frames| ==>
         && frames[i].Obj? && SEQ in frames[i].m && frames[i].m[SEQ] == Num(i) && Addressed(id, frames[i].m)
  }

  /** A frame at or before the expected one: only the expected one counts. */
  lemma TakeFrame(host: R.Host, id: Text, frames: seq<Json>, n: nat, index: nat, p: Progress)
    requires Reads(host) && Framed(id, frames) && Reassembly.Feed(host, frames).Fed?
    requires n <= |frames| && index < |frames| && AtFrame(host, frames, n, p) && (n == 0 || index <= n)
    ensures var q := Take(host, id, p, Dump(frames[index]));
            if p.Waiting? && index == n then AtFrame(host, frames, n + 1, q) else q == p
  {
    hide Ascii, Dump, TakeNext, Reassembly.Feed;
    var parsed := host.parse(Dump(frames[index]));
    assert parsed == Some(frames[index]);
    assert AddressOf(parsed, id) == Ours;
    if p.Waiting? && index == n {
      NextFrame(host, frames, n, p);
    }
  }

  /** Somebody else's entry changes nothing. */
  lemma TakeOther(host: R.Host, id: Text, p: Progress, frame: Json, other: Text)
    requires Reads(host) && frame.Obj? && Addressed(other, frame.m) && other != id
    ensures Take(host, id, p, Dump(frame)) == p
  {
    hide Ascii, Dump, TakeNext;
    assert host.parse(Dump(frame)) == Some(frame);
  }

  // ---- The stream ----

  function Entries(posts: seq<Post>): seq<Text> { seq(|posts|, i requires 0 <= i < |posts| => posts[i].line) }

  lemma {:induction false} TrailPrefix(posts: seq<Post>, n: nat, key: Key)
    requires n <= |posts|
    ensures Trail(posts[..n], key) <= Trail(posts, key)
    decreases |posts|
  {
    if n < |posts| {
      var shorter := posts[..|posts| - 1];
      assert shorter[..n] == posts[..n];
      TrailPrefix(shorter, n, key);
    } else {
      assert posts[..n] == posts;
    }
  }

  /** After entry `n` the trail goes on in step. */
  lemma TrailNext(posts: seq<Post>, n: nat, key: Key)
    requires n < |posts| && Stepwise(Trail(posts, key)) && Concerns(posts[n], key)
    ensures Trail(posts[..n + 1], key) == Trail(posts[..n], key) + [posts[n].index]
    ensures var t := Trail(posts[..n], key);
            if t == [] then posts[n].index == 0 else posts[n].index <= t[|t| - 1] + 1
  {
    hide Trail;
    assert posts[..n + 1] == posts[..n] + [posts[n]];
    TrailAppend(posts[..n], posts[n], key);
    TrailPrefix(posts, n + 1, key);
    var t, whole := Trail(posts[..n], key), Trail(posts, key);
    assert whole[|t|] == posts[n].index;
    if t != [] {
      assert whole[|t| - 1] == t[|t| - 1];
    }
  }

  /** Every entry is a frame of this log or belongs to another request. */
  ghost predicate Channel(posts: seq<Post>, key: Key, frames: seq<Json>, start: nat, end: nat)
    requires start <= end <= |posts|
  {
    && Stepwise(Trail(posts, key))
    && forall i :: start <= i < end ==> Carries(posts[i], key, frames)
  }

  ghost predicate Carries(post: Post, key: Key, frames: seq<Json>) {
    if Concerns(post, key) then post.index < |frames| && post.line == Dump(frames[post.index])
    else Foreign(post, key.id)
  }

  ghost predicate Foreign(post: Post, id: Text) {
    exists other: Text, frame: Json :: frame.Obj? && Addressed(other, frame.m) && other != id
      && post.line == Dump(frame)
  }

  /** Where the client can stand after entries `start` to `end`: it has accepted frames
      up to some number, and no frame after that was published since. */
  ghost predicate Stands(host: R.Host, posts: seq<Post>, key: Key, frames: seq<Json>, end: nat, n: nat, p: Progress)
    requires end <= |posts| && n <= |frames|
  {
    && AtFrame(host, frames, n, p)
    && (p.Waiting? && n > 0 ==>
          var t := Trail(posts[..end], key);
          t != [] && t[|t| - 1] < n)
  }

  lemma StandsNext(host: R.Host, posts: seq<Post>, key: Key, frames: seq<Json>, end: nat, n: nat,
                   p: Progress) returns (m: nat)
    requires Reads(host) && Framed(key.id, frames) && Reassembly.Feed(host, frames).Fed?
    requires end < |posts| && Stepwise(Trail(posts, key)) && Carries(posts[end], key, frames)
    requires n <= |frames| && Stands(host, posts, key, frames, end, n, p)
    ensures n <= m <= |frames| && Stands(host, posts, key, frames, end + 1, m, Take(host, key.id, p, posts[end].line))
    ensures p.Waiting? && Concerns(posts[end], key) && (n > 0 || posts[end].index == 0) ==> posts[end].index < m
  {
    hide Trail, Take, AtFrame, Framed, Reads, Dump, Stepwise;
    var post := posts[end];
    m := n;
    if Concerns(post, key) {
      TrailNext(posts, end, key);
      if p.Waiting? {
        TakeFrame(host, key.id, frames, n, post.index, p);
        if post.index == n {
          m := n + 1;
        }
      } else {
        AnsweredStays(host, key.id, p, post.line);
      }
    } else {
      var other: Text, frame: Json :| frame.Obj? && Addressed(other, frame.m) && other != key.id
        && post.line == Dump(frame);
      TakeOther(host, key.id, p, frame, other);
      assert posts[..end + 1] == posts[..end] + [post];
      TrailAppend(posts[..end], post, key);
    }
  }

  lemma AnsweredStays(host: R.Host, id: Text, p: Progress, text: Text)
    requires !p.Waiting?
    ensures Take(host, id, p, text) == p
  {
  }

  lemma StandsAtStart(host: R.Host, posts: seq<Post>, key: Key, frames: seq<Json>, start: nat)
    requires start <= |posts|
    ensures Stands(host, posts, key, frames, start, 0, START)
  {
    hide R.Accept;
    assert frames[..0] == [];
  }

  lemma EntriesAppend(posts: seq<Post>, start: nat, end: nat)
    requires start <= end < |posts|
    ensures Entries(posts[start..end + 1]) == Entries(posts[start..end]) + [posts[end].line]
  {
    assert posts[start..end + 1] == posts[start..end] + [posts[end]];
  }

  /** From any point of the stream on, the client never fails. */
  lemma {:induction false} WaitStands(host: R.Host, posts: seq<Post>, key: Key, frames: seq<Json>, start: nat,
                                      end: nat) returns (n: nat)
    requires Reads(host) && Framed(key.id, frames) && Reassembly.Feed(host, frames).Fed?
    requires start <= end <= |posts| && Channel(posts, key, frames, start, end)
    ensures n <= |frames| && Stands(host, posts, key, frames, end, n, Waited(host, key.id, Entries(posts[start..end])))
    ensures Waited(host, key.id, Entries(posts[start..end])).Waiting? ==>
              forall i, j ::
                (start <= i <= j < end && Concerns(posts[i], key) && posts[i].index == 0 && Concerns(posts[j], key)) ==>
                  posts[j].index < n
    decreases end
  {
    hide Take, Stands, Carries, Trail, Stepwise, Framed, Reads, Reassembly.Feed;
    if start == end {
      n := 0;
      assert posts[start..end] == [];
      StandsAtStart(host, posts, key, frames, start);
    } else {
      var before := WaitStands(host, posts, key, frames, start, end - 1);
      EntriesAppend(posts, start, end - 1);
      var texts := Entries(posts[start..end - 1]);
      WaitedAppend(host, key.id, texts, posts[end - 1].line);
      var p := Waited(host, key.id, texts);
      n := StandsNext(host, posts, key, frames, end - 1, before, p);
      if p.Waiting? {
        forall i, j | start <= i <= j < end && Concerns(posts[i], key) && posts[i].index == 0 && Concerns(posts[j], key)
          ensures posts[j].index < n
        {
          if j == end - 1 && i < j {
            assert posts[i].index < before;
          }
        }
      } else {
        AnsweredStays(host, key.id, p, posts[end - 1].line);
      }
    }
  }

  // ---- Over every run ----

  /** An entry that carries this frame of the job. */
  predicate Shows(post: Post, key: Key, index: int) { Concerns(post, key) && post.index == index }

  /** The first frame is among these entries and later on, or in the same entry, the last one. */
  predicate Shown(posts: seq<Post>, key: Key, last: int) {
    exists i, j :: 0 <= i <= j < |posts| && Shows(posts[i], key, 0) && Shows(posts[j], key, last)
  }

  /** No reply was published directly under this id among these entries. */
  predicate NoDirectReply(posts: seq<Post>, id: Text) {
    forall i :: 0 <= i < |posts| && posts[i].Direct? ==> posts[i].id != id
  }

  lemma PostsCarry(w: World, key: Key, i: nat)
    requires i < |PostsOf(w, key.sid)| && GoodPost(w, key.sid, PostsOf(w, key.sid)[i])
    requires PostsOf(w, key.sid)[i].Direct? ==> PostsOf(w, key.sid)[i].id != key.id
    ensures Concerns(PostsOf(w, key.sid)[i], key) ==> key in w.history.content
    ensures Carries(PostsOf(w, key.sid)[i], key, if key in w.history.content then w.history.content[key] else [])
  {
    hide Dump;
    var post := PostsOf(w, key.sid)[i];
    match post
    case Direct(id, line) =>
      var reply: Json :| reply.Obj? && Addressed(id, reply.m) && line == Dump(reply);
    case FromJob(other, index, line) =>
      var frame := w.history.content[other][index];
      assert frame.Obj? && Addressed(other.id, frame.m);
  }

  /** Whatever the gateway, its crashes and the client's own restarts do: a client that
      reads the responses of its session from any point on never meets a gap or a refused
      fragment; what it printed is always a beginning of the records of the log, and all
      of them once it is done; and it is done by the time it was handed the first frame
      and, later on, the last one. */
  lemma ClientSeesTheLog(g: Gateway, actions: seq<Action>, key: Key, host: R.Host, records: seq<Json>, start: nat,
                         end: nat)
    requires Reads(host)
    requires var w := After(g, actions);
             && start <= end <= |PostsOf(w, key.sid)| && NoDirectReply(PostsOf(w, key.sid)[start..end], key.id)
             && key in w.history.content && Legible(host, w.history.content[key], records)
    ensures var w := After(g, actions);
            var posts := PostsOf(w, key.sid);
            var p := Waited(host, key.id, Entries(posts[start..end]));
            && !p.Failed? && p.printed <= records && (p.Answered? ==> p.printed == records)
            && (Shown(posts[start..end], key, |w.history.content[key]| - 1) ==> p.Answered?)
  {
    hide After, Dump, Trail, Stepwise, WindowOf, Carries, Reads, AtFrame, A.OneEnd, Reassembly.CaughtUp;
    var w := After(g, actions);
    var posts, log := PostsOf(w, key.sid), w.history.content[key];
    FramesInStep(g, actions, key);
    var frames := if exists i :: start <= i < end && Concerns(posts[i], key) then log else [];
    forall i | start <= i < end ensures Carries(posts[i], key, frames) {
      assert posts[i] == posts[start..end][i - start];
      assert GoodPost(w, key.sid, posts[i]);
      PostsCarry(w, key, i);
      if !Concerns(posts[i], key) {
        ForeignCarries(posts[i], key, log, frames);
      }
    }
    ClientReads(host, posts, key, frames, log, records, start, end);
  }

  lemma ForeignCarries(post: Post, key: Key, frames: seq<Json>, others: seq<Json>)
    requires Carries(post, key, frames) && !Concerns(post, key)
    ensures Carries(post, key, others)
  {
  }

  /** The same for one stream; `frames` is the log or, when none of it is read, nothing. */
  lemma ClientReads(host: R.Host, posts: seq<Post>, key: Key, frames: seq<Json>, log: seq<Json>, records: seq<Json>,
                    start: nat, end: nat)
    requires Reads(host) && Legible(host, log, records) && start <= end <= |posts|
    requires Channel(posts, key, frames, start, end)
    requires Framed(key.id, frames) && (frames == log || (frames == [] && !Shown(posts[start..end], key, |log| - 1)))
    ensures var p := Waited(host, key.id, Entries(posts[start..end]));
            && !p.Failed? && p.printed <= records && (p.Answered? ==> p.printed == records)
            && (Shown(posts[start..end], key, |log| - 1) ==> p.Answered?)
  {
    hide Trail, Stepwise, Carries, Reads, A.OneEnd, Framed, Reassembly.Feed;
    assert Reassembly.Feed(host, []) == Reassembly.Fed(R.EMPTY, []) by { Reassembly.FeedNothing(host); }
    var n := WaitStands(host, posts, key, frames, start, end);
    var p := Waited(host, key.id, Entries(posts[start..end]));
    if frames == log {
      AtFrameReads(host, log, records, n, p);
    } else {
      assert frames[..n] == [];
    }
    if Shown(posts[start..end], key, |log| - 1) {
      var i, j :| 0 <= i <= j < end - start && Shows(posts[start..end][i], key, 0)
        && Shows(posts[start..end][j], key, |log| - 1);
      assert Shows(posts[start + i], key, 0) && Shows(posts[start + j], key, |log| - 1);
    }
  }

  // ---- Both ends and everything between ----

  /** Where a log comes from: a use of the spool, or the notice written after a crash. */
  datatype Source = Spooled(answer: A.Answer) | Recovered

  function FramesOf(w: W.Host, id: Text, source: Source): seq<Json> {
    match source
    case Spooled(a) => A.Outcome(w, a).0.frames
    case Recovered => RecoveryLog(id)
  }

  function RecordsOf(w: W.Host, id: Text, source: Source): seq<Json> {
    match source
    case Spooled(a) => A.Outcome(w, a).0.records
    case Recovered => RecoveryLog(id)
  }

  /** The spool has finished without a complaint; then the log is the answer to `id`. */
  ghost predicate Complete(w: W.Host, id: Text, source: Source) {
    source.Spooled? ==> source.answer.id == id && A.Proper(w, source.answer) && A.Outcome(w, source.answer).1.Ok()
  }

  /** No record of it is both too large for a frame and nested too deep. */
  ghost predicate Clear(w: W.Host, source: Source) { source.Spooled? ==> A.Clear(w, source.answer) }

  /** What a log says: the accepted items in order and one end, or only that the outcome
      is unknown. */
  ghost predicate Honest(w: W.Host, source: Source) { source.Spooled? ==> A.ItemsThenEnd(w, source.answer) }

  /** The notice after a crash is a log of one record, for any reader. */
  lemma RecoveryIsLegible(r: R.Host, id: Text)
    ensures Legible(r, RecoveryLog(id), RecoveryLog(id))
  {
    hide Dump, Ascii, ErrorRecord, Numbered;
    var record := ErrorRecord(id, OUTCOME_UNKNOWN);
    Log.ErrorEnds(id, OUTCOME_UNKNOWN, 0);
    ErrorFields(id, OUTCOME_UNKNOWN);
    Reassembly.AcceptWhole(r, R.EMPTY, record, id, 0);
    Reassembly.FeedNothing(r);
    Reassembly.FeedAppend(r, [], Numbered(record, 0));
    assert [] + [Numbered(record, 0)] == RecoveryLog(id);
  }

  lemma ErrorFields(id: Text, why: Status)
    ensures var record := ErrorRecord(id, why);
            && Reassembly.Sendable(id, record) && IsTerminal(Obj(record)) && Addressed(id, record)
            && R.IsText(record, TYPE) && record[TYPE] == Str(ERROR) && record[TYPE] != Str(FRAGMENT)
  {
    hide Ascii;
    NamesDiffer();
  }

  /** Recovery is one more use of the spool, and this is what it leaves unless the disk refuses. */
  lemma RecoveryIsSpooled(w: W.Host, id: Text, open: bool, synced: bool)
    requires IsId(id)
    ensures var a := A.Alone(id, open, ErrorRecord(id, OUTCOME_UNKNOWN), synced);
            && A.Proper(w, a) && (A.Outcome(w, a).1.Ok() <==> open && synced && w.room(0) >= |Lines(RecoveryLog(id))|)
            && (A.Outcome(w, a).1.Ok() ==>
                  A.Outcome(w, a).0.frames == RecoveryLog(id) && A.Outcome(w, a).0.file == Lines(RecoveryLog(id)))
  {
    hide Dump, Ascii, ErrorRecord, Numbered, Reassembly.Sendable, A.Outcome;
    var record := ErrorRecord(id, OUTCOME_UNKNOWN);
    ErrorFields(id, OUTCOME_UNKNOWN);
    RecoverySize(id);
    RecoveryLine(id);
    A.ShortReply(w, id, open, record, synced);
  }

  lemma RecoveryLine(id: Text)
    ensures Lines(RecoveryLog(id)) == W.Line(ErrorRecord(id, OUTCOME_UNKNOWN), 0)
    ensures SEQ !in ErrorRecord(id, OUTCOME_UNKNOWN)
  {
    hide Dump, Ascii;
    NamesDiffer();
    var frame := Numbered(ErrorRecord(id, OUTCOME_UNKNOWN), 0);
    assert [frame][..0] == [];
    assert Lines([frame]) == Lines([]) + Dump(frame) + [NEWLINE];
  }

  lemma SourceIsLegible(w: W.Host, r: R.Host, id: Text, source: Source)
    requires Reassembly.Paired(w, r) && Complete(w, id, source)
    ensures Honest(w, source)
    ensures Clear(w, source) ==> Legible(r, FramesOf(w, id, source), RecordsOf(w, id, source))
    ensures !Clear(w, source) ==> Reassembly.Feed(r, FramesOf(w, id, source)) == Reassembly.Broken
  {
    hide Dump, A.Outcome, A.Proper, A.Clear, A.ItemsThenEnd, A.OneEnd, Reassembly.CaughtUp, Reassembly.Feed,
         RecoveryLog;
    match source
    case Spooled(a) =>
      A.AnswerIsComplete(w, a);
      A.AnswerIsRead(w, r, a);
      A.AnswerEndsOnce(w, a);
    case Recovered =>
      RecoveryIsLegible(r, id);
  }

  /** The whole way. A log is spooled for a request: a list that is finished, a reply, a
      refusal, or the notice after a crash. Its file is delivered, perhaps more than once
      and across crashes; a client reads the responses of its session from any point on.
      It prints a beginning of the records, in order, never anything else: the accepted
      items, then one record that ends them. Once it is done it has printed all of them. */
  lemma PrintedIsSpooled(g: Gateway, actions: seq<Action>, key: Key, start: nat, end: nat, w: W.Host, r: R.Host,
                         source: Source)
    requires Reassembly.Paired(w, r) && Complete(w, key.id, source) && Clear(w, source)
    requires var world := After(g, actions);
             && start <= end <= |PostsOf(world, key.sid)| && NoDirectReply(PostsOf(world, key.sid)[start..end], key.id)
             && key in world.history.content && world.history.content[key] == FramesOf(w, key.id, source)
    ensures Honest(w, source)
    ensures var posts := PostsOf(After(g, actions), key.sid)[start..end];
            var p, records := Waited(r, key.id, Entries(posts)), RecordsOf(w, key.id, source);
            && !p.Failed? && p.printed <= records && (p.Answered? ==> p.printed == records)
            && (Shown(posts, key, |FramesOf(w, key.id, source)| - 1) ==> p.Answered?)
  {
    hide After, Dump, Honest, Complete, Clear, FramesOf, RecordsOf, Legible, Shown, Entries, Waited, NoDirectReply;
    SourceIsLegible(w, r, key.id, source);
    ClientSeesTheLog(g, actions, key, r, RecordsOf(w, key.id, source), start, end);
  }

  // ---- Every log of a run ----

  /** The log that an action writes as the answer to `key`. */
  predicate Writes(w: World, a: Action, key: Key, frames: seq<Json>) {
    match a
    case SpoolInline(log) => w.process.control.Starting? && w.process.control.key == key && frames == log
    case SpoolWorker(log) => w.process.worker.Busy? && w.process.worker.key == key && frames == log
    case RecoverWrite => frames == RecoveryLog(key.id)
    case _ => false
  }

  lemma OutsideContent(w: World, a: Action)
    requires Outside(a) && OutsideEnabled(w, a)
    ensures OutsideNext(w, a).history.content == w.history.content
  {
    hide Dump, Lines, IsLog, Decide, Available, BodyTotal, JobCount, RecoveryLog, LineFile.FirstLine, PostsOf,
         RequestsOf, HasRoom;
  }

  lemma CleanupContent(w: World, a: Action)
    requires Cleanup(a) && CleanupEnabled(w, a)
    ensures CleanupNext(w, a).history.content == w.history.content
  {
    hide Dump, Lines, IsLog, Decide, Available, BodyTotal, JobCount, RecoveryLog, LineFile.FirstLine, PostsOf,
         RequestsOf, HasRoom;
  }

  lemma AdmissionContent(g: Gateway, w: World, a: Action)
    requires Admission(a) && AdmissionEnabled(g, w, a)
    ensures AdmissionNext(g, w, a).history.content == w.history.content
  {
    hide Dump, Lines, IsLog, Decide, Available, BodyTotal, JobCount, RecoveryLog, LineFile.FirstLine, PostsOf,
         RequestsOf, HasRoom;
  }

  lemma DeliveryContent(w: World, a: Action)
    requires Delivery(a) && DeliveryEnabled(w, a)
    ensures DeliveryNext(w, a).history.content == w.history.content
  {
    hide Dump, Lines, IsLog, Decide, Available, BodyTotal, JobCount, RecoveryLog, LineFile.FirstLine, PostsOf,
         RequestsOf, HasRoom;
  }

  lemma RecoveryContent(w: World, a: Action, key: Key)
    requires Recovery(a) && RecoveryEnabled(w, a) && key in RecoveryNext(w, a).history.content
    ensures var frames := RecoveryNext(w, a).history.content[key];
            (key in w.history.content && w.history.content[key] == frames) || Writes(w, a, key, frames)
  {
    hide Dump, Lines, IsLog, Decide, Available, BodyTotal, JobCount, RecoveryLog, LineFile.FirstLine, PostsOf,
         RequestsOf, HasRoom;
  }

  lemma InlineContent(w: World, a: Action, key: Key)
    requires InlineJob(a) && InlineJobEnabled(w, a) && key in InlineJobNext(w, a).history.content
    ensures var frames := InlineJobNext(w, a).history.content[key];
            (key in w.history.content && w.history.content[key] == frames) || Writes(w, a, key, frames)
  {
    hide Dump, Lines, IsLog, Decide, Available, BodyTotal, JobCount, RecoveryLog, LineFile.FirstLine, PostsOf,
         RequestsOf, HasRoom;
  }

  lemma WorkerContent(w: World, a: Action, key: Key)
    requires WorkerJob(a) && WorkerJobEnabled(w, a) && key in WorkerJobNext(w, a).history.content
    ensures var frames := WorkerJobNext(w, a).history.content[key];
            (key in w.history.content && w.history.content[key] == frames) || Writes(w, a, key, frames)
  {
    hide Dump, Lines, IsLog, Decide, Available, BodyTotal, JobCount, RecoveryLog, LineFile.FirstLine, PostsOf,
         RequestsOf, HasRoom;
  }

  /** Logs only ever come from a spool or from recovery. */
  lemma ContentStep(g: Gateway, w: World, a: Action, key: Key)
    requires key in Step(g, w, a).history.content
    ensures var frames := Step(g, w, a).history.content[key];
            || (key in w.history.content && w.history.content[key] == frames)
            || (Enabled(g, w, a) && Writes(w, a, key, frames))
  {
    hide OutsideEnabled, OutsideNext, CleanupEnabled, CleanupNext, AdmissionEnabled, AdmissionNext, Writes;
    hide DeliveryEnabled, DeliveryNext, RecoveryEnabled, RecoveryNext, InlineJobEnabled, InlineJobNext;
    hide WorkerJobEnabled, WorkerJobNext;
    if Enabled(g, w, a) {
      if Outside(a) {
        OutsideContent(w, a);
      } else if Recovery(a) {
        RecoveryContent(w, a, key);
      } else if Cleanup(a) {
        CleanupContent(w, a);
      } else if Admission(a) {
        AdmissionContent(g, w, a);
      } else if InlineJob(a) {
        InlineContent(w, a, key);
      } else if WorkerJob(a) {
        WorkerContent(w, a, key);
      } else {
        DeliveryContent(w, a);
      }
    }
  }

  /** These frames are what some use of the spool left. */
  ghost predicate LeftBySpool(w: W.Host, frames: seq<Json>) {
    exists a: A.Answer {:trigger A.Outcome(w, a)} :: A.Proper(w, a) && A.Outcome(w, a).1.Ok()
      && A.Outcome(w, a).0.frames == frames
  }

  /** In this run, jobs are answered through the spool. */
  ghost predicate ThroughSpools(w: W.Host, actions: seq<Action>) {
    forall i :: 0 <= i < |actions| ==>
      && (actions[i].SpoolInline? ==> LeftBySpool(w, actions[i].frames))
      && (actions[i].SpoolWorker? ==> LeftBySpool(w, actions[i].frames))
  }

  lemma OneAddressee(w: W.Host, a: A.Answer, id: Text, frames: seq<Json>)
    requires A.Proper(w, a) && A.Outcome(w, a).1.Ok() && A.Outcome(w, a).0.frames == frames && IsLog(id, frames)
    ensures a.id == id
  {
    hide Dump, Lines, A.Outcome, A.Proper, A.ItemsThenEnd;
    A.AnswerIsComplete(w, a);
    assert Log.FrameAt(a.id, frames[0], 0);
    assert Addressed(id, frames[0].m);
  }

  /** A log whose source is known. */
  ghost predicate Sourced(w: W.Host, id: Text, frames: seq<Json>) {
    exists source: Source {:trigger FramesOf(w, id, source)} :: Complete(w, id, source)
      && FramesOf(w, id, source) == frames
  }

  lemma LeftIsSourced(w: W.Host, id: Text, frames: seq<Json>)
    requires LeftBySpool(w, frames) && IsLog(id, frames)
    ensures Sourced(w, id, frames)
  {
    hide Dump, Lines, A.Outcome, A.Proper, IsLog, RecoveryLog;
    var a: A.Answer :| A.Proper(w, a) && A.Outcome(w, a).1.Ok() && A.Outcome(w, a).0.frames == frames;
    OneAddressee(w, a, id, frames);
    assert Complete(w, id, Spooled(a)) && FramesOf(w, id, Spooled(a)) == frames;
  }

  lemma RecoveryIsSourced(w: W.Host, id: Text)
    ensures Sourced(w, id, RecoveryLog(id))
  {
    hide RecoveryLog;
    assert Complete(w, id, Recovered) && FramesOf(w, id, Recovered) == RecoveryLog(id);
  }

  lemma WrittenIsSourced(g: Gateway, world: World, a: Action, key: Key, frames: seq<Json>, w: W.Host)
    requires Enabled(g, world, a) && Writes(world, a, key, frames)
    requires (a.SpoolInline? || a.SpoolWorker? ==> LeftBySpool(w, a.frames))
    ensures Sourced(w, key.id, frames)
  {
    hide Sourced, LeftBySpool, IsLog, RecoveryLog, Enabled;
    WriteGuards(g, world, a);
    if a.RecoverWrite? {
      RecoveryIsSourced(w, key.id);
    } else {
      LeftIsSourced(w, key.id, frames);
    }
  }

  lemma {:induction false} LogIsSourced(g: Gateway, actions: seq<Action>, w: W.Host, key: Key)
    requires ThroughSpools(w, actions) && key in After(g, actions).history.content
    ensures Sourced(w, key.id, After(g, actions).history.content[key])
    decreases |actions|
  {
    hide Step, LeftBySpool, Sourced, Enabled, Writes;
    var before, a := actions[..|actions| - 1], actions[|actions| - 1];
    var world := After(g, before);
    ContentStep(g, world, a, key);
    var frames := After(g, actions).history.content[key];
    if Enabled(g, world, a) && Writes(world, a, key, frames) {
      WrittenIsSourced(g, world, a, key, frames, w);
    } else {
      LogIsSourced(g, before, w, key);
    }
  }

  lemma WriteGuards(g: Gateway, w: World, a: Action)
    requires Enabled(g, w, a)
    ensures a.SpoolInline? ==> w.process.control.Starting? && IsLog(w.process.control.key.id, a.frames)
    ensures a.SpoolWorker? ==> w.process.worker.Busy? && IsLog(w.process.worker.key.id, a.frames)
  {
    hide IsLog, Lines, OutsideEnabled, CleanupEnabled, AdmissionEnabled, DeliveryEnabled, RecoveryEnabled;
  }

  /** Over every run in which jobs are answered through the spool, and for every request:
      its log says honestly what was spooled, and unless one of its records is both large
      and deep, any client that reads the session from any point on prints the records of
      that log in order, all of them by the time it is done. */
  lemma EveryClientIsServed(g: Gateway, actions: seq<Action>, key: Key, start: nat, end: nat, w: W.Host, r: R.Host)
      returns (source: Source)
    requires Reassembly.Paired(w, r) && ThroughSpools(w, actions)
    requires var world := After(g, actions);
             && start <= end <= |PostsOf(world, key.sid)| && NoDirectReply(PostsOf(world, key.sid)[start..end], key.id)
             && key in world.history.content
    ensures Complete(w, key.id, source) && Honest(w, source)
    ensures After(g, actions).history.content[key] == FramesOf(w, key.id, source)
    ensures Clear(w, source) ==>
              var posts := PostsOf(After(g, actions), key.sid)[start..end];
              var p, records := Waited(r, key.id, Entries(posts)), RecordsOf(w, key.id, source);
              && !p.Failed? && p.printed <= records && (p.Answered? ==> p.printed == records)
              && (Shown(posts, key, |FramesOf(w, key.id, source)| - 1) ==> p.Answered?)
  {
    hide After, Dump, Honest, Complete, Clear, FramesOf, RecordsOf, Legible, Shown, Entries, Waited, NoDirectReply,
         ThroughSpools;
    LogIsSourced(g, actions, w, key);
    source :| Complete(w, key.id, source) && FramesOf(w, key.id, source) == After(g, actions).history.content[key];
    SourceIsLegible(w, r, key.id, source);
    if Clear(w, source) {
      PrintedIsSpooled(g, actions, key, start, end, w, r, source);
    }
  }
}
