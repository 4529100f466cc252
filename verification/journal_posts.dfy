/** What is published for a job: its frames, each step the next one, the last one again
    or the first one again, and never more than the window ahead of the reader. */
module JournalPosts {
  import opened Text
  import opened JsonText
  import opened Frames
  import opened Journal
  import opened JournalRuns
  import opened JournalLogs
  import LineFile

  predicate Concerns(post: Post, key: Key) { post.FromJob? && post.key == key }

  /** The frame numbers published for a job, in stream order. */
  function Trail(posts: seq<Post>, key: Key): (t: seq<nat>)
    decreases |posts|
  {
    if posts == [] then []
    else
      var before, last := Trail(posts[..|posts| - 1], key), posts[|posts| - 1];
      if Concerns(last, key) then before + [last.index] else before
  }

  function TrailOf(w: World, key: Key): seq<nat> { Trail(PostsOf(w, key.sid), key) }

  predicate Stepwise(t: seq<nat>) {
    && (t != [] ==> t[0] == 0)
    && forall i :: 0 <= i < |t| - 1 ==> t[i + 1] == t[i] + 1 || t[i + 1] == t[i] || t[i + 1] == 0
  }

  /** The frame to publish next follows the trail. */
  predicate Follows(t: seq<nat>, cursor: nat) {
    if t == [] then cursor == 0 else cursor == t[|t| - 1] + 1 || cursor == t[|t| - 1] || cursor == 0
  }

  /** One response entry: a frame of the log of a job of this session, or a reply that
      names the request it answers. */
  ghost predicate GoodPost(w: World, sid: Text, post: Post) {
    match post
    case FromJob(key, index, line) =>
      && key.sid == sid && key in w.history.accepted
      && (key in w.disk.jobs ==> w.disk.jobs[key].phase == Done)
      && key in w.history.content && IsLog(key.id, w.history.content[key]) && index < |w.history.content[key]|
      && line == Dump(w.history.content[key][index])
    case Direct(id, line) => exists reply: Json :: reply.Obj? && Addressed(id, reply.m) && line == Dump(reply)
  }

  ghost predicate Posts(w: World) {
    forall sid, i :: 0 <= i < |PostsOf(w, sid)| ==> GoodPost(w, sid, PostsOf(w, sid)[i])
  }

  /** The frame the cursor names was the last one published. */
  ghost predicate LastIsCursor(w: World, key: Key) {
    && key in w.history.cursor && TrailOf(w, key) != []
    && TrailOf(w, key)[|TrailOf(w, key)| - 1] == w.history.cursor[key]
  }

  ghost predicate Trails(w: World) {
    && (forall key: Key :: Stepwise(TrailOf(w, key)))
    && (forall key :: key in w.disk.jobs && w.disk.jobs[key].phase == Done && key.sid !in w.history.condemned ==>
          key in w.history.cursor && Follows(TrailOf(w, key), w.history.cursor[key]))
    && (w.process.control.Advancing? ==> LastIsCursor(w, w.process.control.key))
  }

  /** At most 32 frames wait for the reader. */
  predicate WindowOf(w: World, sid: Text) { AckedOf(w, sid) <= |PostsOf(w, sid)| <= AckedOf(w, sid) + WINDOW }

  ghost predicate Window(w: World) { forall sid :: WindowOf(w, sid) }

  lemma TrailAppend(posts: seq<Post>, post: Post, key: Key)
    ensures Trail(posts + [post], key)
         == if Concerns(post, key) then Trail(posts, key) + [post.index] else Trail(posts, key)
  {
    assert (posts + [post])[..|posts|] == posts;
  }

  lemma {:induction false} TrailSource(posts: seq<Post>, key: Key)
    requires Trail(posts, key) != []
    ensures exists post :: post in posts && Concerns(post, key)
    decreases |posts|
  {
    var last := posts[|posts| - 1];
    if Concerns(last, key) {
      assert last in posts;
    } else {
      TrailSource(posts[..|posts| - 1], key);
      var post :| post in posts[..|posts| - 1] && Concerns(post, key);
      assert post in posts;
    }
  }

  // ---- What most actions leave alone ----

  /** A log once published stays what it was, and its job stays done or goes. */
  ghost predicate KeepsLogs(w: World, v: World) {
    && (forall k :: k in w.history.accepted ==> k in v.history.accepted)
    && (forall k :: k in w.history.accepted && k in v.disk.jobs ==>
          k in w.disk.jobs && (w.disk.jobs[k].phase == Done ==> v.disk.jobs[k].phase == Done))
    && (forall k :: k in w.history.content ==>
          k in v.history.content && (v.history.content[k] == w.history.content[k] || IsRunning(w, k)))
  }

  lemma GoodPostStays(w: World, v: World, sid: Text, post: Post)
    requires KeepsLogs(w, v) && GoodPost(w, sid, post)
    ensures GoodPost(v, sid, post)
  {
    hide IsLog, Dump;
  }

  lemma PostsStay(w: World, v: World)
    requires KeepsLogs(w, v) && Posts(w) && v.redis.posts == w.redis.posts
    ensures Posts(v)
  {
    hide GoodPost, KeepsLogs;
    forall sid, i | 0 <= i < |PostsOf(v, sid)| ensures GoodPost(v, sid, PostsOf(v, sid)[i]) {
      assert PostsOf(v, sid) == PostsOf(w, sid);
      GoodPostStays(w, v, sid, PostsOf(w, sid)[i]);
    }
  }

  lemma PostsGrow(w: World, v: World, sid: Text, post: Post)
    requires KeepsLogs(w, v) && Posts(w) && v.redis.posts == w.redis.posts[sid := PostsOf(w, sid) + [post]]
    requires GoodPost(v, sid, post)
    ensures Posts(v)
  {
    hide GoodPost, KeepsLogs;
    forall other, i | 0 <= i < |PostsOf(v, other)| ensures GoodPost(v, other, PostsOf(v, other)[i]) {
      if i < |PostsOf(w, other)| {
        GoodPostStays(w, v, other, PostsOf(w, other)[i]);
      }
    }
  }

  /** A cursor stays, or delivery starts over. */
  ghost predicate KeepsCursors(w: World, v: World) {
    && (forall key :: key in v.disk.jobs && v.disk.jobs[key].phase == Done && key.sid !in v.history.condemned ==>
          && key in v.history.cursor
          && (|| v.history.cursor[key] == 0
              || (key in w.disk.jobs && w.disk.jobs[key].phase == Done && key.sid !in w.history.condemned
                  && key in w.history.cursor && v.history.cursor[key] == w.history.cursor[key])))
    && (v.process.control.Advancing? ==>
          && v.process.control == w.process.control
          && v.process.control.key in w.history.cursor && v.process.control.key in v.history.cursor
          && v.history.cursor[v.process.control.key] == w.history.cursor[v.process.control.key])
  }

  lemma TrailsStay(w: World, v: World)
    requires Trails(w) && KeepsCursors(w, v) && v.redis.posts == w.redis.posts
    ensures Trails(v)
  {
    hide Stepwise, Trail;
    forall key: Key ensures TrailOf(v, key) == TrailOf(w, key) {
    }
    forall key: Key ensures Stepwise(TrailOf(v, key)) {
      assert Stepwise(TrailOf(w, key));
    }
  }

  /** A direct reply is on no trail. */
  lemma TrailsSkip(w: World, v: World, sid: Text, post: Post)
    requires Trails(w) && KeepsCursors(w, v) && v.redis.posts == w.redis.posts[sid := PostsOf(w, sid) + [post]]
    requires post.Direct?
    ensures Trails(v)
  {
    hide Stepwise, Trail;
    forall key: Key ensures TrailOf(v, key) == TrailOf(w, key) {
      TrailAppend(PostsOf(w, sid), post, key);
    }
    forall key: Key ensures Stepwise(TrailOf(v, key)) {
      assert Stepwise(TrailOf(w, key));
    }
  }

  lemma OutsideKeepsLogs(w: World, a: Action)
    requires Outside(a) && OutsideEnabled(w, a) && Ledger(w) && OneAtATime(w)
    ensures KeepsLogs(w, OutsideNext(w, a)) && OutsideNext(w, a).redis.posts == w.redis.posts
  {
    hide Lines, Available, IsLog, BodyTotal, JobCount, Dump, RecoveryLog, HasRoom, LineFile.FirstLine,
         LineFile.Boundary, Pending;
  }

  lemma RecoveryKeepsLogs(w: World, a: Action)
    requires Recovery(a) && RecoveryEnabled(w, a) && Ledger(w) && OneAtATime(w)
    ensures KeepsLogs(w, RecoveryNext(w, a)) && RecoveryNext(w, a).redis.posts == w.redis.posts
  {
    hide Lines, Available, IsLog, BodyTotal, JobCount, Dump, RecoveryLog, HasRoom, LineFile.FirstLine,
         LineFile.Boundary, Pending;
  }

  lemma CleanupKeepsLogs(w: World, a: Action)
    requires Cleanup(a) && CleanupEnabled(w, a) && Ledger(w) && OneAtATime(w)
    ensures KeepsLogs(w, CleanupNext(w, a)) && CleanupNext(w, a).redis.posts == w.redis.posts
  {
    hide Lines, Available, IsLog, BodyTotal, JobCount, Dump, RecoveryLog, HasRoom, LineFile.FirstLine,
         LineFile.Boundary, Pending;
  }

  lemma AnsweringKeepsLogs(w: World, a: Action)
    requires a.SpoolInline? || a.Tear? || a.RunInline?
    requires InlineJobEnabled(w, a) && Ledger(w) && OneAtATime(w)
    ensures KeepsLogs(w, InlineJobNext(w, a)) && InlineJobNext(w, a).redis.posts == w.redis.posts
  {
    hide Lines, Available, IsLog, BodyTotal, JobCount, Dump, RecoveryLog, HasRoom, LineFile.FirstLine,
         LineFile.Boundary, Pending;
  }

  lemma MarkingKeepsLogs(w: World, a: Action)
    requires a.Start? || a.Mark?
    requires InlineJobEnabled(w, a) && Ledger(w) && OneAtATime(w)
    ensures KeepsLogs(w, InlineJobNext(w, a)) && InlineJobNext(w, a).redis.posts == w.redis.posts
  {
    hide Lines, Available, IsLog, BodyTotal, JobCount, Dump, RecoveryLog, HasRoom, LineFile.FirstLine,
         LineFile.Boundary, Pending;
  }

  lemma InlineJobKeepsLogs(w: World, a: Action)
    requires InlineJob(a)
    requires InlineJobEnabled(w, a) && Ledger(w) && OneAtATime(w)
    ensures KeepsLogs(w, InlineJobNext(w, a)) && InlineJobNext(w, a).redis.posts == w.redis.posts
  {
    hide InlineJobNext, InlineJobEnabled, Ledger, OneAtATime, KeepsLogs;
    if a.Start? || a.Mark? {
      MarkingKeepsLogs(w, a);
    } else {
      AnsweringKeepsLogs(w, a);
    }
  }

  lemma WorkerJobKeepsLogs(w: World, a: Action)
    requires WorkerJob(a) && WorkerJobEnabled(w, a) && Ledger(w) && OneAtATime(w)
    ensures KeepsLogs(w, WorkerJobNext(w, a)) && WorkerJobNext(w, a).redis.posts == w.redis.posts
  {
    hide Lines, Available, IsLog, BodyTotal, JobCount, Dump, RecoveryLog, HasRoom, LineFile.FirstLine,
         LineFile.Boundary, Pending;
  }

  lemma OutsideKeepsCursors(w: World, a: Action)
    requires Outside(a) && OutsideEnabled(w, a) && Trails(w) && OneAtATime(w)
    ensures KeepsCursors(w, OutsideNext(w, a)) && OutsideNext(w, a).redis.posts == w.redis.posts
  {
    hide Lines, Available, IsLog, BodyTotal, JobCount, Dump, RecoveryLog, HasRoom, LineFile.FirstLine,
         LineFile.Boundary, Pending, Trail, Follows, Stepwise, TrailOf;
  }

  lemma RecoveryKeepsCursors(w: World, a: Action)
    requires Recovery(a) && RecoveryEnabled(w, a) && Trails(w) && OneAtATime(w)
    ensures KeepsCursors(w, RecoveryNext(w, a)) && RecoveryNext(w, a).redis.posts == w.redis.posts
  {
    hide Lines, Available, IsLog, BodyTotal, JobCount, Dump, RecoveryLog, HasRoom, LineFile.FirstLine,
         LineFile.Boundary, Pending, Trail, Follows, Stepwise, TrailOf;
  }

  lemma CleanupKeepsCursors(w: World, a: Action)
    requires Cleanup(a) && CleanupEnabled(w, a) && Trails(w) && OneAtATime(w)
    ensures KeepsCursors(w, CleanupNext(w, a)) && CleanupNext(w, a).redis.posts == w.redis.posts
  {
    hide Lines, Available, IsLog, BodyTotal, JobCount, Dump, RecoveryLog, HasRoom, LineFile.FirstLine,
         LineFile.Boundary, Pending, Trail, Follows, Stepwise, TrailOf;
  }

  lemma InlineJobKeepsCursors(w: World, a: Action)
    requires InlineJob(a) && InlineJobEnabled(w, a) && Trails(w) && OneAtATime(w)
    ensures KeepsCursors(w, InlineJobNext(w, a)) && InlineJobNext(w, a).redis.posts == w.redis.posts
  {
    hide Lines, Available, IsLog, BodyTotal, JobCount, Dump, RecoveryLog, HasRoom, LineFile.FirstLine,
         LineFile.Boundary, Pending, Trail, Follows, Stepwise, TrailOf;
  }

  lemma WorkerJobKeepsCursors(w: World, a: Action)
    requires WorkerJob(a) && WorkerJobEnabled(w, a) && Trails(w) && OneAtATime(w)
    ensures KeepsCursors(w, WorkerJobNext(w, a)) && WorkerJobNext(w, a).redis.posts == w.redis.posts
  {
    hide Lines, Available, IsLog, BodyTotal, JobCount, Dump, RecoveryLog, HasRoom, LineFile.FirstLine,
         LineFile.Boundary, Pending, Trail, Follows, Stepwise, TrailOf;
  }

  // ---- Admission and delivery ----

  lemma ReceiveKeepsLogs(w: World, sid: Text, entry: Entry, decision: Decision, outcome: Publish, reply: Json)
    requires Decided(w, sid, decision) && Serving(w) && Ledger(w)
    ensures KeepsLogs(w, DoReceive(w, sid, entry, decision, outcome, reply))
  {
    hide BodyTotal, JobCount, Dump;
  }

  lemma ReceiveKeepsCursors(w: World, sid: Text, entry: Entry, decision: Decision, outcome: Publish, reply: Json)
    requires Decided(w, sid, decision) && Serving(w) && Trails(w)
    ensures KeepsCursors(w, DoReceive(w, sid, entry, decision, outcome, reply))
  {
    hide BodyTotal, JobCount, Dump, Trail, Follows, Stepwise, TrailOf;
  }

  ghost predicate Published(w: World) { Posts(w) && Trails(w) && Window(w) }

  lemma ReceivePublished(w: World, sid: Text, entry: Entry, decision: Decision, outcome: Publish, reply: Json)
    requires Decided(w, sid, decision) && Serving(w) && Ledger(w) && Published(w)
    requires decision.Reply? ==>
               reply.Obj? && Addressed(decision.id, reply.m) && (outcome != Refused ==> HasRoom(w, sid))
    ensures Published(DoReceive(w, sid, entry, decision, outcome, reply))
  {
    hide BodyTotal, JobCount, Dump, Trails, Posts, KeepsLogs, KeepsCursors;
    var v := DoReceive(w, sid, entry, decision, outcome, reply);
    ReceiveKeepsLogs(w, sid, entry, decision, outcome, reply);
    ReceiveKeepsCursors(w, sid, entry, decision, outcome, reply);
    if decision.Reply? && outcome != Refused {
      var post := Direct(decision.id, Dump(reply));
      assert GoodPost(v, sid, post);
      PostsGrow(w, v, sid, post);
      TrailsSkip(w, v, sid, post);
    } else {
      PostsStay(w, v);
      TrailsStay(w, v);
    }
    forall other: Text ensures WindowOf(v, other) {
      assert WindowOf(w, other);
    }
  }

  /** What a delivery appends is the frame at the cursor. */
  lemma DeliverPost(w: World, a: Action)
    requires a.Deliver? && DeliveryEnabled(w, a) && a.outcome != Refused && Ledger(w) && Swept(w) && Logs(w)
    ensures var key, v := a.key, DeliveryNext(w, a);
            && key in w.history.cursor && key.sid !in w.history.condemned && w.disk.jobs[key].phase == Done
            && var post := FromJob(key, w.history.cursor[key],
                                   LineFile.FirstLine(w.disk.files[key][w.disk.jobs[key].offset..]));
            && GoodPost(w, key.sid, post)
            && v.redis == w.redis.(posts := w.redis.posts[key.sid := PostsOf(w, key.sid) + [post]])
            && v.disk == w.disk && v.history == w.history
            && (v.process.control.Advancing? ==> v.process.control.key == key)
  {
    hide Dump, Lines, IsLog, LineFile.FirstLine, LineFile.Boundary;
    DeliverStep(w, a.key, a.outcome);
  }

  lemma DeliverPublished(w: World, a: Action)
    requires a.Deliver? && DeliveryEnabled(w, a) && Ledger(w) && Swept(w) && Logs(w) && Published(w)
    ensures Published(DeliveryNext(w, a))
  {
    hide Dump, Lines, IsLog, LineFile.FirstLine, LineFile.Boundary, Stepwise, Posts, Trails, GoodPost, Logs, Swept,
         Ledger, DoDeliver;
    var key, v := a.key, DeliveryNext(w, a);
    if a.outcome != Refused {
      DeliverPost(w, a);
      var post := FromJob(key, w.history.cursor[key], LineFile.FirstLine(w.disk.files[key][w.disk.jobs[key].offset..]));
      GoodPostStays(w, v, key.sid, post);
      PostsGrow(w, v, key.sid, post);
      TrailsGrow(w, v, key, post);
      forall sid: Text ensures WindowOf(v, sid) {
        assert WindowOf(w, sid);
      }
    } else {
      assert v == w by { RefusedDelivery(w, a); }
    }
  }

  lemma RefusedDelivery(w: World, a: Action)
    requires a.Deliver? && DeliveryEnabled(w, a) && a.outcome == Refused
    ensures DeliveryNext(w, a) == w
  {
  }

  lemma StepwiseAppend(t: seq<nat>, cursor: nat)
    requires Stepwise(t) && Follows(t, cursor)
    ensures Stepwise(t + [cursor])
  {
  }

  /** Publishing the frame at the cursor keeps every trail stepwise. */
  lemma TrailsGrow(w: World, v: World, key: Key, post: Post)
    requires Trails(w) && key in w.disk.jobs && w.disk.jobs[key].phase == Done && key.sid !in w.history.condemned
    requires Concerns(post, key) && post.index == w.history.cursor[key]
    requires v.redis.posts == w.redis.posts[key.sid := PostsOf(w, key.sid) + [post]]
    requires v.disk == w.disk && v.history == w.history
    requires v.process.control.Advancing? ==> v.process.control.key == key
    ensures Trails(v)
  {
    hide Stepwise, Trail;
    forall other: Key
      ensures TrailOf(v, other) == if other == key then TrailOf(w, other) + [post.index] else TrailOf(w, other)
    {
      TrailAppend(PostsOf(w, key.sid), post, other);
    }
    StepwiseAppend(TrailOf(w, key), post.index);
    forall other: Key ensures Stepwise(TrailOf(v, other)) {
      assert Stepwise(TrailOf(w, other));
    }
  }

  lemma AdvancePublished(w: World, a: Action)
    requires a.Advance? && DeliveryEnabled(w, a) && Logs(w) && Published(w)
    ensures Published(DeliveryNext(w, a))
  {
    hide Dump, Lines, IsLog, LineFile.Boundary, Stepwise, Posts, Trail;
    var v := DeliveryNext(w, a);
    assert KeepsLogs(w, v);
    PostsStay(w, v);
    forall key: Key ensures TrailOf(v, key) == TrailOf(w, key) {
    }
    forall key: Key ensures Stepwise(TrailOf(v, key)) {
      assert Stepwise(TrailOf(w, key));
    }
    forall sid: Text ensures WindowOf(v, sid) {
      assert WindowOf(w, sid);
    }
  }

  // ---- Every action ----

  lemma OutsidePublished(w: World, a: Action)
    requires Outside(a) && OutsideEnabled(w, a) && Ledger(w) && OneAtATime(w) && Published(w)
    ensures Published(OutsideNext(w, a))
  {
    hide Ledger, OneAtATime, Posts, Trails, KeepsLogs, KeepsCursors, Lines, Available, IsLog, RecoveryLog;
    var v := OutsideNext(w, a);
    OutsideKeepsLogs(w, a);
    OutsideKeepsCursors(w, a);
    PostsStay(w, v);
    TrailsStay(w, v);
    forall sid: Text ensures WindowOf(v, sid) {
      assert WindowOf(w, sid);
    }
  }

  lemma RecoveryPublished(w: World, a: Action)
    requires Recovery(a) && RecoveryEnabled(w, a) && Ledger(w) && OneAtATime(w) && Published(w)
    ensures Published(RecoveryNext(w, a))
  {
    hide Ledger, OneAtATime, Posts, Trails, KeepsLogs, KeepsCursors, Lines, Available, IsLog, RecoveryLog;
    var v := RecoveryNext(w, a);
    RecoveryKeepsLogs(w, a);
    RecoveryKeepsCursors(w, a);
    PostsStay(w, v);
    TrailsStay(w, v);
    forall sid: Text ensures WindowOf(v, sid) {
      assert WindowOf(w, sid);
    }
  }

  lemma CleanupPublished(w: World, a: Action)
    requires Cleanup(a) && CleanupEnabled(w, a) && Ledger(w) && OneAtATime(w) && Published(w)
    ensures Published(CleanupNext(w, a))
  {
    hide Ledger, OneAtATime, Posts, Trails, KeepsLogs, KeepsCursors, Lines, Available, IsLog, RecoveryLog;
    var v := CleanupNext(w, a);
    CleanupKeepsLogs(w, a);
    CleanupKeepsCursors(w, a);
    PostsStay(w, v);
    TrailsStay(w, v);
    forall sid: Text ensures WindowOf(v, sid) {
      assert WindowOf(w, sid);
    }
  }

  lemma InlineJobPublished(w: World, a: Action)
    requires InlineJob(a) && InlineJobEnabled(w, a) && Ledger(w) && OneAtATime(w) && Published(w)
    ensures Published(InlineJobNext(w, a))
  {
    hide Ledger, OneAtATime, Posts, Trails, KeepsLogs, KeepsCursors, Lines, Available, IsLog, RecoveryLog;
    var v := InlineJobNext(w, a);
    InlineJobKeepsLogs(w, a);
    InlineJobKeepsCursors(w, a);
    PostsStay(w, v);
    TrailsStay(w, v);
    forall sid: Text ensures WindowOf(v, sid) {
      assert WindowOf(w, sid);
    }
  }

  lemma WorkerJobPublished(w: World, a: Action)
    requires WorkerJob(a) && WorkerJobEnabled(w, a) && Ledger(w) && OneAtATime(w) && Published(w)
    ensures Published(WorkerJobNext(w, a))
  {
    hide Ledger, OneAtATime, Posts, Trails, KeepsLogs, KeepsCursors, Lines, Available, IsLog, RecoveryLog;
    var v := WorkerJobNext(w, a);
    WorkerJobKeepsLogs(w, a);
    WorkerJobKeepsCursors(w, a);
    PostsStay(w, v);
    TrailsStay(w, v);
    forall sid: Text ensures WindowOf(v, sid) {
      assert WindowOf(w, sid);
    }
  }

  lemma AdmissionPublished(g: Gateway, w: World, a: Action)
    requires Admission(a) && AdmissionEnabled(g, w, a) && Ledger(w) && Published(w)
    ensures Published(AdmissionNext(g, w, a))
  {
    hide Posts, Trails, DoReceive, Decide;
    var v := AdmissionNext(g, w, a);
    if a.Receive? {
      var entry := RequestsOf(w, a.sid)[0];
      DecideFacts(g, w, a.sid, entry.body);
      ReceivePublished(w, a.sid, entry, Decide(g, w, a.sid, entry.body), a.outcome, a.reply);
    } else {
      RegisterKeeps(g, w, a);
      PostsStay(w, v);
      TrailsStay(w, v);
      forall sid: Text ensures WindowOf(v, sid) {
        assert WindowOf(w, sid);
      }
    }
  }

  lemma RegisterKeeps(g: Gateway, w: World, a: Action)
    requires (a.Register? || a.Remove?) && AdmissionEnabled(g, w, a) && Trails(w)
    ensures KeepsLogs(w, AdmissionNext(g, w, a)) && KeepsCursors(w, AdmissionNext(g, w, a))
  {
    hide DoReceive, Decide, Trail, Stepwise, Follows;
  }
}
