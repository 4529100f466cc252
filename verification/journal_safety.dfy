/** What holds in every world a run can reach, whatever the clients, the worker, Redis and
    the crashes do. */
module JournalSafety {
  import opened Text
  import opened JsonText
  import opened Frames
  import opened Journal
  import opened JournalRuns
  import opened JournalLogs
  import opened JournalPosts
  import opened JournalRequests
  import opened JournalAnswers
  import opened JournalBudget
  import LineFile

  ghost predicate OneRunning(w: World) { forall k, l :: IsRunning(w, k) && IsRunning(w, l) ==> k == l }

  lemma OneRunningReceive(w: World, sid: Text, entry: Entry, decision: Decision, outcome: Publish, reply: Json)
    requires Decided(w, sid, decision) && Serving(w) && OneRunning(w) && OneAtATime(w)
    requires decision.Reply? ==> reply.Obj? && Addressed(decision.id, reply.m)
    ensures OneRunning(DoReceive(w, sid, entry, decision, outcome, reply))
  {
    hide Lines, Available, IsLog, BodyTotal, JobCount, Dump, Decide, RecoveryLog, HasRoom, LineFile.FirstLine,
         LineFile.Boundary, Pending;
  }

  lemma OneRunningOutside(w: World, a: Action)
    requires Outside(a) && OutsideEnabled(w, a) && OneRunning(w) && OneAtATime(w)
    ensures OneRunning(OutsideNext(w, a))
  {
    hide Lines, Available, IsLog, BodyTotal, JobCount, Dump, Decide, RecoveryLog, HasRoom, LineFile.FirstLine,
         LineFile.Boundary, Pending;
    assert forall k :: IsRunning(OutsideNext(w, a), k) ==> IsRunning(w, k);
  }

  lemma OneRunningRecovery(w: World, a: Action)
    requires Recovery(a) && RecoveryEnabled(w, a) && OneRunning(w) && OneAtATime(w)
    ensures OneRunning(RecoveryNext(w, a))
  {
    hide Lines, Available, IsLog, BodyTotal, JobCount, Dump, Decide, RecoveryLog, HasRoom, LineFile.FirstLine,
         LineFile.Boundary, Pending;
    assert forall k :: IsRunning(RecoveryNext(w, a), k) ==> IsRunning(w, k);
  }

  lemma OneRunningCleanup(w: World, a: Action)
    requires Cleanup(a) && CleanupEnabled(w, a) && OneRunning(w) && OneAtATime(w)
    ensures OneRunning(CleanupNext(w, a))
  {
    hide Lines, Available, IsLog, BodyTotal, JobCount, Dump, Decide, RecoveryLog, HasRoom, LineFile.FirstLine,
         LineFile.Boundary, Pending;
    assert forall k :: IsRunning(CleanupNext(w, a), k) ==> IsRunning(w, k);
  }

  lemma OneRunningAdmission(g: Gateway, w: World, a: Action)
    requires Admission(a) && AdmissionEnabled(g, w, a) && OneRunning(w) && OneAtATime(w)
    ensures OneRunning(AdmissionNext(g, w, a))
  {
    hide Lines, Available, IsLog, BodyTotal, JobCount, Dump, Decide, RecoveryLog, HasRoom, LineFile.FirstLine,
         LineFile.Boundary, Pending, DoReceive;
    if a.Receive? {
      var entry := RequestsOf(w, a.sid)[0];
      DecideFacts(g, w, a.sid, entry.body);
      OneRunningReceive(w, a.sid, entry, Decide(g, w, a.sid, entry.body), a.outcome, a.reply);
    }
  }

  lemma OneRunningInlineJob(w: World, a: Action)
    requires InlineJob(a) && InlineJobEnabled(w, a) && OneRunning(w) && OneAtATime(w)
    ensures OneRunning(InlineJobNext(w, a))
  {
    hide Lines, Available, IsLog, BodyTotal, JobCount, Dump, Decide, RecoveryLog, HasRoom, LineFile.FirstLine,
         LineFile.Boundary, Pending;
  }

  lemma OneRunningWorkerJob(w: World, a: Action)
    requires WorkerJob(a) && WorkerJobEnabled(w, a) && OneRunning(w) && OneAtATime(w)
    ensures OneRunning(WorkerJobNext(w, a))
  {
    hide Lines, Available, IsLog, BodyTotal, JobCount, Dump, Decide, RecoveryLog, HasRoom, LineFile.FirstLine,
         LineFile.Boundary, Pending;
    assert forall k :: IsRunning(WorkerJobNext(w, a), k) ==> IsRunning(w, k);
  }

  lemma OneRunningDelivery(w: World, a: Action)
    requires Delivery(a) && DeliveryEnabled(w, a) && OneRunning(w) && OneAtATime(w)
    ensures OneRunning(DeliveryNext(w, a))
  {
    hide Lines, Available, IsLog, BodyTotal, JobCount, Dump, Decide, RecoveryLog, HasRoom, LineFile.FirstLine,
         LineFile.Boundary;
    assert forall k :: IsRunning(DeliveryNext(w, a), k) ==> IsRunning(w, k);
  }

  lemma OneRunningKept(g: Gateway, w: World, a: Action)
    requires Enabled(g, w, a) && OneRunning(w) && OneAtATime(w)
    ensures OneRunning(Next(g, w, a))
  {
    hide OneRunning;
    hide OutsideNext, RecoveryNext, CleanupNext, AdmissionNext, InlineJobNext, WorkerJobNext, DeliveryNext;
    hide OutsideEnabled, RecoveryEnabled, CleanupEnabled, AdmissionEnabled, InlineJobEnabled, WorkerJobEnabled,
         DeliveryEnabled;
    if Outside(a) {
      OneRunningOutside(w, a);
    } else if Recovery(a) {
      OneRunningRecovery(w, a);
    } else if Cleanup(a) {
      OneRunningCleanup(w, a);
    } else if Admission(a) {
      OneRunningAdmission(g, w, a);
    } else if InlineJob(a) {
      OneRunningInlineJob(w, a);
    } else if WorkerJob(a) {
      OneRunningWorkerJob(w, a);
    } else {
      OneRunningDelivery(w, a);
    }
  }

  lemma PublishedKept(g: Gateway, w: World, a: Action)
    requires Enabled(g, w, a) && Ledger(w) && OneAtATime(w) && Swept(w) && Logs(w) && Published(w)
    ensures Published(Next(g, w, a))
  {
    hide Ledger, OneAtATime, Swept, Logs, Published;
    hide OutsideNext, RecoveryNext, CleanupNext, AdmissionNext, InlineJobNext, WorkerJobNext, DeliveryNext;
    hide OutsideEnabled, RecoveryEnabled, CleanupEnabled, AdmissionEnabled, InlineJobEnabled, WorkerJobEnabled,
         DeliveryEnabled;
    if Outside(a) {
      OutsidePublished(w, a);
    } else if Recovery(a) {
      RecoveryPublished(w, a);
    } else if Cleanup(a) {
      CleanupPublished(w, a);
    } else if Admission(a) {
      AdmissionPublished(g, w, a);
    } else if InlineJob(a) {
      InlineJobPublished(w, a);
    } else if WorkerJob(a) {
      WorkerJobPublished(w, a);
    } else if a.Deliver? {
      DeliverPublished(w, a);
    } else {
      AdvancePublished(w, a);
    }
  }

  // ---- Every reachable world ----

  ghost predicate Safe(g: Gateway, w: World) {
    && Ledger(w) && OneAtATime(w) && OneRunning(w) && RunOnce(w) && InOrder(w)
    && Swept(w) && Logs(w) && Published(w) && Conserved(g, w) && Answers(w)
    && (Lawful(g) ==> Budget(w))
  }

  lemma StepSafe(g: Gateway, w: World, a: Action)
    requires Safe(g, w)
    ensures Safe(g, Step(g, w, a)) && Grows(w, Step(g, w, a))
  {
    hide Ledger, OneAtATime, OneRunning, RunOnce, InOrder, Swept, Logs, Published, Conserved, Answers, Budget, Lawful;
    hide Next, Enabled;
    if Enabled(g, w, a) {
      LedgerKept(g, w, a);
      OneAtATimeKept(g, w, a);
      OneRunningKept(g, w, a);
      RunOnceKept(g, w, a);
      InOrderKept(g, w, a);
      SweptKept(g, w, a);
      LogsKept(g, w, a);
      PublishedKept(g, w, a);
      ConservedKept(g, w, a);
      AnswersKept(g, w, a);
      if Lawful(g) {
        BudgetKept(g, w, a);
      }
    }
  }

  lemma NothingSafe(g: Gateway)
    ensures Safe(g, NOTHING)
  {
    hide Lawful, Published, Budget;
    NothingPublished();
    NothingRetained();
  }

  lemma NothingPublished()
    ensures Published(NOTHING)
  {
    forall key: Key ensures TrailOf(NOTHING, key) == [] {
      assert PostsOf(NOTHING, key.sid) == [];
    }
  }

  lemma NothingRetained()
    ensures Budget(NOTHING)
  {
    forall sid ensures JobCount(NOTHING.disk.jobs, sid) == 0 && LargeOf(NOTHING.disk.jobs, sid) == 0 {
      assert Own(NOTHING.disk.jobs, sid) == {};
      assert JobCount(NOTHING.disk.jobs, sid) == |Own(NOTHING.disk.jobs, sid)|;
    }
  }

  lemma {:induction false} AlwaysSafe(g: Gateway, actions: seq<Action>)
    ensures Safe(g, After(g, actions))
    decreases |actions|
  {
    hide Safe, Step;
    if actions == [] {
      NothingSafe(g);
    } else {
      AlwaysSafe(g, actions[..|actions| - 1]);
      StepSafe(g, After(g, actions[..|actions| - 1]), actions[|actions| - 1]);
    }
  }

  // ---- The promises ----

  /** Each id of a session is executed at most once, with its first accepted body, in
      journal order, one at a time. */
  lemma AtMostOnce(g: Gateway, actions: seq<Action>)
    ensures var w := After(g, actions);
            && (forall i, j :: 0 <= i < j < |w.history.runs| ==> w.history.runs[i].key != w.history.runs[j].key)
            && (forall i :: 0 <= i < |w.history.runs| ==>
                  w.history.runs[i].key in w.history.accepted
                    && w.history.runs[i].body == w.history.accepted[w.history.runs[i].key])
            && (forall i, j :: 0 <= i < j < |w.history.starts| ==> w.history.starts[i] < w.history.starts[j])
            && (forall k, l :: IsRunning(w, k) && IsRunning(w, l) ==> k == l)
  {
    hide After, Ledger, OneAtATime, Swept, Logs, Published, Conserved, Answers, Budget, Lawful;
    AlwaysSafe(g, actions);
  }

  /** What was accepted, executed or published at any moment is part of every later one. */
  lemma {:induction false} HistoryGrows(g: Gateway, actions: seq<Action>, n: nat)
    requires n <= |actions|
    ensures Grows(After(g, actions[..n]), After(g, actions))
    decreases |actions|
  {
    hide Step, Safe;
    if n < |actions| {
      var before := actions[..|actions| - 1];
      HistoryGrows(g, before, n);
      assert before[..n] == actions[..n];
      AlwaysSafe(g, before);
      StepSafe(g, After(g, before), actions[|actions| - 1]);
      GrowsOn(After(g, actions[..n]), After(g, before), After(g, actions));
    } else {
      assert actions[..n] == actions;
    }
  }

  lemma GrowsOn(u: World, v: World, w: World)
    requires Grows(u, v) && Grows(v, w)
    ensures Grows(u, w)
  {
    hide PostsOf;
    forall sid ensures PostsOf(u, sid) <= PostsOf(w, sid) {
      assert PostsOf(v, sid) <= PostsOf(w, sid);
    }
  }

  /** The lease of the session has run out, and the gateway is deleting its files, or is
      down, or has not cleaned up since it started after that. */
  predicate Exposed(w: World, sid: Text)
    requires sid in w.disk.sessions
  {
    && w.disk.sessions[sid] <= w.now
    && (w.process.control == Cleaning(sid)
        || (!w.process.swept && (w.process.control == Down || w.disk.sessions[sid] <= w.process.booted)))
  }

  /** A finished job holds one complete log on disk, never part of one, it is to be read
      on from a frame boundary, and the log is the answer of its execution, of a refusal
      that executed nothing, or the notice after a crash. That is so while its lease lasts
      and whenever the gateway serves. */
  lemma FinishedJobs(g: Gateway, actions: seq<Action>, key: Key)
    requires var w := After(g, actions);
             && key in w.disk.jobs && w.disk.jobs[key].phase == Done
             && (key.sid in w.disk.sessions ==> !Exposed(w, key.sid))
    ensures var w := After(g, actions);
            && key.sid in w.disk.sessions && GoodJob(w, key) && Answer(w, key)
            && 0 <= w.disk.jobs[key].offset <= w.disk.jobs[key].size == |w.disk.files[key]|
            && (w.disk.jobs[key].offset < w.disk.jobs[key].size <==> w.history.cursor[key] < |w.history.content[key]|)
  {
    hide After, OneAtATime, Published, Conserved, Budget, Lawful, IsLog, LineFile.Boundary, Lines;
    AlwaysSafe(g, actions);
    var w := After(g, actions);
    assert key.sid !in w.history.condemned;
    assert GoodJob(w, key);
    LineFile.BoundaryBelowEnd(w.history.content[key], w.history.cursor[key]);
  }

  /** In particular while the gateway serves, and until the lease runs out. */
  lemma ServedJobs(w: World, sid: Text)
    requires sid in w.disk.sessions && (w.disk.sessions[sid] > w.now || Serving(w))
    ensures !Exposed(w, sid)
  {
  }

  /** Of any job's frames the stream shows the first one first, then each time the next
      one, the same one or the first one again, with the recorded contents; and never
      more than 32 entries wait. */
  lemma FramesInStep(g: Gateway, actions: seq<Action>, key: Key)
    ensures var w := After(g, actions);
            && Stepwise(TrailOf(w, key)) && WindowOf(w, key.sid)
            && forall i :: 0 <= i < |PostsOf(w, key.sid)| ==> GoodPost(w, key.sid, PostsOf(w, key.sid)[i])
  {
    hide After, Ledger, OneAtATime, Swept, Logs, Conserved, Answers, Budget, Lawful, GoodPost, Stepwise, WindowOf;
    AlwaysSafe(g, actions);
  }

  /** A serving gateway never meets the conditions that stop it: the file of a job to be
      delivered has a line at the offset, and that of a job to be marked done is there. */
  lemma NeverUnreadable(g: Gateway, actions: seq<Action>, key: Key)
    ensures var w := After(g, actions);
            && (Serving(w) && key.sid in w.disk.sessions && Pending(w, key) ==>
                  key in w.disk.files && w.disk.jobs[key].offset < |w.disk.files[key]|)
            && (w.process.control == Marking(key) ==> key in w.disk.jobs && key in w.disk.files)
            && (w.process.worker.Ready? ==> w.process.worker.key in w.disk.jobs && w.process.worker.key in w.disk.files)
  {
    hide After, Ledger, RunOnce, InOrder, Published, Conserved, Answers, Budget, Lawful, IsLog, LineFile.Boundary,
         Lines;
    AlwaysSafe(g, actions);
  }

  /** A request that left its stream was journaled under its id with this body, or was a
      replay of a request retained then, or was replied to; unless its session was cleaned
      up or the stream as a whole outlived its deadline. */
  lemma NoRequestLost(g: Gateway, actions: seq<Action>, n: nat, sid: Text, entry: Entry)
    requires n < |actions|
    requires var w, v := After(g, actions[..n]), After(g, actions[..n + 1]);
             entry in RequestsOf(w, sid) && entry !in RequestsOf(v, sid)
    ensures var w := After(g, actions[..n]);
            || (actions[n].CleanStreams? && w.process.control == Cleaning(sid))
            || Lapses(w, actions[n], sid)
            || exists d :: d in After(g, actions).history.departures && d.sid == sid && d.entry == entry
                           && Justified(g, After(g, actions), sid, entry, d.reason)
  {
    hide Ledger, OneAtATime, OneRunning, RunOnce, InOrder, Swept, Logs, Published, Answers, Budget, Lawful, Justified,
         Enabled, Next, RequestsOf;
    var w, v, end := After(g, actions[..n]), After(g, actions[..n + 1]), After(g, actions);
    assert actions[..n + 1][..n] == actions[..n];
    assert v == Step(g, w, actions[n]);
    AlwaysSafe(g, actions[..n]);
    LeavesOnlyByRemoval(g, w, actions[n], sid, entry);
    if !actions[n].CleanStreams? && !actions[n].Lapse? {
      AlwaysSafe(g, actions);
      HistoryGrows(g, actions, n + 1);
      var d := v.history.departures[|v.history.departures| - 1];
      assert d == end.history.departures[|v.history.departures| - 1];
      assert d in end.history.departures;
    }
  }

  /** Retained responses never exceed 256 MiB, 64 MiB a session, and 4 KiB a job, nor
      retained requests 16 Mi characters and 128 a session. */
  lemma BudgetsHold(g: Gateway, actions: seq<Action>, sid: Text)
    requires Lawful(g)
    ensures var w := After(g, actions);
            && SizeTotal(w.disk.jobs) <= TOTAL_BYTES + SMALL_REPLY * |w.disk.jobs|
            && SessionSize(w.disk.jobs, sid) <= SESSION_BYTES + SMALL_REPLY * JobCount(w.disk.jobs, sid)
            && BodyTotal(w.disk.jobs) <= RETAINED_BODIES && JobCount(w.disk.jobs, sid) <= JOBS_PER_SESSION
            && |w.disk.sessions| <= MAX_SESSIONS && |w.disk.jobs| <= MAX_SESSIONS * JOBS_PER_SESSION
  {
    hide After, Ledger, OneAtATime, OneRunning, RunOnce, InOrder, Swept, Logs, Published, Conserved, Answers, Lawful,
         SizeTotal, SessionSize, BodyTotal;
    AlwaysSafe(g, actions);
    RetainedBytes(After(g, actions), sid);
  }
}
