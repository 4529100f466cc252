/** Finished jobs: complete logs, offsets on frame boundaries, contents that never change. */
module JournalLogs {
  import opened Text
  import opened JsonText
  import opened Frames
  import opened Journal
  import opened JournalRuns
  import LineFile

  /** A session is condemned when its clean-up starts. From then until its row is gone
      the gateway is either at it, or was stopped and has not cleaned up since. */
  ghost predicate Swept(w: World) {
    && (forall sid :: sid in w.history.condemned && sid in w.disk.sessions ==>
          || w.process.control == Cleaning(sid)
          || (!w.process.swept && w.disk.sessions[sid] <= w.now
              && (w.process.control == Down || w.disk.sessions[sid] <= w.process.booted)))
    && (w.process.control != Down ==> w.process.booted <= w.now)
    && (w.process.control.Cleaning? ==>
          && w.process.control.sid in w.history.condemned && w.process.control.sid in w.disk.sessions
          && w.disk.sessions[w.process.control.sid] <= w.now)
    && (w.process.swept ==> !Stopped(w))
    && (w.process.control.Removing? || w.process.control.Starting? || w.process.control.Marking? ==> w.process.swept)
    && (w.process.control.Advancing? || w.process.worker != Free ==> w.process.swept)
    && w.history.condemned <= w.history.registered
  }

  /** The file of a job holds the log recorded for it. */
  ghost predicate HoldsLog(w: World, key: Key) {
    && key in w.disk.files && key in w.history.content
    && w.disk.files[key] == Lines(w.history.content[key]) && IsLog(key.id, w.history.content[key])
  }

  ghost predicate GoodJob(w: World, key: Key)
    requires key in w.disk.jobs
  {
    && HoldsLog(w, key) && key in w.history.cursor
    && w.disk.jobs[key].size == |w.disk.files[key]|
    && w.history.cursor[key] <= |w.history.content[key]|
    && w.disk.jobs[key].offset == LineFile.Boundary(w.history.content[key], w.history.cursor[key])
  }

  /** Every done job of a session not being cleaned up has its whole log on disk, its
      size recorded, and an offset at which a frame starts or the file ends. */
  ghost predicate Logs(w: World) {
    && (forall k :: k in w.disk.jobs && w.disk.jobs[k].phase == Done && k.sid !in w.history.condemned ==> GoodJob(w, k))
    && (w.process.control.Marking? ==> HoldsLog(w, w.process.control.key))
    && (w.process.worker.Ready? ==> HoldsLog(w, w.process.worker.key))
    && (w.process.control.Rewriting? || w.process.control.Remarking? ==>
          var key := w.process.control.key;
          && key in w.disk.jobs && w.disk.jobs[key].phase != Queued
          && (w.disk.jobs[key].phase == Done ==> key.sid in w.history.condemned)
          && (w.process.control.Remarking? && w.disk.jobs[key].phase == Running ==> HoldsLog(w, key)))
    && (w.process.control.Advancing? ==> NextIsBoundary(w, w.process.control.key, w.process.control.next))
  }

  /** The frame just published starts at the offset, and `next` is where the one after it starts. */
  ghost predicate NextIsBoundary(w: World, key: Key, next: nat) {
    && key in w.disk.jobs && w.disk.jobs[key].phase == Done && key.sid !in w.history.condemned
    && GoodJob(w, key) && w.history.cursor[key] < |w.history.content[key]|
    && next == LineFile.Boundary(w.history.content[key], w.history.cursor[key] + 1)
  }

  lemma RecoveryIsLog(id: Text)
    ensures IsLog(id, RecoveryLog(id))
  {
    hide Ascii;
    NamesDiffer();
  }

  lemma ZeroBoundary(frames: seq<Json>)
    ensures LineFile.Boundary(frames, 0) == 0
  {
    hide Dump;
    assert frames[..0] == [];
  }

  /** Marking a job done makes it good from the start of its log. */
  lemma MarkDoneGood(w: World, key: Key)
    requires key in w.disk.jobs && HoldsLog(w, key)
    ensures GoodJob(MarkDone(w, key), key)
  {
    hide Lines, IsLog;
    ZeroBoundary(w.history.content[key]);
  }

  /** Delivery reads one whole frame, and the next offset is where the next one starts. */
  lemma DeliverStep(w: World, key: Key, outcome: Publish)
    requires key in w.disk.jobs && w.disk.jobs[key].phase == Done && key.sid !in w.history.condemned
    requires GoodJob(w, key) && w.disk.jobs[key].offset < w.disk.jobs[key].size
    ensures w.history.cursor[key] < |w.history.content[key]|
    ensures LineFile.FirstLine(w.disk.files[key][w.disk.jobs[key].offset..])
         == Dump(w.history.content[key][w.history.cursor[key]])
    ensures outcome == Acked ==>
              && DoDeliver(w, key, outcome).process.control.Advancing?
              && NextIsBoundary(w, key, DoDeliver(w, key, outcome).process.control.next)
  {
    hide Lines, IsLog, Dump;
    var frames, n := w.history.content[key], w.history.cursor[key];
    LineFile.BoundaryBelowEnd(frames, n);
    LineFile.LineAtBoundary(frames, n);
  }

  lemma SweptReceive(w: World, sid: Text, entry: Entry, decision: Decision, outcome: Publish, reply: Json)
    requires Decided(w, sid, decision) && Serving(w) && Swept(w) && Ledger(w)
    requires decision.Reply? ==> reply.Obj? && Addressed(decision.id, reply.m)
    ensures Swept(DoReceive(w, sid, entry, decision, outcome, reply))
  {
    hide Lines, Available, IsLog, BodyTotal, JobCount, Dump, Decide, RecoveryLog, HasRoom, LineFile.FirstLine,
         LineFile.Boundary, Pending;
  }

  lemma SweptOutside(w: World, a: Action)
    requires Outside(a) && OutsideEnabled(w, a) && Swept(w) && Ledger(w)
    ensures Swept(OutsideNext(w, a))
  {
    hide Lines, Available, IsLog, BodyTotal, JobCount, Dump, Decide, RecoveryLog, HasRoom, LineFile.FirstLine,
         LineFile.Boundary, Pending;
  }

  lemma SweptRecovery(w: World, a: Action)
    requires Recovery(a) && RecoveryEnabled(w, a) && Swept(w) && Ledger(w)
    ensures Swept(RecoveryNext(w, a))
  {
    hide Lines, Available, IsLog, BodyTotal, JobCount, Dump, Decide, RecoveryLog, HasRoom, LineFile.FirstLine,
         LineFile.Boundary, Pending;
  }

  lemma SweptCleanup(w: World, a: Action)
    requires Cleanup(a) && CleanupEnabled(w, a) && Swept(w) && Ledger(w)
    ensures Swept(CleanupNext(w, a))
  {
    hide Lines, Available, IsLog, BodyTotal, JobCount, Dump, Decide, RecoveryLog, HasRoom, LineFile.FirstLine,
         LineFile.Boundary, Pending;
  }

  lemma SweptAdmission(g: Gateway, w: World, a: Action)
    requires Admission(a) && AdmissionEnabled(g, w, a) && Swept(w) && Ledger(w)
    ensures Swept(AdmissionNext(g, w, a))
  {
    hide Lines, Available, IsLog, BodyTotal, JobCount, Dump, Decide, RecoveryLog, HasRoom, LineFile.FirstLine,
         LineFile.Boundary, Pending, DoReceive;
    if a.Receive? {
      var entry := RequestsOf(w, a.sid)[0];
      DecideFacts(g, w, a.sid, entry.body);
      SweptReceive(w, a.sid, entry, Decide(g, w, a.sid, entry.body), a.outcome, a.reply);
    }
  }

  lemma SweptStart(w: World, a: Action)
    requires a.Start? && InlineJobEnabled(w, a) && Swept(w) && Ledger(w)
    ensures Swept(InlineJobNext(w, a))
  {
    hide Lines, Available, IsLog, BodyTotal, JobCount, Dump, Decide, RecoveryLog, HasRoom, LineFile.FirstLine,
         LineFile.Boundary, Pending;
  }

  lemma SweptTear(w: World, a: Action)
    requires a.Tear? && InlineJobEnabled(w, a) && Swept(w) && Ledger(w)
    ensures Swept(InlineJobNext(w, a))
  {
    hide Lines, Available, IsLog, BodyTotal, JobCount, Dump, Decide, RecoveryLog, HasRoom, LineFile.FirstLine,
         LineFile.Boundary, Pending;
  }

  lemma SweptRunInline(w: World, a: Action)
    requires a.RunInline? && InlineJobEnabled(w, a) && Swept(w) && Ledger(w)
    ensures Swept(InlineJobNext(w, a))
  {
    hide Lines, Available, IsLog, BodyTotal, JobCount, Dump, Decide, RecoveryLog, HasRoom, LineFile.FirstLine,
         LineFile.Boundary, Pending;
  }

  lemma SweptSpoolInline(w: World, a: Action)
    requires a.SpoolInline? && InlineJobEnabled(w, a) && Swept(w) && Ledger(w)
    ensures Swept(InlineJobNext(w, a))
  {
    hide Lines, Available, IsLog, BodyTotal, JobCount, Dump, Decide, RecoveryLog, HasRoom, LineFile.FirstLine,
         LineFile.Boundary, Pending;
  }

  lemma SweptMark(w: World, a: Action)
    requires a.Mark? && InlineJobEnabled(w, a) && Swept(w) && Ledger(w)
    ensures Swept(InlineJobNext(w, a))
  {
    hide Lines, Available, IsLog, BodyTotal, JobCount, Dump, Decide, RecoveryLog, HasRoom, LineFile.FirstLine,
         LineFile.Boundary, Pending;
  }

  lemma SweptInlineJob(w: World, a: Action)
    requires InlineJob(a) && InlineJobEnabled(w, a) && Swept(w) && Ledger(w)
    ensures Swept(InlineJobNext(w, a))
  {
    hide InlineJobNext, InlineJobEnabled, Swept;
    if a.Start? {
      SweptStart(w, a);
    } else if a.Tear? {
      SweptTear(w, a);
    } else if a.RunInline? {
      SweptRunInline(w, a);
    } else if a.SpoolInline? {
      SweptSpoolInline(w, a);
    } else {
      SweptMark(w, a);
    }
  }

  lemma SweptWorkerJob(w: World, a: Action)
    requires WorkerJob(a) && WorkerJobEnabled(w, a) && Swept(w) && Ledger(w)
    ensures Swept(WorkerJobNext(w, a))
  {
    hide Lines, Available, IsLog, BodyTotal, JobCount, Dump, Decide, RecoveryLog, HasRoom, LineFile.FirstLine,
         LineFile.Boundary, Pending;
  }

  lemma SweptDelivery(w: World, a: Action)
    requires Delivery(a) && DeliveryEnabled(w, a) && Swept(w) && Ledger(w)
    ensures Swept(DeliveryNext(w, a))
  {
    hide Lines, Available, IsLog, BodyTotal, JobCount, Dump, Decide, RecoveryLog, HasRoom, LineFile.FirstLine,
         LineFile.Boundary;
  }

  lemma SweptKept(g: Gateway, w: World, a: Action)
    requires Enabled(g, w, a) && Swept(w) && Ledger(w)
    ensures Swept(Next(g, w, a))
  {
    hide Swept, Logs;
    hide OutsideNext, RecoveryNext, CleanupNext, AdmissionNext, InlineJobNext, WorkerJobNext, DeliveryNext;
    hide OutsideEnabled, RecoveryEnabled, CleanupEnabled, AdmissionEnabled, InlineJobEnabled, WorkerJobEnabled,
         DeliveryEnabled;
    if Outside(a) {
      SweptOutside(w, a);
    } else if Recovery(a) {
      SweptRecovery(w, a);
    } else if Cleanup(a) {
      SweptCleanup(w, a);
    } else if Admission(a) {
      SweptAdmission(g, w, a);
    } else if InlineJob(a) {
      SweptInlineJob(w, a);
    } else if WorkerJob(a) {
      SweptWorkerJob(w, a);
    } else {
      SweptDelivery(w, a);
    }
  }

  lemma LogsRewind(w: World, sid: Text, entry: Entry, decision: Decision, outcome: Publish, reply: Json)
    requires decision.Rewind? && Decided(w, sid, decision) && Serving(w) && Logs(w) && Swept(w) && OneAtATime(w)
    requires Ledger(w)
    ensures Logs(DoReceive(w, sid, entry, decision, outcome, reply))
  {
    hide Lines, Available, IsLog, BodyTotal, JobCount, Dump, Decide, RecoveryLog, HasRoom, LineFile.FirstLine,
         LineFile.Boundary, Pending;
    if decision.key in w.history.content {
      ZeroBoundary(w.history.content[decision.key]);
    }
  }

  lemma LogsInsert(w: World, sid: Text, entry: Entry, decision: Decision, outcome: Publish, reply: Json)
    requires decision.Insert? && Decided(w, sid, decision) && Serving(w) && Logs(w) && Swept(w) && OneAtATime(w)
    requires Ledger(w)
    ensures Logs(DoReceive(w, sid, entry, decision, outcome, reply))
  {
    hide Lines, Available, IsLog, BodyTotal, JobCount, Dump, Decide, RecoveryLog, HasRoom, LineFile.FirstLine,
         LineFile.Boundary, Pending;
  }

  lemma LogsReceive(w: World, sid: Text, entry: Entry, decision: Decision, outcome: Publish, reply: Json)
    requires Decided(w, sid, decision) && Serving(w) && Logs(w) && Swept(w) && OneAtATime(w) && Ledger(w)
    ensures Logs(DoReceive(w, sid, entry, decision, outcome, reply))
  {
    if decision.Rewind? {
      LogsRewind(w, sid, entry, decision, outcome, reply);
    } else if decision.Insert? {
      LogsInsert(w, sid, entry, decision, outcome, reply);
    } else {
      hide Lines, Available, IsLog, BodyTotal, JobCount, Dump, Decide, RecoveryLog, HasRoom, LineFile.FirstLine,
           LineFile.Boundary, Pending;
    }
  }

  lemma LogsOutside(w: World, a: Action)
    requires Outside(a) && OutsideEnabled(w, a) && Logs(w) && Swept(w) && OneAtATime(w) && Ledger(w)
    ensures Logs(OutsideNext(w, a))
  {
    hide Lines, Available, IsLog, BodyTotal, JobCount, Dump, Decide, RecoveryLog, HasRoom, LineFile.FirstLine,
         LineFile.Boundary, Pending;
  }

  lemma LogsRecoverOpen(w: World, a: Action)
    requires a.RecoverOpen? && RecoveryEnabled(w, a) && Logs(w) && Swept(w) && OneAtATime(w) && Ledger(w)
    ensures Logs(RecoveryNext(w, a))
  {
    hide Lines, Available, IsLog, BodyTotal, JobCount, Dump, Decide, RecoveryLog, HasRoom, LineFile.FirstLine,
         LineFile.Boundary, Pending;
  }

  lemma LogsRecoverWrite(w: World, a: Action)
    requires a.RecoverWrite? && RecoveryEnabled(w, a) && Logs(w) && Swept(w) && OneAtATime(w) && Ledger(w)
    ensures Logs(RecoveryNext(w, a))
  {
    hide Lines, Available, IsLog, BodyTotal, JobCount, Dump, Decide, RecoveryLog, HasRoom, LineFile.FirstLine,
         LineFile.Boundary, Pending;
    RecoveryIsLog(w.process.control.key.id);
  }

  lemma LogsRecoverMark(w: World, a: Action)
    requires a.RecoverMark? && RecoveryEnabled(w, a) && Logs(w) && Swept(w) && OneAtATime(w) && Ledger(w)
    ensures Logs(RecoveryNext(w, a))
  {
    hide Lines, Available, IsLog, BodyTotal, JobCount, Dump, Decide, RecoveryLog, HasRoom, LineFile.FirstLine,
         LineFile.Boundary, Pending;
    if HoldsLog(w, w.process.control.key) {
      MarkDoneGood(w, w.process.control.key);
    }
  }

  lemma LogsRecoverEnd(w: World, a: Action)
    requires a.RecoverEnd? && RecoveryEnabled(w, a) && Logs(w) && Swept(w) && OneAtATime(w) && Ledger(w)
    ensures Logs(RecoveryNext(w, a))
  {
    hide Lines, Available, IsLog, BodyTotal, JobCount, Dump, Decide, RecoveryLog, HasRoom, LineFile.FirstLine,
         LineFile.Boundary, Pending;
  }

  lemma LogsSweepEnd(w: World, a: Action)
    requires a.SweepEnd? && RecoveryEnabled(w, a) && Logs(w) && Swept(w) && OneAtATime(w) && Ledger(w)
    ensures Logs(RecoveryNext(w, a))
  {
    hide Lines, Available, IsLog, BodyTotal, JobCount, Dump, Decide, RecoveryLog, HasRoom, LineFile.FirstLine,
         LineFile.Boundary, Pending;
  }

  lemma LogsRecovery(w: World, a: Action)
    requires Recovery(a) && RecoveryEnabled(w, a) && Logs(w) && Swept(w) && OneAtATime(w) && Ledger(w)
    ensures Logs(RecoveryNext(w, a))
  {
    hide RecoveryNext, RecoveryEnabled, Logs;
    if a.RecoverOpen? {
      LogsRecoverOpen(w, a);
    } else if a.RecoverWrite? {
      LogsRecoverWrite(w, a);
    } else if a.RecoverMark? {
      LogsRecoverMark(w, a);
    } else if a.RecoverEnd? {
      LogsRecoverEnd(w, a);
    } else {
      LogsSweepEnd(w, a);
    }
  }

  lemma LogsBegin(w: World, a: Action)
    requires a.CleanBegin? && CleanupEnabled(w, a) && Logs(w) && Swept(w) && OneAtATime(w) && Ledger(w)
    ensures Logs(CleanupNext(w, a))
  {
    hide Lines, Available, IsLog, BodyTotal, JobCount, Dump, Decide, RecoveryLog, HasRoom, LineFile.FirstLine,
         LineFile.Boundary, Pending;
  }

  lemma LogsUnlink(w: World, a: Action)
    requires a.CleanUnlink? && CleanupEnabled(w, a) && Logs(w) && Swept(w) && OneAtATime(w) && Ledger(w)
    ensures Logs(CleanupNext(w, a))
  {
    hide Lines, Available, IsLog, BodyTotal, JobCount, Dump, Decide, RecoveryLog, HasRoom, LineFile.FirstLine,
         LineFile.Boundary, Pending;
  }

  lemma LogsStreams(w: World, a: Action)
    requires a.CleanStreams? && CleanupEnabled(w, a) && Logs(w) && Swept(w) && OneAtATime(w) && Ledger(w)
    ensures Logs(CleanupNext(w, a))
  {
    hide Lines, Available, IsLog, BodyTotal, JobCount, Dump, Decide, RecoveryLog, HasRoom, LineFile.FirstLine,
         LineFile.Boundary, Pending;
  }

  lemma LogsEnd(w: World, a: Action)
    requires a.CleanEnd? && CleanupEnabled(w, a) && Logs(w) && Swept(w) && OneAtATime(w) && Ledger(w)
    ensures Logs(CleanupNext(w, a))
  {
    hide Lines, Available, IsLog, BodyTotal, JobCount, Dump, Decide, RecoveryLog, HasRoom, LineFile.FirstLine,
         LineFile.Boundary, Pending;
  }

  lemma LogsCleanup(w: World, a: Action)
    requires Cleanup(a) && CleanupEnabled(w, a) && Logs(w) && Swept(w) && OneAtATime(w) && Ledger(w)
    ensures Logs(CleanupNext(w, a))
  {
    hide CleanupEnabled, CleanupNext, Logs, Swept, OneAtATime, Ledger;
    match a
    case CleanBegin(_) => LogsBegin(w, a);
    case CleanUnlink(_) => LogsUnlink(w, a);
    case CleanStreams => LogsStreams(w, a);
    case CleanEnd => LogsEnd(w, a);
  }

  lemma LogsAdmission(g: Gateway, w: World, a: Action)
    requires Admission(a) && AdmissionEnabled(g, w, a) && Logs(w) && Swept(w) && OneAtATime(w) && Ledger(w)
    ensures Logs(AdmissionNext(g, w, a))
  {
    hide Lines, Available, IsLog, BodyTotal, JobCount, Dump, Decide, RecoveryLog, HasRoom, LineFile.FirstLine,
         LineFile.Boundary, Pending, DoReceive;
    if a.Receive? {
      var entry := RequestsOf(w, a.sid)[0];
      DecideFacts(g, w, a.sid, entry.body);
      LogsReceive(w, a.sid, entry, Decide(g, w, a.sid, entry.body), a.outcome, a.reply);
    }
  }

  lemma LogsStart(w: World, a: Action)
    requires a.Start? && InlineJobEnabled(w, a) && Logs(w) && Swept(w) && OneAtATime(w) && Ledger(w)
    ensures Logs(InlineJobNext(w, a))
  {
    hide Lines, Available, IsLog, BodyTotal, JobCount, Dump, Decide, RecoveryLog, HasRoom, LineFile.FirstLine,
         LineFile.Boundary, Pending;
  }

  lemma LogsTear(w: World, a: Action)
    requires a.Tear? && InlineJobEnabled(w, a) && Logs(w) && Swept(w) && OneAtATime(w) && Ledger(w)
    ensures Logs(InlineJobNext(w, a))
  {
    hide Lines, Available, IsLog, BodyTotal, JobCount, Dump, Decide, RecoveryLog, HasRoom, LineFile.FirstLine,
         LineFile.Boundary, Pending;
  }

  lemma LogsRunInline(w: World, a: Action)
    requires a.RunInline? && InlineJobEnabled(w, a) && Logs(w) && Swept(w) && OneAtATime(w) && Ledger(w)
    ensures Logs(InlineJobNext(w, a))
  {
    hide Lines, Available, IsLog, BodyTotal, JobCount, Dump, Decide, RecoveryLog, HasRoom, LineFile.FirstLine,
         LineFile.Boundary, Pending;
  }

  lemma LogsSpoolInline(w: World, a: Action)
    requires a.SpoolInline? && InlineJobEnabled(w, a) && Logs(w) && Swept(w) && OneAtATime(w) && Ledger(w)
    ensures Logs(InlineJobNext(w, a))
  {
    hide Lines, Available, IsLog, BodyTotal, JobCount, Dump, Decide, RecoveryLog, HasRoom, LineFile.FirstLine,
         LineFile.Boundary, Pending;
  }

  lemma LogsMark(w: World, a: Action)
    requires a.Mark? && InlineJobEnabled(w, a) && Logs(w) && Swept(w) && OneAtATime(w) && Ledger(w)
    ensures Logs(InlineJobNext(w, a))
  {
    hide Lines, Available, IsLog, BodyTotal, JobCount, Dump, Decide, RecoveryLog, HasRoom, LineFile.FirstLine,
         LineFile.Boundary, Pending;
    MarkDoneGood(w, w.process.control.key);
  }

  lemma LogsInlineJob(w: World, a: Action)
    requires InlineJob(a) && InlineJobEnabled(w, a) && Logs(w) && Swept(w) && OneAtATime(w) && Ledger(w)
    ensures Logs(InlineJobNext(w, a))
  {
    hide InlineJobNext, InlineJobEnabled, Logs;
    if a.Start? {
      LogsStart(w, a);
    } else if a.Tear? {
      LogsTear(w, a);
    } else if a.RunInline? {
      LogsRunInline(w, a);
    } else if a.SpoolInline? {
      LogsSpoolInline(w, a);
    } else {
      LogsMark(w, a);
    }
  }

  lemma LogsSubmit(w: World, a: Action)
    requires a.Submit? && WorkerJobEnabled(w, a) && Logs(w) && Swept(w) && OneAtATime(w) && Ledger(w)
    ensures Logs(WorkerJobNext(w, a))
  {
    hide Lines, Available, IsLog, BodyTotal, JobCount, Dump, Decide, RecoveryLog, HasRoom, LineFile.FirstLine,
         LineFile.Boundary, Pending;
  }

  lemma LogsRunWorker(w: World, a: Action)
    requires a.RunWorker? && WorkerJobEnabled(w, a) && Logs(w) && Swept(w) && OneAtATime(w) && Ledger(w)
    ensures Logs(WorkerJobNext(w, a))
  {
    hide Lines, Available, IsLog, BodyTotal, JobCount, Dump, Decide, RecoveryLog, HasRoom, LineFile.FirstLine,
         LineFile.Boundary, Pending;
  }

  lemma LogsSpoolWorker(w: World, a: Action)
    requires a.SpoolWorker? && WorkerJobEnabled(w, a) && Logs(w) && Swept(w) && OneAtATime(w) && Ledger(w)
    ensures Logs(WorkerJobNext(w, a))
  {
    hide Lines, Available, IsLog, BodyTotal, JobCount, Dump, Decide, RecoveryLog, HasRoom, LineFile.FirstLine,
         LineFile.Boundary, Pending;
  }

  lemma LogsComplete(w: World, a: Action)
    requires a.Complete? && WorkerJobEnabled(w, a) && Logs(w) && Swept(w) && OneAtATime(w) && Ledger(w)
    ensures Logs(WorkerJobNext(w, a))
  {
    hide Lines, Available, IsLog, BodyTotal, JobCount, Dump, Decide, RecoveryLog, HasRoom, LineFile.FirstLine,
         LineFile.Boundary, Pending;
    MarkDoneGood(w, w.process.worker.key);
  }

  lemma LogsWorkerJob(w: World, a: Action)
    requires WorkerJob(a) && WorkerJobEnabled(w, a) && Logs(w) && Swept(w) && OneAtATime(w) && Ledger(w)
    ensures Logs(WorkerJobNext(w, a))
  {
    hide WorkerJobNext, WorkerJobEnabled, Logs;
    if a.Submit? {
      LogsSubmit(w, a);
    } else if a.RunWorker? {
      LogsRunWorker(w, a);
    } else if a.SpoolWorker? {
      LogsSpoolWorker(w, a);
    } else {
      LogsComplete(w, a);
    }
  }

  lemma LogsDeliver(w: World, a: Action)
    requires a.Deliver? && DeliveryEnabled(w, a) && Logs(w) && Swept(w) && OneAtATime(w) && Ledger(w)
    ensures Logs(DeliveryNext(w, a))
  {
    hide Lines, Available, IsLog, BodyTotal, JobCount, Dump, Decide, RecoveryLog, HasRoom, LineFile.FirstLine,
         LineFile.Boundary;
    DeliverStep(w, a.key, a.outcome);
  }

  lemma AdvancedGood(w: World)
    requires w.process.control.Advancing? && NextIsBoundary(w, w.process.control.key, w.process.control.next)
    ensures GoodJob(DoAdvance(w), w.process.control.key)
  {
    hide Lines, IsLog, Dump, LineFile.Boundary;
    var key := w.process.control.key;
    LineFile.BoundaryBelowEnd(w.history.content[key], w.history.cursor[key] + 1);
  }

  lemma OthersGood(w: World, k: Key)
    requires w.process.control.Advancing? && w.process.control.key in w.disk.jobs
    requires k in w.disk.jobs && k != w.process.control.key && GoodJob(w, k)
    ensures k in DoAdvance(w).disk.jobs && GoodJob(DoAdvance(w), k)
  {
    hide Lines, IsLog, Dump, LineFile.Boundary;
  }

  lemma LogsAdvance(w: World, a: Action)
    requires a.Advance? && DeliveryEnabled(w, a) && Logs(w) && Swept(w) && OneAtATime(w) && Ledger(w)
    ensures Logs(DeliveryNext(w, a))
  {
    hide Lines, Available, IsLog, BodyTotal, JobCount, Dump, RecoveryLog, HasRoom, GoodJob, LineFile.Boundary;
    var v, key := DeliveryNext(w, a), w.process.control.key;
    AdvancedGood(w);
    forall k | k in v.disk.jobs && v.disk.jobs[k].phase == Done && k.sid !in v.history.condemned ensures GoodJob(v, k) {
      if k != key {
        OthersGood(w, k);
      }
    }
  }

  lemma LogsDelivery(w: World, a: Action)
    requires Delivery(a) && DeliveryEnabled(w, a) && Logs(w) && Swept(w) && OneAtATime(w) && Ledger(w)
    ensures Logs(DeliveryNext(w, a))
  {
    hide DeliveryNext, DeliveryEnabled, Logs;
    if a.Deliver? {
      LogsDeliver(w, a);
    } else {
      LogsAdvance(w, a);
    }
  }

  lemma LogsKept(g: Gateway, w: World, a: Action)
    requires Enabled(g, w, a) && Logs(w) && Swept(w) && OneAtATime(w) && Ledger(w)
    ensures Logs(Next(g, w, a))
  {
    hide Swept, Logs;
    hide OutsideNext, RecoveryNext, CleanupNext, AdmissionNext, InlineJobNext, WorkerJobNext, DeliveryNext;
    hide OutsideEnabled, RecoveryEnabled, CleanupEnabled, AdmissionEnabled, InlineJobEnabled, WorkerJobEnabled,
         DeliveryEnabled;
    if Outside(a) {
      LogsOutside(w, a);
    } else if Recovery(a) {
      LogsRecovery(w, a);
    } else if Cleanup(a) {
      LogsCleanup(w, a);
    } else if Admission(a) {
      LogsAdmission(g, w, a);
    } else if InlineJob(a) {
      LogsInlineJob(w, a);
    } else if WorkerJob(a) {
      LogsWorkerJob(w, a);
    } else {
      LogsDelivery(w, a);
    }
  }
}
