/** At-most-once execution, in journal order, one job at a time. */
module JournalRuns {
  import opened Text
  import opened JsonText
  import opened Frames
  import opened Journal
  import LineFile

  /** Only a stopped or recovering gateway leaves a running job without a holder. */
  predicate Stopped(w: World) {
    var c := w.process.control;
    c == Down || c == Recovering || c.Rewriting? || c.Remarking?
  }

  predicate Holds(w: World, key: Key) {
    || (w.process.control.Starting? && w.process.control.key == key)
    || (w.process.control.Marking? && w.process.control.key == key)
    || (w.process.worker != Free && w.process.worker.key == key)
  }

  /** The running job has not been handed to its handler yet. */
  predicate NotYetRun(w: World, key: Key) {
    w.process.control == Starting(key, false)
      || (w.process.worker.Busy? && w.process.worker.key == key && !w.process.worker.ran)
  }

  predicate HasRun(runs: seq<Run>, key: Key) { exists i :: 0 <= i < |runs| && runs[i].key == key }

  /** Rows hold the first accepted body; an accepted id outlives its row only with its session gone. */
  ghost predicate Ledger(w: World) {
    && (forall k :: k in w.disk.jobs ==>
          k in w.history.accepted && w.history.accepted[k] == w.disk.jobs[k].body && k.sid in w.disk.sessions)
    && (forall sid :: sid in w.disk.sessions ==> sid in w.history.registered)
    && (forall k :: k in w.history.accepted ==>
          k.sid in w.history.registered && (k.sid in w.disk.sessions ==> k in w.disk.jobs))
  }

  predicate IsRunning(w: World, key: Key) { key in w.disk.jobs && w.disk.jobs[key].phase == Running }

  /** The thread and the worker never hold two jobs, and what they hold is running. */
  ghost predicate OneAtATime(w: World) {
    && (w.process.worker != Free ==> !w.process.control.Starting? && !w.process.control.Marking? && !Stopped(w))
    && (w.process.control.Starting? || w.process.control.Marking? ==> IsRunning(w, w.process.control.key))
    && (w.process.worker != Free ==> IsRunning(w, w.process.worker.key))
    && (!Stopped(w) ==> forall k :: k in w.disk.jobs && w.disk.jobs[k].phase == Running ==> Holds(w, k))
    && (w.process.control.Cleaning? ==> !Active(w, w.process.control.sid))
  }

  ghost predicate RunOnce(w: World) {
    && (forall i :: 0 <= i < |w.history.runs| ==>
          var run := w.history.runs[i];
          && run.key in w.history.accepted && run.body == w.history.accepted[run.key]
          && (run.key in w.disk.jobs ==> w.disk.jobs[run.key].phase != Queued)
          && !NotYetRun(w, run.key))
    && (forall i, j :: 0 <= i < j < |w.history.runs| ==> w.history.runs[i].key != w.history.runs[j].key)
  }

  ghost predicate InOrder(w: World) {
    && (forall i, j :: 0 <= i < j < |w.history.starts| ==> w.history.starts[i] < w.history.starts[j])
    && (forall i :: 0 <= i < |w.history.starts| ==> w.history.starts[i] < w.disk.nextRow)
    && (forall k :: k in w.disk.jobs ==> w.disk.jobs[k].row < w.disk.nextRow)
    && (forall k, i :: k in w.disk.jobs && w.disk.jobs[k].phase == Queued && 0 <= i < |w.history.starts| ==>
          w.history.starts[i] < w.disk.jobs[k].row)
    && (forall k, l :: k in w.disk.jobs && l in w.disk.jobs && w.disk.jobs[k].row == w.disk.jobs[l].row ==> k == l)
  }

  lemma LedgerReceive(w: World, sid: Text, entry: Entry, decision: Decision, outcome: Publish, reply: Json)
    requires Decided(w, sid, decision) && Serving(w) && Ledger(w)
    requires decision.Reply? ==> reply.Obj? && Addressed(decision.id, reply.m)
    ensures Ledger(DoReceive(w, sid, entry, decision, outcome, reply))
  {
    hide Lines, Available, IsLog, BodyTotal, JobCount, Dump, Decide, RecoveryLog, HasRoom, LineFile.FirstLine, Pending;
  }

  lemma LedgerOutside(w: World, a: Action)
    requires Outside(a) && OutsideEnabled(w, a) && Ledger(w)
    ensures Ledger(OutsideNext(w, a))
  {
    hide Lines, Available, IsLog, BodyTotal, JobCount, Dump, Decide, RecoveryLog, HasRoom, LineFile.FirstLine, Pending;
  }

  lemma LedgerRecovery(w: World, a: Action)
    requires Recovery(a) && RecoveryEnabled(w, a) && Ledger(w)
    ensures Ledger(RecoveryNext(w, a))
  {
    hide Lines, Available, IsLog, BodyTotal, JobCount, Dump, Decide, RecoveryLog, HasRoom, LineFile.FirstLine, Pending;
  }

  lemma LedgerCleanup(w: World, a: Action)
    requires Cleanup(a) && CleanupEnabled(w, a) && Ledger(w)
    ensures Ledger(CleanupNext(w, a))
  {
    hide Lines, Available, IsLog, BodyTotal, JobCount, Dump, Decide, RecoveryLog, HasRoom, LineFile.FirstLine, Pending;
  }

  lemma LedgerAdmission(g: Gateway, w: World, a: Action)
    requires Admission(a) && AdmissionEnabled(g, w, a) && Ledger(w)
    ensures Ledger(AdmissionNext(g, w, a))
  {
    hide Lines, Available, IsLog, BodyTotal, JobCount, Dump, Decide, RecoveryLog, HasRoom, LineFile.FirstLine, Pending,
         DoReceive;
    if a.Receive? {
      var entry := RequestsOf(w, a.sid)[0];
      DecideFacts(g, w, a.sid, entry.body);
      LedgerReceive(w, a.sid, entry, Decide(g, w, a.sid, entry.body), a.outcome, a.reply);
    }
  }

  lemma LedgerStart(w: World, a: Action)
    requires a.Start? && InlineJobEnabled(w, a) && Ledger(w)
    ensures Ledger(InlineJobNext(w, a))
  {
    hide Lines, Available, IsLog, BodyTotal, JobCount, Dump, Decide, RecoveryLog, HasRoom, LineFile.FirstLine, Pending;
  }

  lemma LedgerTear(w: World, a: Action)
    requires a.Tear? && InlineJobEnabled(w, a) && Ledger(w)
    ensures Ledger(InlineJobNext(w, a))
  {
    hide Lines, Available, IsLog, BodyTotal, JobCount, Dump, Decide, RecoveryLog, HasRoom, LineFile.FirstLine, Pending;
  }

  lemma LedgerRunInline(w: World, a: Action)
    requires a.RunInline? && InlineJobEnabled(w, a) && Ledger(w)
    ensures Ledger(InlineJobNext(w, a))
  {
    hide Lines, Available, IsLog, BodyTotal, JobCount, Dump, Decide, RecoveryLog, HasRoom, LineFile.FirstLine, Pending;
  }

  lemma LedgerSpoolInline(w: World, a: Action)
    requires a.SpoolInline? && InlineJobEnabled(w, a) && Ledger(w)
    ensures Ledger(InlineJobNext(w, a))
  {
    hide Lines, Available, IsLog, BodyTotal, JobCount, Dump, Decide, RecoveryLog, HasRoom, LineFile.FirstLine, Pending;
  }

  lemma LedgerMark(w: World, a: Action)
    requires a.Mark? && InlineJobEnabled(w, a) && Ledger(w)
    ensures Ledger(InlineJobNext(w, a))
  {
    hide Lines, Available, IsLog, BodyTotal, JobCount, Dump, Decide, RecoveryLog, HasRoom, LineFile.FirstLine, Pending;
  }

  lemma LedgerInlineJob(w: World, a: Action)
    requires InlineJob(a) && InlineJobEnabled(w, a) && Ledger(w)
    ensures Ledger(InlineJobNext(w, a))
  {
    hide InlineJobNext, InlineJobEnabled, Ledger;
    if a.Start? {
      LedgerStart(w, a);
    } else if a.Tear? {
      LedgerTear(w, a);
    } else if a.RunInline? {
      LedgerRunInline(w, a);
    } else if a.SpoolInline? {
      LedgerSpoolInline(w, a);
    } else {
      LedgerMark(w, a);
    }
  }

  lemma LedgerWorkerJob(w: World, a: Action)
    requires WorkerJob(a) && WorkerJobEnabled(w, a) && Ledger(w)
    ensures Ledger(WorkerJobNext(w, a))
  {
    hide Lines, Available, IsLog, BodyTotal, JobCount, Dump, Decide, RecoveryLog, HasRoom, LineFile.FirstLine, Pending;
  }

  lemma LedgerDelivery(w: World, a: Action)
    requires Delivery(a) && DeliveryEnabled(w, a) && Ledger(w)
    ensures Ledger(DeliveryNext(w, a))
  {
    hide Lines, Available, IsLog, BodyTotal, JobCount, Dump, Decide, RecoveryLog, HasRoom, LineFile.FirstLine;
  }

  lemma LedgerKept(g: Gateway, w: World, a: Action)
    requires Enabled(g, w, a) && Ledger(w)
    ensures Ledger(Next(g, w, a))
  {
    hide Ledger, OneAtATime, RunOnce, InOrder;
    hide OutsideNext, RecoveryNext, CleanupNext, AdmissionNext, InlineJobNext, WorkerJobNext, DeliveryNext;
    hide OutsideEnabled, RecoveryEnabled, CleanupEnabled, AdmissionEnabled, InlineJobEnabled, WorkerJobEnabled,
         DeliveryEnabled;
    if Outside(a) {
      LedgerOutside(w, a);
    } else if Recovery(a) {
      LedgerRecovery(w, a);
    } else if Cleanup(a) {
      LedgerCleanup(w, a);
    } else if Admission(a) {
      LedgerAdmission(g, w, a);
    } else if InlineJob(a) {
      LedgerInlineJob(w, a);
    } else if WorkerJob(a) {
      LedgerWorkerJob(w, a);
    } else {
      LedgerDelivery(w, a);
    }
  }

  lemma OneAtATimeReceive(w: World, sid: Text, entry: Entry, decision: Decision, outcome: Publish, reply: Json)
    requires Decided(w, sid, decision) && Serving(w) && OneAtATime(w) && Ledger(w)
    requires decision.Reply? ==> reply.Obj? && Addressed(decision.id, reply.m)
    ensures OneAtATime(DoReceive(w, sid, entry, decision, outcome, reply))
  {
    hide Lines, Available, IsLog, BodyTotal, JobCount, Dump, Decide, RecoveryLog, HasRoom, LineFile.FirstLine, Pending;
  }

  lemma OneAtATimeOutside(w: World, a: Action)
    requires Outside(a) && OutsideEnabled(w, a) && OneAtATime(w) && Ledger(w)
    ensures OneAtATime(OutsideNext(w, a))
  {
    hide Lines, Available, IsLog, BodyTotal, JobCount, Dump, Decide, RecoveryLog, HasRoom, LineFile.FirstLine, Pending;
  }

  lemma OneAtATimeRecovery(w: World, a: Action)
    requires Recovery(a) && RecoveryEnabled(w, a) && OneAtATime(w) && Ledger(w)
    ensures OneAtATime(RecoveryNext(w, a))
  {
    hide Lines, Available, IsLog, BodyTotal, JobCount, Dump, Decide, RecoveryLog, HasRoom, LineFile.FirstLine, Pending;
  }

  lemma OneAtATimeCleanBegin(w: World, a: Action)
    requires a.CleanBegin? && CleanupEnabled(w, a) && OneAtATime(w) && Ledger(w)
    ensures OneAtATime(CleanupNext(w, a))
  {
    hide Lines, Available, IsLog, BodyTotal, JobCount, Dump, Decide, RecoveryLog, HasRoom, LineFile.FirstLine, Pending;
  }

  lemma OneAtATimeCleanUnlink(w: World, a: Action)
    requires a.CleanUnlink? && CleanupEnabled(w, a) && OneAtATime(w) && Ledger(w)
    ensures OneAtATime(CleanupNext(w, a))
  {
    hide Lines, Available, IsLog, BodyTotal, JobCount, Dump, Decide, RecoveryLog, HasRoom, LineFile.FirstLine, Pending;
  }

  lemma OneAtATimeCleanStreams(w: World, a: Action)
    requires a.CleanStreams? && CleanupEnabled(w, a) && OneAtATime(w) && Ledger(w)
    ensures OneAtATime(CleanupNext(w, a))
  {
    hide Lines, Available, IsLog, BodyTotal, JobCount, Dump, Decide, RecoveryLog, HasRoom, LineFile.FirstLine, Pending;
  }

  lemma OneAtATimeCleanEnd(w: World, a: Action)
    requires a.CleanEnd? && CleanupEnabled(w, a) && OneAtATime(w) && Ledger(w)
    ensures OneAtATime(CleanupNext(w, a))
  {
    hide Lines, Available, IsLog, BodyTotal, JobCount, Dump, Decide, RecoveryLog, HasRoom, LineFile.FirstLine, Pending;
  }

  lemma OneAtATimeCleanup(w: World, a: Action)
    requires Cleanup(a) && CleanupEnabled(w, a) && OneAtATime(w) && Ledger(w)
    ensures OneAtATime(CleanupNext(w, a))
  {
    hide CleanupNext, CleanupEnabled, OneAtATime;
    if a.CleanBegin? {
      OneAtATimeCleanBegin(w, a);
    } else if a.CleanUnlink? {
      OneAtATimeCleanUnlink(w, a);
    } else if a.CleanStreams? {
      OneAtATimeCleanStreams(w, a);
    } else {
      OneAtATimeCleanEnd(w, a);
    }
  }

  lemma OneAtATimeAdmission(g: Gateway, w: World, a: Action)
    requires Admission(a) && AdmissionEnabled(g, w, a) && OneAtATime(w) && Ledger(w)
    ensures OneAtATime(AdmissionNext(g, w, a))
  {
    hide Lines, Available, IsLog, BodyTotal, JobCount, Dump, Decide, RecoveryLog, HasRoom, LineFile.FirstLine, Pending,
         DoReceive;
    if a.Receive? {
      var entry := RequestsOf(w, a.sid)[0];
      DecideFacts(g, w, a.sid, entry.body);
      OneAtATimeReceive(w, a.sid, entry, Decide(g, w, a.sid, entry.body), a.outcome, a.reply);
    }
  }

  lemma OneAtATimeInlineJob(w: World, a: Action)
    requires InlineJob(a) && InlineJobEnabled(w, a) && OneAtATime(w) && Ledger(w)
    ensures OneAtATime(InlineJobNext(w, a))
  {
    hide Lines, Available, IsLog, BodyTotal, JobCount, Dump, Decide, RecoveryLog, HasRoom, LineFile.FirstLine, Pending;
  }

  lemma OneAtATimeWorkerJob(w: World, a: Action)
    requires WorkerJob(a) && WorkerJobEnabled(w, a) && OneAtATime(w) && Ledger(w)
    ensures OneAtATime(WorkerJobNext(w, a))
  {
    hide Lines, Available, IsLog, BodyTotal, JobCount, Dump, Decide, RecoveryLog, HasRoom, LineFile.FirstLine, Pending;
  }

  lemma OneAtATimeDelivery(w: World, a: Action)
    requires Delivery(a) && DeliveryEnabled(w, a) && OneAtATime(w) && Ledger(w)
    ensures OneAtATime(DeliveryNext(w, a))
  {
    hide Lines, Available, IsLog, BodyTotal, JobCount, Dump, Decide, RecoveryLog, HasRoom, LineFile.FirstLine;
  }

  lemma OneAtATimeKept(g: Gateway, w: World, a: Action)
    requires Enabled(g, w, a) && OneAtATime(w) && Ledger(w)
    ensures OneAtATime(Next(g, w, a))
  {
    hide Ledger, OneAtATime, RunOnce, InOrder;
    hide OutsideNext, RecoveryNext, CleanupNext, AdmissionNext, InlineJobNext, WorkerJobNext, DeliveryNext;
    hide OutsideEnabled, RecoveryEnabled, CleanupEnabled, AdmissionEnabled, InlineJobEnabled, WorkerJobEnabled,
         DeliveryEnabled;
    if Outside(a) {
      OneAtATimeOutside(w, a);
    } else if Recovery(a) {
      OneAtATimeRecovery(w, a);
    } else if Cleanup(a) {
      OneAtATimeCleanup(w, a);
    } else if Admission(a) {
      OneAtATimeAdmission(g, w, a);
    } else if InlineJob(a) {
      OneAtATimeInlineJob(w, a);
    } else if WorkerJob(a) {
      OneAtATimeWorkerJob(w, a);
    } else {
      OneAtATimeDelivery(w, a);
    }
  }

  lemma RunOnceReceive(w: World, sid: Text, entry: Entry, decision: Decision, outcome: Publish, reply: Json)
    requires Decided(w, sid, decision) && Serving(w) && RunOnce(w) && OneAtATime(w) && Ledger(w)
    requires decision.Reply? ==> reply.Obj? && Addressed(decision.id, reply.m)
    ensures RunOnce(DoReceive(w, sid, entry, decision, outcome, reply))
  {
    hide Lines, Available, IsLog, BodyTotal, JobCount, Dump, Decide, RecoveryLog, HasRoom, LineFile.FirstLine, Pending;
  }

  lemma RunOnceOutside(w: World, a: Action)
    requires Outside(a) && OutsideEnabled(w, a) && RunOnce(w) && OneAtATime(w) && Ledger(w)
    ensures RunOnce(OutsideNext(w, a))
  {
    hide Lines, Available, IsLog, BodyTotal, JobCount, Dump, Decide, RecoveryLog, HasRoom, LineFile.FirstLine, Pending;
  }

  lemma RunOnceRecovery(w: World, a: Action)
    requires Recovery(a) && RecoveryEnabled(w, a) && RunOnce(w) && OneAtATime(w) && Ledger(w)
    ensures RunOnce(RecoveryNext(w, a))
  {
    hide Lines, Available, IsLog, BodyTotal, JobCount, Dump, Decide, RecoveryLog, HasRoom, LineFile.FirstLine, Pending;
  }

  lemma RunOnceCleanup(w: World, a: Action)
    requires Cleanup(a) && CleanupEnabled(w, a) && RunOnce(w) && OneAtATime(w) && Ledger(w)
    ensures RunOnce(CleanupNext(w, a))
  {
    hide Lines, Available, IsLog, BodyTotal, JobCount, Dump, Decide, RecoveryLog, HasRoom, LineFile.FirstLine, Pending;
  }

  lemma RunOnceAdmission(g: Gateway, w: World, a: Action)
    requires Admission(a) && AdmissionEnabled(g, w, a) && RunOnce(w) && OneAtATime(w) && Ledger(w)
    ensures RunOnce(AdmissionNext(g, w, a))
  {
    hide Lines, Available, IsLog, BodyTotal, JobCount, Dump, Decide, RecoveryLog, HasRoom, LineFile.FirstLine, Pending,
         DoReceive;
    if a.Receive? {
      var entry := RequestsOf(w, a.sid)[0];
      DecideFacts(g, w, a.sid, entry.body);
      RunOnceReceive(w, a.sid, entry, Decide(g, w, a.sid, entry.body), a.outcome, a.reply);
    }
  }

  lemma RunOnceStart(w: World, a: Action)
    requires a.Start? && InlineJobEnabled(w, a) && RunOnce(w) && OneAtATime(w) && Ledger(w)
    ensures RunOnce(InlineJobNext(w, a))
  {
    hide Lines, Available, IsLog, BodyTotal, JobCount, Dump, Decide, RecoveryLog, HasRoom, LineFile.FirstLine, Pending;
  }

  lemma RunOnceTear(w: World, a: Action)
    requires a.Tear? && InlineJobEnabled(w, a) && RunOnce(w) && OneAtATime(w) && Ledger(w)
    ensures RunOnce(InlineJobNext(w, a))
  {
    hide Lines, Available, IsLog, BodyTotal, JobCount, Dump, Decide, RecoveryLog, HasRoom, LineFile.FirstLine, Pending;
  }

  lemma RunOnceRunInline(w: World, a: Action)
    requires a.RunInline? && InlineJobEnabled(w, a) && RunOnce(w) && OneAtATime(w) && Ledger(w)
    ensures RunOnce(InlineJobNext(w, a))
  {
    hide Lines, Available, IsLog, BodyTotal, JobCount, Dump, Decide, RecoveryLog, HasRoom, LineFile.FirstLine, Pending;
  }

  lemma RunOnceSpoolInline(w: World, a: Action)
    requires a.SpoolInline? && InlineJobEnabled(w, a) && RunOnce(w) && OneAtATime(w) && Ledger(w)
    ensures RunOnce(InlineJobNext(w, a))
  {
    hide Lines, Available, IsLog, BodyTotal, JobCount, Dump, Decide, RecoveryLog, HasRoom, LineFile.FirstLine, Pending;
  }

  lemma RunOnceMark(w: World, a: Action)
    requires a.Mark? && InlineJobEnabled(w, a) && RunOnce(w) && OneAtATime(w) && Ledger(w)
    ensures RunOnce(InlineJobNext(w, a))
  {
    hide Lines, Available, IsLog, BodyTotal, JobCount, Dump, Decide, RecoveryLog, HasRoom, LineFile.FirstLine, Pending;
  }

  lemma RunOnceInlineJob(w: World, a: Action)
    requires InlineJob(a) && InlineJobEnabled(w, a) && RunOnce(w) && OneAtATime(w) && Ledger(w)
    ensures RunOnce(InlineJobNext(w, a))
  {
    hide InlineJobNext, InlineJobEnabled, RunOnce;
    if a.Start? {
      RunOnceStart(w, a);
    } else if a.Tear? {
      RunOnceTear(w, a);
    } else if a.RunInline? {
      RunOnceRunInline(w, a);
    } else if a.SpoolInline? {
      RunOnceSpoolInline(w, a);
    } else {
      RunOnceMark(w, a);
    }
  }

  lemma RunOnceWorkerJob(w: World, a: Action)
    requires WorkerJob(a) && WorkerJobEnabled(w, a) && RunOnce(w) && OneAtATime(w) && Ledger(w)
    ensures RunOnce(WorkerJobNext(w, a))
  {
    hide Lines, Available, IsLog, BodyTotal, JobCount, Dump, Decide, RecoveryLog, HasRoom, LineFile.FirstLine, Pending;
  }

  lemma RunOnceDelivery(w: World, a: Action)
    requires Delivery(a) && DeliveryEnabled(w, a) && RunOnce(w) && OneAtATime(w) && Ledger(w)
    ensures RunOnce(DeliveryNext(w, a))
  {
    hide Lines, Available, IsLog, BodyTotal, JobCount, Dump, Decide, RecoveryLog, HasRoom, LineFile.FirstLine;
  }

  lemma RunOnceKept(g: Gateway, w: World, a: Action)
    requires Enabled(g, w, a) && RunOnce(w) && OneAtATime(w) && Ledger(w)
    ensures RunOnce(Next(g, w, a))
  {
    hide Ledger, OneAtATime, RunOnce, InOrder;
    hide OutsideNext, RecoveryNext, CleanupNext, AdmissionNext, InlineJobNext, WorkerJobNext, DeliveryNext;
    hide OutsideEnabled, RecoveryEnabled, CleanupEnabled, AdmissionEnabled, InlineJobEnabled, WorkerJobEnabled,
         DeliveryEnabled;
    if Outside(a) {
      RunOnceOutside(w, a);
    } else if Recovery(a) {
      RunOnceRecovery(w, a);
    } else if Cleanup(a) {
      RunOnceCleanup(w, a);
    } else if Admission(a) {
      RunOnceAdmission(g, w, a);
    } else if InlineJob(a) {
      RunOnceInlineJob(w, a);
    } else if WorkerJob(a) {
      RunOnceWorkerJob(w, a);
    } else {
      RunOnceDelivery(w, a);
    }
  }

  lemma InOrderReceive(w: World, sid: Text, entry: Entry, decision: Decision, outcome: Publish, reply: Json)
    requires Decided(w, sid, decision) && Serving(w) && InOrder(w)
    requires decision.Reply? ==> reply.Obj? && Addressed(decision.id, reply.m)
    ensures InOrder(DoReceive(w, sid, entry, decision, outcome, reply))
  {
    hide Lines, Available, IsLog, BodyTotal, JobCount, Dump, Decide, RecoveryLog, HasRoom, LineFile.FirstLine, Pending;
  }

  lemma InOrderOutside(w: World, a: Action)
    requires Outside(a) && OutsideEnabled(w, a) && InOrder(w)
    ensures InOrder(OutsideNext(w, a))
  {
    hide Lines, Available, IsLog, BodyTotal, JobCount, Dump, Decide, RecoveryLog, HasRoom, LineFile.FirstLine, Pending;
  }

  lemma InOrderRecovery(w: World, a: Action)
    requires Recovery(a) && RecoveryEnabled(w, a) && InOrder(w)
    ensures InOrder(RecoveryNext(w, a))
  {
    hide Lines, Available, IsLog, BodyTotal, JobCount, Dump, Decide, RecoveryLog, HasRoom, LineFile.FirstLine, Pending;
  }

  lemma InOrderCleanup(w: World, a: Action)
    requires Cleanup(a) && CleanupEnabled(w, a) && InOrder(w)
    ensures InOrder(CleanupNext(w, a))
  {
    hide Lines, Available, IsLog, BodyTotal, JobCount, Dump, Decide, RecoveryLog, HasRoom, LineFile.FirstLine, Pending;
  }

  lemma InOrderAdmission(g: Gateway, w: World, a: Action)
    requires Admission(a) && AdmissionEnabled(g, w, a) && InOrder(w)
    ensures InOrder(AdmissionNext(g, w, a))
  {
    hide Lines, Available, IsLog, BodyTotal, JobCount, Dump, Decide, RecoveryLog, HasRoom, LineFile.FirstLine, Pending,
         DoReceive;
    if a.Receive? {
      var entry := RequestsOf(w, a.sid)[0];
      DecideFacts(g, w, a.sid, entry.body);
      InOrderReceive(w, a.sid, entry, Decide(g, w, a.sid, entry.body), a.outcome, a.reply);
    }
  }

  lemma InOrderStart(w: World, a: Action)
    requires a.Start? && InlineJobEnabled(w, a) && InOrder(w)
    ensures InOrder(InlineJobNext(w, a))
  {
    hide Lines, Available, IsLog, BodyTotal, JobCount, Dump, Decide, RecoveryLog, HasRoom, LineFile.FirstLine, Pending;
  }

  lemma InOrderTear(w: World, a: Action)
    requires a.Tear? && InlineJobEnabled(w, a) && InOrder(w)
    ensures InOrder(InlineJobNext(w, a))
  {
    hide Lines, Available, IsLog, BodyTotal, JobCount, Dump, Decide, RecoveryLog, HasRoom, LineFile.FirstLine, Pending;
  }

  lemma InOrderRunInline(w: World, a: Action)
    requires a.RunInline? && InlineJobEnabled(w, a) && InOrder(w)
    ensures InOrder(InlineJobNext(w, a))
  {
    hide Lines, Available, IsLog, BodyTotal, JobCount, Dump, Decide, RecoveryLog, HasRoom, LineFile.FirstLine, Pending;
  }

  lemma InOrderSpoolInline(w: World, a: Action)
    requires a.SpoolInline? && InlineJobEnabled(w, a) && InOrder(w)
    ensures InOrder(InlineJobNext(w, a))
  {
    hide Lines, Available, IsLog, BodyTotal, JobCount, Dump, Decide, RecoveryLog, HasRoom, LineFile.FirstLine, Pending;
  }

  lemma InOrderMark(w: World, a: Action)
    requires a.Mark? && InlineJobEnabled(w, a) && InOrder(w)
    ensures InOrder(InlineJobNext(w, a))
  {
    hide Lines, Available, IsLog, BodyTotal, JobCount, Dump, Decide, RecoveryLog, HasRoom, LineFile.FirstLine, Pending;
  }

  lemma InOrderInlineJob(w: World, a: Action)
    requires InlineJob(a) && InlineJobEnabled(w, a) && InOrder(w)
    ensures InOrder(InlineJobNext(w, a))
  {
    hide InlineJobNext, InlineJobEnabled, InOrder;
    if a.Start? {
      InOrderStart(w, a);
    } else if a.Tear? {
      InOrderTear(w, a);
    } else if a.RunInline? {
      InOrderRunInline(w, a);
    } else if a.SpoolInline? {
      InOrderSpoolInline(w, a);
    } else {
      InOrderMark(w, a);
    }
  }

  lemma InOrderWorkerJob(w: World, a: Action)
    requires WorkerJob(a) && WorkerJobEnabled(w, a) && InOrder(w)
    ensures InOrder(WorkerJobNext(w, a))
  {
    hide Lines, Available, IsLog, BodyTotal, JobCount, Dump, Decide, RecoveryLog, HasRoom, LineFile.FirstLine, Pending;
  }

  lemma InOrderDelivery(w: World, a: Action)
    requires Delivery(a) && DeliveryEnabled(w, a) && InOrder(w)
    ensures InOrder(DeliveryNext(w, a))
  {
    hide Lines, Available, IsLog, BodyTotal, JobCount, Dump, Decide, RecoveryLog, HasRoom, LineFile.FirstLine;
  }

  lemma InOrderKept(g: Gateway, w: World, a: Action)
    requires Enabled(g, w, a) && InOrder(w)
    ensures InOrder(Next(g, w, a))
  {
    hide Ledger, OneAtATime, RunOnce, InOrder;
    hide OutsideNext, RecoveryNext, CleanupNext, AdmissionNext, InlineJobNext, WorkerJobNext, DeliveryNext;
    hide OutsideEnabled, RecoveryEnabled, CleanupEnabled, AdmissionEnabled, InlineJobEnabled, WorkerJobEnabled,
         DeliveryEnabled;
    if Outside(a) {
      InOrderOutside(w, a);
    } else if Recovery(a) {
      InOrderRecovery(w, a);
    } else if Cleanup(a) {
      InOrderCleanup(w, a);
    } else if Admission(a) {
      InOrderAdmission(g, w, a);
    } else if InlineJob(a) {
      InOrderInlineJob(w, a);
    } else if WorkerJob(a) {
      InOrderWorkerJob(w, a);
    } else {
      InOrderDelivery(w, a);
    }
  }
}
