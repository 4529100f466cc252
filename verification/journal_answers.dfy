/** How a finished job was answered. */
module JournalAnswers {
  import opened Text
  import opened JsonText
  import opened Frames
  import opened Journal
  import opened JournalRuns
  import opened JournalLogs
  import LineFile

  /** A reply that claims an execution has one behind it, a refusal has none, and after a
      crash the reply is exactly the one that says so. */
  ghost predicate Answer(w: World, key: Key) {
    && key in w.history.content && key in w.history.origin
    && match w.history.origin[key]
       case Executed => HasRun(w.history.runs, key)
       case Rejected => !HasRun(w.history.runs, key)
       case OutcomeUnknown => w.history.content[key] == RecoveryLog(key.id)
  }

  ghost predicate Answers(w: World) {
    && (forall k :: k in w.disk.jobs && w.disk.jobs[k].phase == Done && k.sid !in w.history.condemned ==> Answer(w, k))
    && (w.process.control.Starting? && w.process.control.ran ==> HasRun(w.history.runs, w.process.control.key))
    && (w.process.control.Marking? ==> Answer(w, w.process.control.key))
    && (w.process.control.Remarking? && IsRunning(w, w.process.control.key) ==> Answer(w, w.process.control.key))
    && (w.process.worker.Busy? && w.process.worker.ran ==> HasRun(w.history.runs, w.process.worker.key))
    && (w.process.worker.Ready? ==> Answer(w, w.process.worker.key))
  }

  lemma RunAppended(runs: seq<Run>, run: Run, key: Key)
    ensures HasRun(runs + [run], key) <==> HasRun(runs, key) || run.key == key
  {
    var grown := runs + [run];
    if HasRun(runs, key) {
      var i :| 0 <= i < |runs| && runs[i].key == key;
      assert grown[i].key == key;
    }
    if run.key == key {
      assert grown[|runs|].key == key;
    }
  }

  lemma NoRunYet(w: World, key: Key)
    requires RunOnce(w) && NotYetRun(w, key)
    ensures !HasRun(w.history.runs, key)
  {
  }

  lemma AnswersReceive(w: World, sid: Text, entry: Entry, decision: Decision, outcome: Publish, reply: Json)
    requires Decided(w, sid, decision) && Serving(w) && Answers(w) && RunOnce(w) && Logs(w) && OneAtATime(w)
    requires Ledger(w)
    requires decision.Reply? ==> reply.Obj? && Addressed(decision.id, reply.m)
    ensures Answers(DoReceive(w, sid, entry, decision, outcome, reply))
  {
    hide Lines, Available, IsLog, BodyTotal, JobCount, Dump, Decide, RecoveryLog, HasRoom, LineFile.FirstLine,
         LineFile.Boundary, HasRun, RunOnce, GoodJob, HoldsLog, NextIsBoundary, Ledger, Pending;
  }

  lemma AnswersOutside(w: World, a: Action)
    requires Outside(a) && OutsideEnabled(w, a) && Answers(w) && RunOnce(w) && Logs(w) && OneAtATime(w) && Ledger(w)
    ensures Answers(OutsideNext(w, a))
  {
    hide Lines, Available, IsLog, BodyTotal, JobCount, Dump, Decide, RecoveryLog, HasRoom, LineFile.FirstLine,
         LineFile.Boundary, HasRun, RunOnce, GoodJob, HoldsLog, NextIsBoundary, Ledger, Pending;
  }

  lemma AnswersRecoverOpen(w: World, a: Action)
    requires a.RecoverOpen? && RecoveryEnabled(w, a) && Answers(w) && RunOnce(w) && Logs(w) && OneAtATime(w)
    requires Ledger(w)
    ensures Answers(RecoveryNext(w, a))
  {
    hide Lines, Available, IsLog, BodyTotal, JobCount, Dump, Decide, RecoveryLog, HasRoom, LineFile.FirstLine,
         LineFile.Boundary, HasRun, RunOnce, GoodJob, HoldsLog, NextIsBoundary, Ledger, Pending;
  }

  lemma AnswersRecoverWrite(w: World, a: Action)
    requires a.RecoverWrite? && RecoveryEnabled(w, a) && Answers(w) && RunOnce(w) && Logs(w) && OneAtATime(w)
    requires Ledger(w)
    ensures Answers(RecoveryNext(w, a))
  {
    hide Lines, Available, IsLog, BodyTotal, JobCount, Dump, Decide, RecoveryLog, HasRoom, LineFile.FirstLine,
         LineFile.Boundary, HasRun, RunOnce, GoodJob, HoldsLog, NextIsBoundary, Ledger, Pending;
  }

  lemma AnswersRecoverMark(w: World, a: Action)
    requires a.RecoverMark? && RecoveryEnabled(w, a) && Answers(w) && RunOnce(w) && Logs(w) && OneAtATime(w)
    requires Ledger(w)
    ensures Answers(RecoveryNext(w, a))
  {
    hide Lines, Available, IsLog, BodyTotal, JobCount, Dump, Decide, RecoveryLog, HasRoom, LineFile.FirstLine,
         LineFile.Boundary, HasRun, RunOnce, GoodJob, HoldsLog, NextIsBoundary, Ledger, Pending;
  }

  lemma AnswersRecoverEnd(w: World, a: Action)
    requires a.RecoverEnd? && RecoveryEnabled(w, a) && Answers(w) && RunOnce(w) && Logs(w) && OneAtATime(w) && Ledger(w)
    ensures Answers(RecoveryNext(w, a))
  {
    hide Lines, Available, IsLog, BodyTotal, JobCount, Dump, Decide, RecoveryLog, HasRoom, LineFile.FirstLine,
         LineFile.Boundary, HasRun, RunOnce, GoodJob, HoldsLog, NextIsBoundary, Ledger, Pending;
  }

  lemma AnswersSweepEnd(w: World, a: Action)
    requires a.SweepEnd? && RecoveryEnabled(w, a) && Answers(w) && RunOnce(w) && Logs(w) && OneAtATime(w) && Ledger(w)
    ensures Answers(RecoveryNext(w, a))
  {
    hide Lines, Available, IsLog, BodyTotal, JobCount, Dump, Decide, RecoveryLog, HasRoom, LineFile.FirstLine,
         LineFile.Boundary, HasRun, RunOnce, GoodJob, HoldsLog, NextIsBoundary, Ledger, Pending;
  }

  lemma AnswersRecovery(w: World, a: Action)
    requires Recovery(a) && RecoveryEnabled(w, a) && Answers(w) && RunOnce(w) && Logs(w) && OneAtATime(w) && Ledger(w)
    ensures Answers(RecoveryNext(w, a))
  {
    hide RecoveryNext, RecoveryEnabled, Answers;
    if a.RecoverOpen? {
      AnswersRecoverOpen(w, a);
    } else if a.RecoverWrite? {
      AnswersRecoverWrite(w, a);
    } else if a.RecoverMark? {
      AnswersRecoverMark(w, a);
    } else if a.RecoverEnd? {
      AnswersRecoverEnd(w, a);
    } else {
      AnswersSweepEnd(w, a);
    }
  }

  lemma AnswersCleanup(w: World, a: Action)
    requires Cleanup(a) && CleanupEnabled(w, a) && Answers(w) && RunOnce(w) && Logs(w) && OneAtATime(w) && Ledger(w)
    ensures Answers(CleanupNext(w, a))
  {
    hide Lines, Available, IsLog, BodyTotal, JobCount, Dump, Decide, RecoveryLog, HasRoom, LineFile.FirstLine,
         LineFile.Boundary, HasRun, RunOnce, GoodJob, HoldsLog, NextIsBoundary, Ledger, Pending;
  }

  lemma AnswersAdmission(g: Gateway, w: World, a: Action)
    requires Admission(a) && AdmissionEnabled(g, w, a) && Answers(w) && RunOnce(w) && Logs(w) && OneAtATime(w)
    requires Ledger(w)
    ensures Answers(AdmissionNext(g, w, a))
  {
    hide Lines, Available, IsLog, BodyTotal, JobCount, Dump, Decide, RecoveryLog, HasRoom, LineFile.FirstLine,
         LineFile.Boundary, HasRun, RunOnce, GoodJob, HoldsLog, NextIsBoundary, Ledger, Pending, DoReceive;
    if a.Receive? {
      var entry := RequestsOf(w, a.sid)[0];
      DecideFacts(g, w, a.sid, entry.body);
      AnswersReceive(w, a.sid, entry, Decide(g, w, a.sid, entry.body), a.outcome, a.reply);
    }
  }

  lemma AnswersStart(w: World, a: Action)
    requires a.Start? && InlineJobEnabled(w, a) && Answers(w) && RunOnce(w) && Logs(w) && OneAtATime(w) && Ledger(w)
    ensures Answers(InlineJobNext(w, a))
  {
    hide Lines, Available, IsLog, BodyTotal, JobCount, Dump, Decide, RecoveryLog, HasRoom, LineFile.FirstLine,
         LineFile.Boundary, HasRun, RunOnce, GoodJob, HoldsLog, NextIsBoundary, Ledger, Pending;
  }

  lemma AnswersTear(w: World, a: Action)
    requires a.Tear? && InlineJobEnabled(w, a) && Answers(w) && RunOnce(w) && Logs(w) && OneAtATime(w) && Ledger(w)
    ensures Answers(InlineJobNext(w, a))
  {
    hide Lines, Available, IsLog, BodyTotal, JobCount, Dump, Decide, RecoveryLog, HasRoom, LineFile.FirstLine,
         LineFile.Boundary, HasRun, RunOnce, GoodJob, HoldsLog, NextIsBoundary, Ledger, Pending;
  }

  lemma AnswersRunInline(w: World, a: Action)
    requires a.RunInline? && InlineJobEnabled(w, a) && Answers(w) && RunOnce(w) && Logs(w) && OneAtATime(w) && Ledger(w)
    ensures Answers(InlineJobNext(w, a))
  {
    hide Lines, Available, IsLog, BodyTotal, JobCount, Dump, Decide, RecoveryLog, HasRoom, LineFile.FirstLine,
         LineFile.Boundary, HasRun, RunOnce, GoodJob, HoldsLog, NextIsBoundary, Ledger, Pending;
    forall key: Key
      ensures HasRun(InlineJobNext(w, a).history.runs, key)
              <==> HasRun(w.history.runs, key) || key == w.process.control.key
    {
      RunAppended(w.history.runs, Run(w.process.control.key, w.disk.jobs[w.process.control.key].body), key);
    }
  }

  lemma AnswersSpoolInline(w: World, a: Action)
    requires a.SpoolInline? && InlineJobEnabled(w, a) && Answers(w) && RunOnce(w) && Logs(w) && OneAtATime(w)
    requires Ledger(w)
    ensures Answers(InlineJobNext(w, a))
  {
    hide Lines, Available, IsLog, BodyTotal, JobCount, Dump, Decide, RecoveryLog, HasRoom, LineFile.FirstLine,
         LineFile.Boundary, HasRun, RunOnce, GoodJob, HoldsLog, NextIsBoundary, Ledger, Pending;
    if !w.process.control.ran {
      NoRunYet(w, w.process.control.key);
    }
  }

  lemma AnswersMark(w: World, a: Action)
    requires a.Mark? && InlineJobEnabled(w, a) && Answers(w) && RunOnce(w) && Logs(w) && OneAtATime(w) && Ledger(w)
    ensures Answers(InlineJobNext(w, a))
  {
    hide Lines, Available, IsLog, BodyTotal, JobCount, Dump, Decide, RecoveryLog, HasRoom, LineFile.FirstLine,
         LineFile.Boundary, HasRun, RunOnce, GoodJob, HoldsLog, NextIsBoundary, Ledger, Pending;
  }

  lemma AnswersInlineJob(w: World, a: Action)
    requires InlineJob(a) && InlineJobEnabled(w, a) && Answers(w) && RunOnce(w) && Logs(w) && OneAtATime(w) && Ledger(w)
    ensures Answers(InlineJobNext(w, a))
  {
    hide InlineJobNext, InlineJobEnabled, Answers;
    if a.Start? {
      AnswersStart(w, a);
    } else if a.Tear? {
      AnswersTear(w, a);
    } else if a.RunInline? {
      AnswersRunInline(w, a);
    } else if a.SpoolInline? {
      AnswersSpoolInline(w, a);
    } else {
      AnswersMark(w, a);
    }
  }

  lemma AnswersSubmit(w: World, a: Action)
    requires a.Submit? && WorkerJobEnabled(w, a) && Answers(w) && RunOnce(w) && Logs(w) && OneAtATime(w) && Ledger(w)
    ensures Answers(WorkerJobNext(w, a))
  {
    hide Lines, Available, IsLog, BodyTotal, JobCount, Dump, Decide, RecoveryLog, HasRoom, LineFile.FirstLine,
         LineFile.Boundary, HasRun, RunOnce, GoodJob, HoldsLog, NextIsBoundary, Ledger, Pending;
  }

  lemma AnswersRunWorker(w: World, a: Action)
    requires a.RunWorker? && WorkerJobEnabled(w, a) && Answers(w) && RunOnce(w) && Logs(w) && OneAtATime(w) && Ledger(w)
    ensures Answers(WorkerJobNext(w, a))
  {
    hide Lines, Available, IsLog, BodyTotal, JobCount, Dump, Decide, RecoveryLog, HasRoom, LineFile.FirstLine,
         LineFile.Boundary, HasRun, RunOnce, GoodJob, HoldsLog, NextIsBoundary, Ledger, Pending;
    forall key: Key
      ensures HasRun(WorkerJobNext(w, a).history.runs, key)
              <==> HasRun(w.history.runs, key) || key == w.process.worker.key
    {
      RunAppended(w.history.runs, Run(w.process.worker.key, w.disk.jobs[w.process.worker.key].body), key);
    }
  }

  lemma AnswersSpoolWorker(w: World, a: Action)
    requires a.SpoolWorker? && WorkerJobEnabled(w, a) && Answers(w) && RunOnce(w) && Logs(w) && OneAtATime(w)
    requires Ledger(w)
    ensures Answers(WorkerJobNext(w, a))
  {
    hide Lines, Available, IsLog, BodyTotal, JobCount, Dump, Decide, RecoveryLog, HasRoom, LineFile.FirstLine,
         LineFile.Boundary, HasRun, RunOnce, GoodJob, HoldsLog, NextIsBoundary, Ledger, Pending;
    if !w.process.worker.ran {
      NoRunYet(w, w.process.worker.key);
    }
  }

  lemma AnswersComplete(w: World, a: Action)
    requires a.Complete? && WorkerJobEnabled(w, a) && Answers(w) && RunOnce(w) && Logs(w) && OneAtATime(w) && Ledger(w)
    ensures Answers(WorkerJobNext(w, a))
  {
    hide Lines, Available, IsLog, BodyTotal, JobCount, Dump, Decide, RecoveryLog, HasRoom, LineFile.FirstLine,
         LineFile.Boundary, HasRun, RunOnce, GoodJob, HoldsLog, NextIsBoundary, Ledger, Pending;
  }

  lemma AnswersWorkerJob(w: World, a: Action)
    requires WorkerJob(a) && WorkerJobEnabled(w, a) && Answers(w) && RunOnce(w) && Logs(w) && OneAtATime(w) && Ledger(w)
    ensures Answers(WorkerJobNext(w, a))
  {
    hide WorkerJobNext, WorkerJobEnabled, Answers;
    if a.Submit? {
      AnswersSubmit(w, a);
    } else if a.RunWorker? {
      AnswersRunWorker(w, a);
    } else if a.SpoolWorker? {
      AnswersSpoolWorker(w, a);
    } else {
      AnswersComplete(w, a);
    }
  }

  lemma AnswersDelivery(w: World, a: Action)
    requires Delivery(a) && DeliveryEnabled(w, a) && Answers(w) && RunOnce(w) && Logs(w) && OneAtATime(w) && Ledger(w)
    ensures Answers(DeliveryNext(w, a))
  {
    hide Lines, Available, IsLog, BodyTotal, JobCount, Dump, Decide, RecoveryLog, HasRoom, LineFile.FirstLine,
         LineFile.Boundary, HasRun, RunOnce, GoodJob, HoldsLog, NextIsBoundary, Ledger;
  }

  lemma AnswersKept(g: Gateway, w: World, a: Action)
    requires Enabled(g, w, a) && Answers(w) && RunOnce(w) && Logs(w) && OneAtATime(w) && Ledger(w)
    ensures Answers(Next(g, w, a))
  {
    hide Answers, RunOnce, Logs, OneAtATime, Ledger;
    hide OutsideNext, RecoveryNext, CleanupNext, AdmissionNext, InlineJobNext, WorkerJobNext, DeliveryNext;
    hide OutsideEnabled, RecoveryEnabled, CleanupEnabled, AdmissionEnabled, InlineJobEnabled, WorkerJobEnabled,
         DeliveryEnabled;
    if Outside(a) {
      AnswersOutside(w, a);
    } else if Recovery(a) {
      AnswersRecovery(w, a);
    } else if Cleanup(a) {
      AnswersCleanup(w, a);
    } else if Admission(a) {
      AnswersAdmission(g, w, a);
    } else if InlineJob(a) {
      AnswersInlineJob(w, a);
    } else if WorkerJob(a) {
      AnswersWorkerJob(w, a);
    } else {
      AnswersDelivery(w, a);
    }
  }
}
