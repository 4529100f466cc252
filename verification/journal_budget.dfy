/** What a gateway retains: requests and sessions within their quotas, response bytes
    within theirs up to one small reply a job. */
module JournalBudget {
  import opened Text
  import opened JsonText
  import opened Frames
  import opened Journal
  import opened JournalRuns
  import opened JournalLogs
  import opened SpoolBudget
  import opened Sums
  import LineFile

  // ---- Quotas ----

  function Own(jobs: map<Key, Job>, sid: Text): set<Key> { set k | k in jobs && k.sid == sid }

  ghost predicate Quotas(w: World) {
    && |w.disk.sessions| <= MAX_SESSIONS && BodyTotal(w.disk.jobs) <= RETAINED_BODIES
    && forall sid :: JobCount(w.disk.jobs, sid) <= JOBS_PER_SESSION
  }

  predicate SameBodies(a: map<Key, Job>, b: map<Key, Job>) { forall k :: k in b ==> k in a && b[k].body == a[k].body }

  /** No new row, no new session. */
  predicate NothingNew(w: World, v: World) {
    SameBodies(w.disk.jobs, v.disk.jobs) && v.disk.sessions.Keys <= w.disk.sessions.Keys
  }

  lemma QuotasStay(w: World, v: World)
    requires Quotas(w) && NothingNew(w, v)
    ensures Quotas(v)
  {
    hide Sum;
    SumBound(w.disk.jobs, w.disk.jobs.Keys, BodyWeight(), v.disk.jobs, v.disk.jobs.Keys, BodyWeight());
    SubsetCount(v.disk.sessions.Keys, w.disk.sessions.Keys);
    forall sid ensures JobCount(v.disk.jobs, sid) <= JobCount(w.disk.jobs, sid) {
      SubsetCount(Own(v.disk.jobs, sid), Own(w.disk.jobs, sid));
    }
  }

  lemma CountInsert(a: map<Key, Job>, key: Key, job: Job, sid: Text)
    requires key !in a
    ensures JobCount(a[key := job], sid) == JobCount(a, sid) + if sid == key.sid then 1 else 0
  {
    var b := a[key := job];
    assert Own(b, sid) == if sid == key.sid then Own(a, sid) + {key} else Own(a, sid);
    assert JobCount(a, sid) == |Own(a, sid)| && JobCount(b, sid) == |Own(b, sid)|;
  }

  lemma BodiesInsert(a: map<Key, Job>, key: Key, job: Job)
    requires key !in a
    ensures BodyTotal(a[key := job]) <= BodyTotal(a) + |job.body|
  {
    hide Sum;
    var b := a[key := job];
    SumTake(b, b.Keys, BodyWeight(), key);
    SumBound(a, a.Keys, BodyWeight(), b, b.Keys - {key}, BodyWeight());
  }

  lemma QuotasInsert(w: World, v: World, key: Key, job: Job)
    requires Quotas(w) && v.disk.jobs == w.disk.jobs[key := job] && v.disk.sessions == w.disk.sessions
    requires Decided(w, key.sid, Insert(key, job.body))
    ensures Quotas(v)
  {
    hide BodyTotal, JobCount;
    BodiesInsert(w.disk.jobs, key, job);
    forall sid ensures JobCount(v.disk.jobs, sid) <= JOBS_PER_SESSION {
      CountInsert(w.disk.jobs, key, job, sid);
    }
  }

  // ---- Response bytes ----

  /** A response of more than 4 KiB counts against the byte budget. */
  function LargeWeight(): Job -> nat { (job: Job) => if job.size > SMALL_REPLY then job.size else 0 }

  ghost function LargeTotal(jobs: map<Key, Job>): nat { Sum(jobs, jobs.Keys, LargeWeight()) }

  ghost function LargeOf(jobs: map<Key, Job>, sid: Text): nat { Sum(jobs, Own(jobs, sid), LargeWeight()) }

  /** What was available when the one job in flight was handed over is available still. */
  ghost predicate Fits(jobs: map<Key, Job>, sid: Text, available: int) {
    LargeTotal(jobs) + available <= TOTAL_BYTES && LargeOf(jobs, sid) + available <= SESSION_BYTES
  }

  ghost predicate Weights(w: World) {
    && LargeTotal(w.disk.jobs) <= TOTAL_BYTES && (forall sid :: LargeOf(w.disk.jobs, sid) <= SESSION_BYTES)
    && (w.process.worker != Free ==> Fits(w.disk.jobs, w.process.worker.key.sid, w.process.worker.available))
  }

  /** Large responses are the ones there were. */
  predicate Lighter(a: map<Key, Job>, b: map<Key, Job>) {
    forall k :: k in b && b[k].size > SMALL_REPLY ==> k in a && b[k].size <= a[k].size
  }

  predicate SameTask(w: World, v: World) {
    v.process.worker != Free ==>
      w.process.worker != Free && v.process.worker.key == w.process.worker.key
        && v.process.worker.available == w.process.worker.available
  }

  lemma LighterSums(a: map<Key, Job>, b: map<Key, Job>, sid: Text)
    requires Lighter(a, b)
    ensures LargeTotal(b) <= LargeTotal(a) && LargeOf(b, sid) <= LargeOf(a, sid)
  {
    hide Sum;
    SumBound(a, a.Keys, LargeWeight(), b, b.Keys, LargeWeight());
    SumBound(a, Own(a, sid), LargeWeight(), b, Own(b, sid), LargeWeight());
  }

  lemma WeightsStay(w: World, v: World)
    requires Weights(w) && Lighter(w.disk.jobs, v.disk.jobs) && SameTask(w, v)
    ensures Weights(v)
  {
    hide Lighter, LargeTotal, LargeOf;
    forall sid
      ensures LargeTotal(v.disk.jobs) <= LargeTotal(w.disk.jobs)
      ensures LargeOf(v.disk.jobs, sid) <= LargeOf(w.disk.jobs, sid)
    {
      LighterSums(w.disk.jobs, v.disk.jobs, sid);
    }
    assert LargeTotal(v.disk.jobs) <= LargeTotal(w.disk.jobs) by { LighterSums(w.disk.jobs, v.disk.jobs, []); }
  }

  lemma AvailableFits(jobs: map<Key, Job>, sid: Text)
    ensures Fits(jobs, sid, Available(jobs, sid))
  {
    hide Sum;
    SumBound(jobs, jobs.Keys, SizeWeight(), jobs, jobs.Keys, LargeWeight());
    SumBound(jobs, Own(jobs, sid), SizeWeight(), jobs, Own(jobs, sid), LargeWeight());
  }

  /** The job in flight is marked done with what it was given room for, or with less than a small reply. */
  lemma MarkedFits(a: map<Key, Job>, b: map<Key, Job>, key: Key, available: int, sid: Text)
    requires key in a && key in b && a[key].size == 0 && b == a[key := b[key]]
    requires Fits(a, key.sid, available) && (b[key].size > SMALL_REPLY ==> b[key].size <= available)
    requires LargeTotal(a) <= TOTAL_BYTES && LargeOf(a, sid) <= SESSION_BYTES
    ensures LargeTotal(b) <= TOTAL_BYTES && LargeOf(b, sid) <= SESSION_BYTES
  {
    hide Sum;
    SumTake(b, b.Keys, LargeWeight(), key);
    SumBound(a, a.Keys, LargeWeight(), b, b.Keys - {key}, LargeWeight());
    if sid == key.sid {
      SumTake(b, Own(b, sid), LargeWeight(), key);
      SumBound(a, Own(a, sid), LargeWeight(), b, Own(b, sid) - {key}, LargeWeight());
    } else {
      SumBound(a, Own(a, sid), LargeWeight(), b, Own(b, sid), LargeWeight());
    }
  }

  lemma CompleteWeighs(w: World, v: World, key: Key)
    requires Weights(w) && w.process.worker != Free && w.process.worker.key == key && v.process.worker == Free
    requires key in w.disk.jobs && w.disk.jobs[key].size == 0 && key in v.disk.jobs
    requires v.disk.jobs == w.disk.jobs[key := v.disk.jobs[key]]
    requires v.disk.jobs[key].size > SMALL_REPLY ==> v.disk.jobs[key].size <= w.process.worker.available
    ensures Weights(v)
  {
    hide LargeTotal, LargeOf;
    forall sid ensures LargeTotal(v.disk.jobs) <= TOTAL_BYTES && LargeOf(v.disk.jobs, sid) <= SESSION_BYTES {
      MarkedFits(w.disk.jobs, v.disk.jobs, key, w.process.worker.available, sid);
    }
    assert LargeTotal(v.disk.jobs) <= TOTAL_BYTES by {
      MarkedFits(w.disk.jobs, v.disk.jobs, key, w.process.worker.available, []);
    }
  }

  // ---- Sizes of what is about to be marked ----

  ghost predicate ShortFile(w: World, key: Key, limit: int) { key in w.disk.files ==> |w.disk.files[key]| <= limit }

  /** Unanswered jobs retain nothing; a small reply is written inline and on recovery, and
      the worker stays within what it was given. */
  ghost predicate Sizes(w: World) {
    && (forall k :: k in w.disk.jobs ==> IsId(k.id) && (w.disk.jobs[k].phase != Done ==> w.disk.jobs[k].size == 0))
    && (w.process.control.Marking? ==> ShortFile(w, w.process.control.key, SMALL_REPLY))
    && (w.process.control.Remarking? ==> ShortFile(w, w.process.control.key, SMALL_REPLY))
    && (w.process.worker.Ready? ==>
          var available := w.process.worker.available;
          ShortFile(w, w.process.worker.key, if available < MIN_LIMIT then MIN_LIMIT else available))
  }

  /** Requests are only admitted under an id of the form the parser demands. */
  ghost predicate Lawful(g: Gateway) {
    forall text ::
      && (g.read(text).Order? ==> IsId(g.read(text).id))
      && (g.read(text).Replay? ==> IsId(g.read(text).id))
  }

  lemma RecoverySize(id: Text)
    requires IsId(id)
    ensures |Lines(RecoveryLog(id))| <= SMALL_REPLY
  {
    hide Dump, Ascii, Escape;
    var frame := Numbered(ErrorRecord(id, OUTCOME_UNKNOWN), 0);
    ErrorSize(id, OUTCOME_UNKNOWN, 0);
    EscapeSize(OUTCOME_UNKNOWN.code);
    EscapeSize(OUTCOME_UNKNOWN.message);
    assert |OUTCOME_UNKNOWN.code| + |OUTCOME_UNKNOWN.message| < 100;
    assert [frame][..0] == [];
    assert Lines([frame]) == Lines([]) + Dump(frame) + [NEWLINE];
  }

  /** What an action that hands nothing over and takes nothing back leaves of a budget. */
  ghost predicate Frugal(w: World, v: World) {
    NothingNew(w, v) && Sizes(v) && Lighter(w.disk.jobs, v.disk.jobs) && SameTask(w, v)
  }

  lemma FrugalStays(w: World, v: World)
    requires Quotas(w) && Weights(w) && Frugal(w, v)
    ensures Quotas(v) && Weights(v)
  {
    hide Quotas, Weights, Lighter, SameTask, NothingNew;
    QuotasStay(w, v);
    WeightsStay(w, v);
  }

  lemma OutsideFrugal(w: World, a: Action)
    requires Outside(a) && OutsideEnabled(w, a) && Ledger(w) && OneAtATime(w) && Logs(w) && Sizes(w)
    ensures Frugal(w, OutsideNext(w, a))
  {
    hide Lines, Available, IsLog, BodyTotal, JobCount, Dump, Decide, RecoveryLog, HasRoom, LineFile.FirstLine,
         LineFile.Boundary, IsId, Sum;
  }

  lemma RecoverOpenFrugal(w: World, a: Action)
    requires a.RecoverOpen? && RecoveryEnabled(w, a) && Ledger(w) && OneAtATime(w) && Logs(w) && Sizes(w)
    ensures Frugal(w, RecoveryNext(w, a))
  {
    hide Lines, Available, IsLog, BodyTotal, JobCount, Dump, Decide, RecoveryLog, HasRoom, LineFile.FirstLine,
         LineFile.Boundary, IsId, Sum;
  }

  lemma RecoverWriteFrugal(w: World, a: Action)
    requires a.RecoverWrite? && RecoveryEnabled(w, a) && Ledger(w) && OneAtATime(w) && Logs(w) && Sizes(w)
    ensures Frugal(w, RecoveryNext(w, a))
  {
    hide Lines, Available, IsLog, BodyTotal, JobCount, Dump, Decide, RecoveryLog, HasRoom, LineFile.FirstLine,
         LineFile.Boundary, IsId, Sum;
    RecoverySize(w.process.control.key.id);
  }

  lemma RecoverMarkFrugal(w: World, a: Action)
    requires a.RecoverMark? && RecoveryEnabled(w, a) && Ledger(w) && OneAtATime(w) && Logs(w) && Sizes(w)
    ensures Frugal(w, RecoveryNext(w, a))
  {
    hide Lines, Available, IsLog, BodyTotal, JobCount, Dump, Decide, RecoveryLog, HasRoom, LineFile.FirstLine,
         LineFile.Boundary, IsId, Sum;
  }

  lemma RecoverEndFrugal(w: World, a: Action)
    requires a.RecoverEnd? && RecoveryEnabled(w, a) && Ledger(w) && OneAtATime(w) && Logs(w) && Sizes(w)
    ensures Frugal(w, RecoveryNext(w, a))
  {
    hide Lines, Available, IsLog, BodyTotal, JobCount, Dump, Decide, RecoveryLog, HasRoom, LineFile.FirstLine,
         LineFile.Boundary, IsId, Sum;
  }

  lemma SweepEndFrugal(w: World, a: Action)
    requires a.SweepEnd? && RecoveryEnabled(w, a) && Ledger(w) && OneAtATime(w) && Logs(w) && Sizes(w)
    ensures Frugal(w, RecoveryNext(w, a))
  {
    hide Lines, Available, IsLog, BodyTotal, JobCount, Dump, Decide, RecoveryLog, HasRoom, LineFile.FirstLine,
         LineFile.Boundary, IsId, Sum;
  }

  lemma CleanupFrugal(w: World, a: Action)
    requires Cleanup(a) && CleanupEnabled(w, a) && Ledger(w) && OneAtATime(w) && Logs(w) && Sizes(w)
    ensures Frugal(w, CleanupNext(w, a))
  {
    hide Lines, Available, IsLog, BodyTotal, JobCount, Dump, Decide, RecoveryLog, HasRoom, LineFile.FirstLine,
         LineFile.Boundary, IsId, Sum;
  }

  lemma StartFrugal(w: World, a: Action)
    requires a.Start? && InlineJobEnabled(w, a) && Ledger(w) && OneAtATime(w) && Logs(w) && Sizes(w)
    ensures Frugal(w, InlineJobNext(w, a))
  {
    hide Lines, Available, IsLog, BodyTotal, JobCount, Dump, Decide, RecoveryLog, HasRoom, LineFile.FirstLine,
         LineFile.Boundary, IsId, Sum;
  }

  lemma TearFrugal(w: World, a: Action)
    requires a.Tear? && InlineJobEnabled(w, a) && Ledger(w) && OneAtATime(w) && Logs(w) && Sizes(w)
    ensures Frugal(w, InlineJobNext(w, a))
  {
    hide Lines, Available, IsLog, BodyTotal, JobCount, Dump, Decide, RecoveryLog, HasRoom, LineFile.FirstLine,
         LineFile.Boundary, IsId, Sum;
  }

  lemma RunInlineFrugal(w: World, a: Action)
    requires a.RunInline? && InlineJobEnabled(w, a) && Ledger(w) && OneAtATime(w) && Logs(w) && Sizes(w)
    ensures Frugal(w, InlineJobNext(w, a))
  {
    hide Lines, Available, IsLog, BodyTotal, JobCount, Dump, Decide, RecoveryLog, HasRoom, LineFile.FirstLine,
         LineFile.Boundary, IsId, Sum;
  }

  lemma SpoolInlineFrugal(w: World, a: Action)
    requires a.SpoolInline? && InlineJobEnabled(w, a) && Ledger(w) && OneAtATime(w) && Logs(w) && Sizes(w)
    ensures Frugal(w, InlineJobNext(w, a))
  {
    hide Lines, Available, IsLog, BodyTotal, JobCount, Dump, Decide, RecoveryLog, HasRoom, LineFile.FirstLine,
         LineFile.Boundary, IsId, Sum;
  }

  lemma MarkFrugal(w: World, a: Action)
    requires a.Mark? && InlineJobEnabled(w, a) && Ledger(w) && OneAtATime(w) && Logs(w) && Sizes(w)
    ensures Frugal(w, InlineJobNext(w, a))
  {
    hide Lines, Available, IsLog, BodyTotal, JobCount, Dump, Decide, RecoveryLog, HasRoom, LineFile.FirstLine,
         LineFile.Boundary, IsId, Sum;
  }

  lemma DeliveryFrugal(w: World, a: Action)
    requires Delivery(a) && DeliveryEnabled(w, a) && Ledger(w) && OneAtATime(w) && Logs(w) && Sizes(w)
    ensures Frugal(w, DeliveryNext(w, a))
  {
    hide Lines, Available, IsLog, BodyTotal, JobCount, Dump, Decide, RecoveryLog, HasRoom, LineFile.FirstLine,
         LineFile.Boundary, IsId, Sum;
  }

  lemma RunWorkerFrugal(w: World, a: Action)
    requires a.RunWorker? && WorkerJobEnabled(w, a) && Ledger(w) && OneAtATime(w) && Logs(w) && Sizes(w)
    ensures Frugal(w, WorkerJobNext(w, a))
  {
    hide Lines, Available, IsLog, BodyTotal, JobCount, Dump, Decide, RecoveryLog, HasRoom, LineFile.FirstLine,
         LineFile.Boundary, IsId, Sum;
  }

  lemma SpoolWorkerFrugal(w: World, a: Action)
    requires a.SpoolWorker? && WorkerJobEnabled(w, a) && Ledger(w) && OneAtATime(w) && Logs(w) && Sizes(w)
    ensures Frugal(w, WorkerJobNext(w, a))
  {
    hide Lines, Available, IsLog, BodyTotal, JobCount, Dump, Decide, RecoveryLog, HasRoom, LineFile.FirstLine,
         LineFile.Boundary, IsId, Sum;
  }

  lemma SubmitBudget(w: World, a: Action)
    requires a.Submit? && WorkerJobEnabled(w, a) && Ledger(w) && OneAtATime(w) && Logs(w) && Sizes(w) && Quotas(w)
    requires Weights(w)
    ensures var v := WorkerJobNext(w, a); Sizes(v) && Quotas(v) && Weights(v)
  {
    hide Lines, Available, IsLog, BodyTotal, JobCount, Dump, Decide, RecoveryLog, HasRoom, LineFile.FirstLine,
         LineFile.Boundary, IsId, Sum;
    AvailableFits(w.disk.jobs, w.process.control.key.sid);
  }

  lemma CompleteBudget(w: World, a: Action)
    requires a.Complete? && WorkerJobEnabled(w, a) && Ledger(w) && OneAtATime(w) && Logs(w) && Sizes(w) && Quotas(w)
    requires Weights(w)
    ensures var v := WorkerJobNext(w, a); Sizes(v) && Quotas(v) && Weights(v)
  {
    hide Quotas, Weights;
    hide Lines, Available, IsLog, BodyTotal, JobCount, Dump, Decide, RecoveryLog, HasRoom, LineFile.FirstLine,
         LineFile.Boundary, IsId, Sum;
    var v := WorkerJobNext(w, a);
    QuotasStay(w, v);
    CompleteWeighs(w, v, w.process.worker.key);
  }

  lemma InsertBudget(w: World, sid: Text, entry: Entry, decision: Decision, outcome: Publish, reply: Json)
    requires Decided(w, sid, decision) && decision.Insert? && IsId(decision.key.id) && Serving(w) && Ledger(w)
    requires OneAtATime(w) && Logs(w) && Sizes(w) && Quotas(w) && Weights(w)
    ensures var v := DoReceive(w, sid, entry, decision, outcome, reply); Sizes(v) && Quotas(v) && Weights(v)
  {
    hide Quotas, Weights;
    hide Lines, Available, IsLog, BodyTotal, JobCount, Dump, Decide, RecoveryLog, HasRoom, LineFile.FirstLine,
         LineFile.Boundary, IsId, Sum;
    var v := DoReceive(w, sid, entry, decision, outcome, reply);
    QuotasInsert(w, v, decision.key, v.disk.jobs[decision.key]);
    WeightsStay(w, v);
  }

  lemma ReceiveFrugal(w: World, sid: Text, entry: Entry, decision: Decision, outcome: Publish, reply: Json)
    requires Decided(w, sid, decision) && !decision.Insert? && Serving(w) && Ledger(w) && OneAtATime(w) && Logs(w)
    requires Sizes(w)
    ensures Frugal(w, DoReceive(w, sid, entry, decision, outcome, reply))
  {
    hide Lines, Available, IsLog, BodyTotal, JobCount, Dump, Decide, RecoveryLog, HasRoom, LineFile.FirstLine,
         LineFile.Boundary, IsId, Sum;
  }

  /** Only a request with a valid id is inserted. */
  lemma InsertsIds(g: Gateway, w: World, sid: Text, text: Text)
    requires Lawful(g)
    ensures var d := Decide(g, w, sid, text); d.Insert? ==> IsId(d.key.id)
  {
    hide BodyTotal, JobCount, IsId;
  }

  lemma QuotasRegister(w: World, v: World, sid: Text, expires: int)
    requires Quotas(w) && |w.disk.sessions| < MAX_SESSIONS
    requires v.disk.jobs == w.disk.jobs && v.disk.sessions == w.disk.sessions[sid := expires]
    ensures Quotas(v)
  {
    hide BodyTotal, JobCount;
    assert v.disk.sessions.Keys == w.disk.sessions.Keys + {sid};
    assert |v.disk.sessions.Keys| == |v.disk.sessions| && |w.disk.sessions.Keys| == |w.disk.sessions|;
  }

  lemma RegisterBudget(g: Gateway, w: World, a: Action)
    requires a.Register? && AdmissionEnabled(g, w, a) && Ledger(w) && OneAtATime(w) && Logs(w) && Sizes(w) && Quotas(w)
    requires Weights(w)
    ensures var v := AdmissionNext(g, w, a); Sizes(v) && Quotas(v) && Weights(v)
  {
    hide Quotas, Weights, Ledger, OneAtATime, Logs, Decide, DoReceive, IsId;
    var v := AdmissionNext(g, w, a);
    QuotasRegister(w, v, a.sid, w.now + LEASE);
    WeightsStay(w, v);
  }

  lemma RemoveFrugal(w: World, gone: bool)
    requires w.process.control.Removing? && Ledger(w) && OneAtATime(w) && Logs(w) && Sizes(w)
    ensures Frugal(w, DoRemove(w, gone))
  {
    hide Lines, Available, IsLog, BodyTotal, JobCount, Dump, Decide, RecoveryLog, HasRoom, LineFile.FirstLine,
         LineFile.Boundary, IsId, Sum;
  }

  lemma AdmissionBudget(g: Gateway, w: World, a: Action)
    requires Lawful(g) && Admission(a) && AdmissionEnabled(g, w, a) && Ledger(w) && OneAtATime(w) && Logs(w) && Sizes(w)
    requires Quotas(w) && Weights(w)
    ensures var v := AdmissionNext(g, w, a); Sizes(v) && Quotas(v) && Weights(v)
  {
    hide DoReceive, DoRemove, Ledger, OneAtATime, Logs, Sizes, Quotas, Weights, Frugal, Decide, Lawful;
    var v := AdmissionNext(g, w, a);
    if a.Receive? {
      var entry := RequestsOf(w, a.sid)[0];
      var decision := Decide(g, w, a.sid, entry.body);
      DecideFacts(g, w, a.sid, entry.body);
      InsertsIds(g, w, a.sid, entry.body);
      if decision.Insert? {
        InsertBudget(w, a.sid, entry, decision, a.outcome, a.reply);
      } else {
        ReceiveFrugal(w, a.sid, entry, decision, a.outcome, a.reply);
        FrugalSizes(w, v);
        FrugalStays(w, v);
      }
    } else if a.Register? {
      RegisterBudget(g, w, a);
    } else {
      RemoveFrugal(w, a.gone);
      FrugalSizes(w, v);
      FrugalStays(w, v);
    }
  }

  lemma FrugalSizes(w: World, v: World)
    requires Frugal(w, v)
    ensures Sizes(v)
  {
    hide Sizes, Lighter, SameTask, NothingNew;
  }

  lemma RecoveryFrugal(w: World, a: Action)
    requires Recovery(a) && RecoveryEnabled(w, a) && Ledger(w) && OneAtATime(w) && Logs(w) && Sizes(w)
    ensures Frugal(w, RecoveryNext(w, a))
  {
    hide RecoveryNext, RecoveryEnabled, Ledger, OneAtATime, Logs, Sizes, Frugal;
    if a.RecoverOpen? {
      RecoverOpenFrugal(w, a);
    } else if a.RecoverWrite? {
      RecoverWriteFrugal(w, a);
    } else if a.RecoverMark? {
      RecoverMarkFrugal(w, a);
    } else if a.RecoverEnd? {
      RecoverEndFrugal(w, a);
    } else {
      SweepEndFrugal(w, a);
    }
  }

  lemma InlineJobFrugal(w: World, a: Action)
    requires InlineJob(a) && InlineJobEnabled(w, a) && Ledger(w) && OneAtATime(w) && Logs(w) && Sizes(w)
    ensures Frugal(w, InlineJobNext(w, a))
  {
    hide InlineJobNext, InlineJobEnabled, Ledger, OneAtATime, Logs, Sizes, Frugal;
    if a.Start? {
      StartFrugal(w, a);
    } else if a.Tear? {
      TearFrugal(w, a);
    } else if a.RunInline? {
      RunInlineFrugal(w, a);
    } else if a.SpoolInline? {
      SpoolInlineFrugal(w, a);
    } else {
      MarkFrugal(w, a);
    }
  }

  ghost predicate Budget(w: World) { Sizes(w) && Quotas(w) && Weights(w) }

  lemma BudgetKept(g: Gateway, w: World, a: Action)
    requires Lawful(g) && Enabled(g, w, a) && Ledger(w) && OneAtATime(w) && Logs(w) && Budget(w)
    ensures Budget(Next(g, w, a))
  {
    hide Ledger, OneAtATime, Logs, Sizes, Quotas, Weights, Frugal, Lawful;
    hide OutsideNext, RecoveryNext, CleanupNext, AdmissionNext, InlineJobNext, WorkerJobNext, DeliveryNext;
    hide OutsideEnabled, RecoveryEnabled, CleanupEnabled, AdmissionEnabled, InlineJobEnabled, WorkerJobEnabled,
         DeliveryEnabled;
    var v := Next(g, w, a);
    if Admission(a) {
      AdmissionBudget(g, w, a);
    } else if a.Submit? {
      SubmitBudget(w, a);
    } else if a.Complete? {
      CompleteBudget(w, a);
    } else {
      if Outside(a) {
        OutsideFrugal(w, a);
      } else if Recovery(a) {
        RecoveryFrugal(w, a);
      } else if Cleanup(a) {
        CleanupFrugal(w, a);
      } else if InlineJob(a) {
        InlineJobFrugal(w, a);
      } else if a.RunWorker? {
        RunWorkerFrugal(w, a);
      } else if a.SpoolWorker? {
        SpoolWorkerFrugal(w, a);
      } else {
        DeliveryFrugal(w, a);
      }
      FrugalSizes(w, v);
      FrugalStays(w, v);
    }
  }

  // ---- What that bounds ----

  /** Every row belongs to one of at most 32 sessions. */
  lemma {:induction false} JobsBySession(jobs: map<Key, Job>, sids: set<Text>)
    requires forall sid :: JobCount(jobs, sid) <= JOBS_PER_SESSION
    ensures |set k | k in jobs && k.sid in sids| <= JOBS_PER_SESSION * |sids|
    decreases |sids|
  {
    if sids == {} {
      assert (set k | k in jobs && k.sid in sids) == {};
    } else {
      var sid :| sid in sids;
      JobsBySession(jobs, sids - {sid});
      assert (set k | k in jobs && k.sid in sids) == (set k | k in jobs && k.sid in sids - {sid}) + Own(jobs, sid);
      assert |Own(jobs, sid)| == JobCount(jobs, sid);
    }
  }

  /** Retained responses: 256 MiB in all and 64 MiB a session, and 4 KiB a job; 4096 jobs at most. */
  lemma RetainedBytes(w: World, sid: Text)
    requires Ledger(w) && Budget(w)
    ensures SizeTotal(w.disk.jobs) <= TOTAL_BYTES + SMALL_REPLY * |w.disk.jobs|
    ensures SessionSize(w.disk.jobs, sid) <= SESSION_BYTES + SMALL_REPLY * JobCount(w.disk.jobs, sid)
    ensures |w.disk.jobs| <= MAX_SESSIONS * JOBS_PER_SESSION
  {
    hide Sum;
    var jobs := w.disk.jobs;
    SumExcess(jobs, jobs.Keys, LargeWeight(), SizeWeight(), SMALL_REPLY);
    SumExcess(jobs, Own(jobs, sid), LargeWeight(), SizeWeight(), SMALL_REPLY);
    assert |jobs.Keys| == |jobs| && |Own(jobs, sid)| == JobCount(jobs, sid);
    assert LargeOf(jobs, sid) <= SESSION_BYTES;
    JobsBySession(jobs, w.disk.sessions.Keys);
    assert jobs.Keys == set k | k in jobs && k.sid in w.disk.sessions.Keys;
    assert |w.disk.sessions.Keys| == |w.disk.sessions|;
  }
}
