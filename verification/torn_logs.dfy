/** Why a finished job is only certain of its log while its lease lasts or the gateway
    serves: an interrupted clean-up, and an interrupted recovery after it, tear the file. */
module TornLogs {
  import opened Text
  import opened JsonText
  import opened Frames
  import opened Sums
  import opened Journal
  import opened JournalSafety
  import opened JournalBudget
  import opened SpoolBudget
  import opened JournalLogs
  import LineFile

  lemma AfterMore(g: Gateway, actions: seq<Action>, a: Action)
    ensures After(g, actions + [a]) == Step(g, After(g, actions), a)
  {
    hide Step;
    assert (actions + [a])[..|actions|] == actions;
  }

  // ---- From any run on ----

  /** The clean-up of a session is interrupted after the file is gone, and so is the
      recovery that writes it again, with `torn` in the file. */
  function Tear(key: Key, torn: Text): seq<Action> {
    [CleanBegin(key.sid), CleanUnlink(key), Crash, Boot, RecoverOpen(key, torn), Crash]
  }

  /** The main thread is idle, and the session of this finished job is due for clean-up. */
  predicate Due(w: World, key: Key) {
    && w.process.control == Idle && key in w.disk.jobs && w.disk.jobs[key].phase == Done
    && key.sid in w.disk.sessions && w.disk.sessions[key.sid] <= w.now && !Active(w, key.sid)
  }

  /** The job is still recorded as finished and its session still exists, but nobody has
      cleaned up since, and the file holds these bytes. */
  predicate Torn(w: World, key: Key, torn: Text) {
    && key in w.disk.jobs && w.disk.jobs[key].phase == Done
    && key in w.disk.files && w.disk.files[key] == torn
    && key.sid in w.disk.sessions && Exposed(w, key.sid)
  }

  /** Every finished job whose lease has run out can lose its log to any bytes at all. */
  lemma ExpiredJobTears(g: Gateway, actions: seq<Action>, key: Key, torn: Text)
    requires Due(After(g, actions), key)
    ensures Torn(After(g, actions + Tear(key, torn)), key, torn)
  {
    hide After, Step;
    var w0 := After(g, actions);
    var w1 := Step(g, w0, CleanBegin(key.sid));
    var w2 := Step(g, w1, CleanUnlink(key));
    var w3 := Step(g, w2, Crash);
    var w4 := Step(g, w3, Boot);
    var w5 := Step(g, w4, RecoverOpen(key, torn));
    var w6 := Step(g, w5, Crash);
    AfterMore(g, actions, CleanBegin(key.sid));
    AfterMore(g, actions + [CleanBegin(key.sid)], CleanUnlink(key));
    AfterMore(g, actions + [CleanBegin(key.sid)] + [CleanUnlink(key)], Crash);
    AfterMore(g, actions + [CleanBegin(key.sid)] + [CleanUnlink(key)] + [Crash], Boot);
    AfterMore(g, actions + [CleanBegin(key.sid)] + [CleanUnlink(key)] + [Crash] + [Boot], RecoverOpen(key, torn));
    AfterMore(g, actions + [CleanBegin(key.sid)] + [CleanUnlink(key)] + [Crash] + [Boot]
              + [RecoverOpen(key, torn)], Crash);
    assert actions + [CleanBegin(key.sid)] + [CleanUnlink(key)] + [Crash] + [Boot] + [RecoverOpen(key, torn)] + [Crash]
        == actions + Tear(key, torn);
    Unlinked(g, w0, key);
    Rewritten(g, w2, key, torn);
  }

  lemma Unlinked(g: Gateway, w: World, key: Key)
    requires Due(w, key)
    ensures var v := Step(g, Step(g, w, CleanBegin(key.sid)), CleanUnlink(key));
            v.disk == w.disk.(files := w.disk.files - {key}) && v.now == w.now && v.process.control == Cleaning(key.sid)
  {
  }

  lemma Rewritten(g: Gateway, w: World, key: Key, torn: Text)
    requires key in w.disk.jobs && w.disk.jobs[key].phase == Done && key !in w.disk.files
    ensures var v := Step(g, Step(g, Step(g, Step(g, w, Crash), Boot), RecoverOpen(key, torn)), Crash);
            v.disk == w.disk.(files := w.disk.files[key := torn]) && v.now == w.now && v.process.control == Down
              && !v.process.swept
  {
  }

  // ---- A run that gets there ----

  /** One request is sent, accepted, refused by a handler, and its lease runs out. */
  function Admitted(sid: Text, text: Text): seq<Action> {
    [Boot] + [RecoverEnd] + [SweepEnd] + [Register(sid)] + [Send(sid, text)] + [Receive(sid, Refused, Null)]
      + [Remove(true)]
  }

  function Expired(sid: Text, text: Text, id: Text): seq<Action> {
    Admitted(sid, text) + [Start(Key(sid, id))] + [SpoolInline(RecoveryLog(id))] + [Mark] + [Tick(LEASE)]
  }

  /** An idle gateway with one session, one job and no file yet. */
  predicate Alone(w: World, sid: Text, job: Job, files: map<Key, Text>, id: Text) {
    && w.process == Process(Idle, Free, 0, true) && w.now == 0
    && w.disk.sessions == map[sid := LEASE] && w.disk.jobs == map[Key(sid, id) := job] && w.disk.files == files
  }

  lemma Opened(g: Gateway, sid: Text)
    ensures var w := After(g, [Boot] + [RecoverEnd] + [SweepEnd] + [Register(sid)]);
            && w.process == Process(Idle, Free, 0, true) && w.now == 0 && w.redis == NOTHING.redis
            && w.disk == Disk(map[sid := LEASE], map[], 0, map[])
  {
    hide After, Step;
    AfterMore(g, [], Boot);
    AfterMore(g, [Boot], RecoverEnd);
    AfterMore(g, [Boot] + [RecoverEnd], SweepEnd);
    AfterMore(g, [Boot] + [RecoverEnd] + [SweepEnd], Register(sid));
    assert [] + [Boot] == [Boot];
    Started(g);
    Registered(g, Step(g, Step(g, Step(g, NOTHING, Boot), RecoverEnd), SweepEnd), sid);
    assert After(g, []) == NOTHING by { NothingYet(g); }
  }

  lemma NothingYet(g: Gateway)
    ensures After(g, []) == NOTHING
  {
  }

  lemma Started(g: Gateway)
    ensures Step(g, Step(g, Step(g, NOTHING, Boot), RecoverEnd), SweepEnd)
         == NOTHING.(process := Process(Idle, Free, 0, true))
  {
  }

  lemma Registered(g: Gateway, w: World, sid: Text)
    requires w == NOTHING.(process := Process(Idle, Free, 0, true))
    ensures var v := Step(g, w, Register(sid));
            v.process == w.process && v.now == 0 && v.redis == w.redis
              && v.disk == Disk(map[sid := LEASE], map[], 0, map[])
  {
  }

  lemma DecideFirst(g: Gateway, w: World, sid: Text, text: Text, id: Text, body: Text)
    requires g.read(text) == Order(id, body) && |body| <= RETAINED_BODIES && w.disk.jobs == map[]
    ensures Decide(g, w, sid, text) == Insert(Key(sid, id), body)
  {
    var jobs := w.disk.jobs;
    assert jobs.Keys == {};
    assert JobCount(jobs, sid) == 0 by {
      assert (set k | k in jobs && k.sid == sid) == {};
    }
  }

  lemma Taken(g: Gateway, w: World, sid: Text, text: Text, id: Text, body: Text)
    requires g.read(text) == Order(id, body) && |body| <= RETAINED_BODIES
    requires w.process == Process(Idle, Free, 0, true) && w.now == 0 && w.redis == NOTHING.redis
    requires w.disk == Disk(map[sid := LEASE], map[], 0, map[])
    ensures Alone(Step(g, Step(g, Step(g, w, Send(sid, text)), Receive(sid, Refused, Null)), Remove(true)),
                  sid, Job(0, body, Queued, 0, 0), map[], id)
  {
    hide BodyTotal, JobCount, Decide, Dump, LineFile.FirstLine, IsLog, Lines, Available;
    var v := Step(g, w, Send(sid, text));
    DecideFirst(g, v, sid, text, id, body);
  }

  lemma AdmittedIsQueued(g: Gateway, sid: Text, text: Text, id: Text, body: Text)
    requires g.read(text) == Order(id, body) && |body| <= RETAINED_BODIES
    ensures Alone(After(g, Admitted(sid, text)), sid, Job(0, body, Queued, 0, 0), map[], id)
  {
    hide After, Step, Alone;
    Opened(g, sid);
    var first := [Boot] + [RecoverEnd] + [SweepEnd] + [Register(sid)];
    AfterMore(g, first, Send(sid, text));
    AfterMore(g, first + [Send(sid, text)], Receive(sid, Refused, Null));
    AfterMore(g, first + [Send(sid, text)] + [Receive(sid, Refused, Null)], Remove(true));
    Taken(g, After(g, first), sid, text, id, body);
  }

  lemma Answer(g: Gateway, w: World, sid: Text, id: Text, body: Text)
    requires Alone(w, sid, Job(0, body, Queued, 0, 0), map[], id) && IsId(id)
    ensures Due(Step(g, Step(g, Step(g, Step(g, w, Start(Key(sid, id))), SpoolInline(RecoveryLog(id))), Mark),
                     Tick(LEASE)), Key(sid, id))
  {
    hide BodyTotal, JobCount, Decide, Dump, LineFile.FirstLine, IsLog, Lines, Available, RecoveryLog, IsId;
    RecoveryIsLog(id);
    RecoverySize(id);
  }

  /** Such a job exists as soon as one request can be read. */
  lemma ExpiredIsDue(g: Gateway, sid: Text, text: Text, id: Text, body: Text)
    requires g.read(text) == Order(id, body) && |body| <= RETAINED_BODIES && IsId(id)
    ensures Due(After(g, Expired(sid, text, id)), Key(sid, id))
  {
    hide After, Step, Alone, Due, Admitted, RecoveryLog, IsId;
    var key := Key(sid, id);
    AdmittedIsQueued(g, sid, text, id, body);
    var first := Admitted(sid, text);
    AfterMore(g, first, Start(key));
    AfterMore(g, first + [Start(key)], SpoolInline(RecoveryLog(id)));
    AfterMore(g, first + [Start(key)] + [SpoolInline(RecoveryLog(id))], Mark);
    AfterMore(g, first + [Start(key)] + [SpoolInline(RecoveryLog(id))] + [Mark], Tick(LEASE));
    Answer(g, After(g, first), sid, id, body);
  }

  lemma NothingIsNoLog(w: World, key: Key)
    requires Torn(w, key, [])
    ensures !HoldsLog(w, key)
  {
    hide Dump;
  }

  /** So a crash can leave a job that is recorded as finished with half a log, or none. */
  lemma TornLogExists(g: Gateway, sid: Text, text: Text, id: Text, body: Text, torn: Text)
    requires g.read(text) == Order(id, body) && |body| <= RETAINED_BODIES && IsId(id)
    ensures var w := After(g, Expired(sid, text, id) + Tear(Key(sid, id), torn));
            Torn(w, Key(sid, id), torn) && (torn == [] ==> !HoldsLog(w, Key(sid, id)))
  {
    hide After, Due, Torn, IsId, Tear, Expired, HoldsLog;
    ExpiredIsDue(g, sid, text, id, body);
    ExpiredJobTears(g, Expired(sid, text, id), Key(sid, id), torn);
    if torn == [] {
      NothingIsNoLog(After(g, Expired(sid, text, id) + Tear(Key(sid, id), torn)), Key(sid, id));
    }
  }
}
