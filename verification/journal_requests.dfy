/** No request is lost: an entry leaves its stream only for a reason that already holds. */
module JournalRequests {
  import opened Text
  import opened JsonText
  import opened Frames
  import opened Journal
  import opened JournalRuns
  import LineFile

  /** The id a direct reply to this request carries. */
  function ReplyId(request: Request): Text { if request.Malformed? then INVALID else request.id }

  predicate IsJournaled(w: World, sid: Text, request: Request) {
    && (request.Order? || request.Replay?)
    && Key(sid, request.id) in w.history.accepted && w.history.accepted[Key(sid, request.id)] == request.body
  }

  predicate IsReplayed(w: World, sid: Text, request: Request) {
    request.Replay? && request.target.Some? && Key(sid, request.target.value) in w.history.accepted
  }

  predicate IsReplied(w: World, sid: Text, id: Text) {
    exists i :: 0 <= i < |PostsOf(w, sid)| && PostsOf(w, sid)[i].Direct? && PostsOf(w, sid)[i].id == id
  }

  /** Its body is the journaled body of its id, or it named a retained request to
      replay, or a reply to it was published. */
  predicate Justified(g: Gateway, w: World, sid: Text, entry: Entry, reason: Reason) {
    var request := g.read(entry.body);
    match reason
    case Journaled => IsJournaled(w, sid, request)
    case Replayed => IsReplayed(w, sid, request)
    case Replied(id) => id == ReplyId(request) && IsReplied(w, sid, id)
  }

  ghost predicate Conserved(g: Gateway, w: World) {
    && (forall i :: 0 <= i < |w.history.departures| ==>
          var d := w.history.departures[i]; Justified(g, w, d.sid, d.entry, d.reason))
    && (w.process.control.Removing? ==>
          Justified(g, w, w.process.control.sid, w.process.control.entry, w.process.control.reason))
  }

  /** Accepted bodies, published frames, executions and departures are never forgotten. */
  ghost predicate Grows(w: World, v: World) {
    && (forall k :: k in w.history.accepted ==>
          k in v.history.accepted && v.history.accepted[k] == w.history.accepted[k])
    && (forall sid :: PostsOf(w, sid) <= PostsOf(v, sid))
    && w.history.runs <= v.history.runs && w.history.starts <= v.history.starts
      && w.history.departures <= v.history.departures
  }

  ghost predicate KeepsRequests(w: World, v: World) { forall sid :: RequestsOf(w, sid) <= RequestsOf(v, sid) }

  lemma JustifiedStays(g: Gateway, w: World, v: World, sid: Text, entry: Entry, reason: Reason)
    requires Grows(w, v) && Justified(g, w, sid, entry, reason)
    ensures Justified(g, v, sid, entry, reason)
  {
    if reason.Replied? {
      var posts := PostsOf(w, sid);
      var i :| 0 <= i < |posts| && posts[i].Direct? && posts[i].id == reason.id;
      assert PostsOf(v, sid)[i] == posts[i];
    }
  }

  lemma ConservedStays(g: Gateway, w: World, v: World)
    requires Conserved(g, w) && Grows(w, v) && v.history.departures == w.history.departures
    requires v.process.control.Removing? ==> v.process.control == w.process.control
    ensures Conserved(g, v)
  {
    hide Justified, Grows;
    forall i | 0 <= i < |v.history.departures|
      ensures var d := v.history.departures[i]; Justified(g, v, d.sid, d.entry, d.reason)
    {
      var d := w.history.departures[i];
      JustifiedStays(g, w, v, d.sid, d.entry, d.reason);
    }
    if v.process.control.Removing? {
      JustifiedStays(g, w, v, w.process.control.sid, w.process.control.entry, w.process.control.reason);
    }
  }

  /** What admission decides is justified once its effect is in the journal. */
  lemma ReceiveJustified(g: Gateway, w: World, sid: Text, entry: Entry, outcome: Publish, reply: Json)
    requires sid in w.disk.sessions && Serving(w) && Ledger(w)
    ensures var v := DoReceive(w, sid, entry, Decide(g, w, sid, entry.body), outcome, reply);
            v.process.control.Removing? ==>
              v.process.control.sid == sid && v.process.control.entry == entry
              && Justified(g, v, sid, entry, v.process.control.reason)
  {
    hide BodyTotal, JobCount, Dump;
    var decision := Decide(g, w, sid, entry.body);
    var v := DoReceive(w, sid, entry, decision, outcome, reply);
    if decision.Reply? && outcome == Acked {
      var posts := PostsOf(v, sid);
      assert posts[|posts| - 1] == Direct(decision.id, Dump(reply));
    }
  }

  lemma ReceiveGrows(w: World, sid: Text, entry: Entry, decision: Decision, outcome: Publish, reply: Json)
    requires Decided(w, sid, decision) && Ledger(w)
    ensures KeepsRequests(w, DoReceive(w, sid, entry, decision, outcome, reply))
    ensures Grows(w, DoReceive(w, sid, entry, decision, outcome, reply))
    ensures DoReceive(w, sid, entry, decision, outcome, reply).history.departures == w.history.departures
  {
    hide BodyTotal, JobCount, Dump;
  }

  lemma OutsideGrows(w: World, a: Action)
    requires Outside(a) && OutsideEnabled(w, a)
    ensures (!a.Lapse? ==> KeepsRequests(w, OutsideNext(w, a))) && Grows(w, OutsideNext(w, a))
    ensures OutsideNext(w, a).history.departures == w.history.departures
    ensures OutsideNext(w, a).process.control.Removing? ==> OutsideNext(w, a).process.control == w.process.control
  {
    hide Lines, Available, IsLog, BodyTotal, JobCount, Dump, RecoveryLog, HasRoom, LineFile.FirstLine, Pending;
  }

  lemma RecoveryGrows(w: World, a: Action)
    requires Recovery(a) && RecoveryEnabled(w, a)
    ensures KeepsRequests(w, RecoveryNext(w, a)) && Grows(w, RecoveryNext(w, a))
    ensures RecoveryNext(w, a).history.departures == w.history.departures
    ensures RecoveryNext(w, a).process.control.Removing? ==> RecoveryNext(w, a).process.control == w.process.control
  {
    hide Lines, Available, IsLog, BodyTotal, JobCount, Dump, RecoveryLog, HasRoom, LineFile.FirstLine, Pending;
  }

  lemma CleanupGrows(w: World, a: Action)
    requires Cleanup(a) && CleanupEnabled(w, a)
    ensures Grows(w, CleanupNext(w, a)) && CleanupNext(w, a).history.departures == w.history.departures
    ensures CleanupNext(w, a).process.control.Removing? ==> CleanupNext(w, a).process.control == w.process.control
  {
    hide Lines, Available, IsLog, BodyTotal, JobCount, Dump, RecoveryLog, HasRoom, LineFile.FirstLine, Pending;
  }

  lemma InlineJobGrows(w: World, a: Action)
    requires InlineJob(a) && InlineJobEnabled(w, a)
    ensures KeepsRequests(w, InlineJobNext(w, a)) && Grows(w, InlineJobNext(w, a))
    ensures InlineJobNext(w, a).history.departures == w.history.departures
    ensures InlineJobNext(w, a).process.control.Removing? ==> InlineJobNext(w, a).process.control == w.process.control
  {
    hide Lines, Available, IsLog, BodyTotal, JobCount, Dump, RecoveryLog, HasRoom, LineFile.FirstLine, Pending;
  }

  lemma WorkerJobGrows(w: World, a: Action)
    requires WorkerJob(a) && WorkerJobEnabled(w, a)
    ensures KeepsRequests(w, WorkerJobNext(w, a)) && Grows(w, WorkerJobNext(w, a))
    ensures WorkerJobNext(w, a).history.departures == w.history.departures
    ensures WorkerJobNext(w, a).process.control.Removing? ==> WorkerJobNext(w, a).process.control == w.process.control
  {
    hide Lines, Available, IsLog, BodyTotal, JobCount, Dump, RecoveryLog, HasRoom, LineFile.FirstLine, Pending;
  }

  lemma DeliveryGrows(w: World, a: Action)
    requires Delivery(a) && DeliveryEnabled(w, a)
    ensures KeepsRequests(w, DeliveryNext(w, a)) && Grows(w, DeliveryNext(w, a))
    ensures DeliveryNext(w, a).history.departures == w.history.departures
    ensures DeliveryNext(w, a).process.control.Removing? ==> DeliveryNext(w, a).process.control == w.process.control
  {
    hide Lines, Available, IsLog, BodyTotal, JobCount, Dump, RecoveryLog, HasRoom, LineFile.FirstLine, Pending;
  }

  lemma AdmissionConserved(g: Gateway, w: World, a: Action)
    requires Admission(a) && AdmissionEnabled(g, w, a) && Ledger(w) && Conserved(g, w)
    ensures Conserved(g, AdmissionNext(g, w, a)) && Grows(w, AdmissionNext(g, w, a))
  {
    hide DoReceive, Decide, Justified, Conserved;
    var v := AdmissionNext(g, w, a);
    if a.Receive? {
      var entry := RequestsOf(w, a.sid)[0];
      DecideFacts(g, w, a.sid, entry.body);
      ReceiveGrows(w, a.sid, entry, Decide(g, w, a.sid, entry.body), a.outcome, a.reply);
      ReceiveJustified(g, w, a.sid, entry, a.outcome, a.reply);
      ConservedStays(g, w, WithControl(v, Idle));
      Rejoined(g, WithControl(v, Idle), v);
    } else if a.Register? {
      ConservedStays(g, w, v);
    } else {
      RemoveConserved(g, w, a);
    }
  }

  lemma Rejoined(g: Gateway, idle: World, v: World)
    requires idle == WithControl(v, Idle) && Conserved(g, idle)
    requires v.process.control.Removing? ==>
               Justified(g, v, v.process.control.sid, v.process.control.entry, v.process.control.reason)
    ensures Conserved(g, v)
  {
    hide Justified;
    forall i | 0 <= i < |v.history.departures|
      ensures var d := v.history.departures[i]; Justified(g, v, d.sid, d.entry, d.reason)
    {
      var d := idle.history.departures[i];
      JustifiedStays(g, idle, v, d.sid, d.entry, d.reason);
    }
  }

  lemma RemoveConserved(g: Gateway, w: World, a: Action)
    requires a.Remove? && AdmissionEnabled(g, w, a) && Conserved(g, w)
    ensures Conserved(g, AdmissionNext(g, w, a)) && Grows(w, AdmissionNext(g, w, a))
  {
    hide Justified, DoReceive, Decide;
    var v := AdmissionNext(g, w, a);
    forall i | 0 <= i < |v.history.departures|
      ensures var d := v.history.departures[i]; Justified(g, v, d.sid, d.entry, d.reason)
    {
      var d := v.history.departures[i];
      assert Justified(g, w, d.sid, d.entry, d.reason);
      JustifiedStays(g, w, v, d.sid, d.entry, d.reason);
    }
  }

  lemma ConservedKept(g: Gateway, w: World, a: Action)
    requires Enabled(g, w, a) && Ledger(w) && Conserved(g, w)
    ensures Conserved(g, Next(g, w, a)) && Grows(w, Next(g, w, a))
  {
    hide Ledger, Conserved, Grows;
    hide OutsideNext, RecoveryNext, CleanupNext, AdmissionNext, InlineJobNext, WorkerJobNext, DeliveryNext;
    hide OutsideEnabled, RecoveryEnabled, CleanupEnabled, AdmissionEnabled, InlineJobEnabled, WorkerJobEnabled,
         DeliveryEnabled;
    var v := Next(g, w, a);
    if Admission(a) {
      AdmissionConserved(g, w, a);
    } else {
      if Outside(a) {
        OutsideGrows(w, a);
      } else if Recovery(a) {
        RecoveryGrows(w, a);
      } else if Cleanup(a) {
        CleanupGrows(w, a);
      } else if InlineJob(a) {
        InlineJobGrows(w, a);
      } else if WorkerJob(a) {
        WorkerJobGrows(w, a);
      } else {
        DeliveryGrows(w, a);
      }
      ConservedStays(g, w, v);
    }
  }

  /** The deadline of the stream has passed: the gateway has not looked at it for the time of a lease. */
  predicate Lapses(w: World, a: Action, sid: Text) {
    a == Lapse(sid) && sid in w.redis.deadlines && w.redis.deadlines[sid] <= w.now
  }

  /** An entry is gone after an action only if its departure was recorded, its session is
      being cleaned up, or its whole stream was given up on. */
  lemma LeavesOnlyByRemoval(g: Gateway, w: World, a: Action, sid: Text, entry: Entry)
    requires Enabled(g, w, a) && Ledger(w) && entry in RequestsOf(w, sid) && entry !in RequestsOf(Next(g, w, a), sid)
    ensures || (a.Remove? && w.process.control.Removing? && w.process.control.sid == sid
                && w.process.control.entry == entry
                && Next(g, w, a).history.departures
                    == w.history.departures + [Departure(sid, entry, w.process.control.reason)])
            || (a.CleanStreams? && w.process.control == Cleaning(sid))
            || Lapses(w, a, sid)
  {
    hide Ledger, Grows, RequestsOf, Decide, DoReceive;
    hide OutsideNext, RecoveryNext, InlineJobNext, WorkerJobNext, DeliveryNext;
    hide OutsideEnabled, RecoveryEnabled, InlineJobEnabled, WorkerJobEnabled, DeliveryEnabled;
    if Outside(a) {
      OutsideGrows(w, a);
      LapseLeaves(w, a, sid);
    } else if Recovery(a) {
      RecoveryGrows(w, a);
    } else if Cleanup(a) {
      CleanupLeaves(w, a, sid);
    } else if Admission(a) {
      if a.Receive? {
        var first := RequestsOf(w, a.sid)[0];
        DecideFacts(g, w, a.sid, first.body);
        ReceiveGrows(w, a.sid, first, Decide(g, w, a.sid, first.body), a.outcome, a.reply);
      } else {
        RemovalLeaves(g, w, a, sid, entry);
      }
    } else if InlineJob(a) {
      InlineJobGrows(w, a);
    } else if WorkerJob(a) {
      WorkerJobGrows(w, a);
    } else {
      DeliveryGrows(w, a);
    }
  }

  lemma LapseLeaves(w: World, a: Action, sid: Text)
    requires Outside(a) && OutsideEnabled(w, a)
    ensures a.Lapse? ==> RequestsOf(OutsideNext(w, a), sid) == RequestsOf(w, sid) || Lapses(w, a, sid)
  {
  }

  lemma CleanupLeaves(w: World, a: Action, sid: Text)
    requires Cleanup(a) && CleanupEnabled(w, a)
    ensures RequestsOf(CleanupNext(w, a), sid) == RequestsOf(w, sid)
            || (a.CleanStreams? && w.process.control == Cleaning(sid))
  {
    hide Lines, Dump;
  }

  lemma RemovalLeaves(g: Gateway, w: World, a: Action, sid: Text, entry: Entry)
    requires (a.Remove? || a.Register?) && AdmissionEnabled(g, w, a)
    requires entry in RequestsOf(w, sid) && entry !in RequestsOf(AdmissionNext(g, w, a), sid)
    ensures a.Remove? && w.process.control.sid == sid && w.process.control.entry == entry
    ensures AdmissionNext(g, w, a).history.departures
         == w.history.departures + [Departure(sid, entry, w.process.control.reason)]
  {
    hide Decide, DoReceive, Dump;
  }
}
