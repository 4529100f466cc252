/** The gateway's main loop: every effect it has is a step of the machine, in the order the
    code has them, so whatever it does, crashes included, is a run of the machine. */
module Serving {
  import opened Text
  import opened JsonText
  import opened Frames
  import opened Sums
  import opened Journal
  import opened SpoolBudget
  import InlineReplies
  import LineFile

  ghost function Steps(g: Gateway, w: World, actions: seq<Action>): World
    decreases |actions|
  {
    if actions == [] then w else Step(g, Steps(g, w, actions[..|actions| - 1]), actions[|actions| - 1])
  }

  lemma StepsAppend(g: Gateway, w: World, actions: seq<Action>, a: Action)
    ensures Steps(g, w, actions + [a]) == Step(g, Steps(g, w, actions), a)
  {
    hide Step;
    assert (actions + [a])[..|actions|] == actions;
  }

  lemma {:induction false} StepsOn(g: Gateway, w: World, first: seq<Action>, more: seq<Action>)
    ensures Steps(g, w, first + more) == Steps(g, Steps(g, w, first), more)
    decreases |more|
  {
    hide Step;
    if more == [] {
      assert first + more == first;
    } else {
      var fewer, all := more[..|more| - 1], first + more;
      StepsOn(g, w, first, fewer);
      assert all[..|all| - 1] == first + fewer && all[|all| - 1] == more[|more| - 1];
    }
  }

  /** A server that starts in a reachable world stays in reachable worlds. */
  lemma {:induction false} StaysReachable(g: Gateway, before: seq<Action>, actions: seq<Action>)
    ensures Steps(g, After(g, before), actions) == After(g, before + actions)
    decreases |actions|
  {
    hide Step;
    if actions == [] {
      assert before + actions == before;
    } else {
      var fewer, a := actions[..|actions| - 1], actions[|actions| - 1];
      StaysReachable(g, before, fewer);
      assert before + actions == before + fewer + [a];
      assert (before + fewer + [a])[..|before + fewer|] == before + fewer;
    }
  }

  lemma NoSteps(g: Gateway, w: World)
    ensures Steps(g, w, []) == w
  {
  }

  lemma OneStep(g: Gateway, w: World, a: Action)
    ensures Steps(g, w, [a]) == Step(g, w, a)
  {
    hide Step;
    NoSteps(g, w);
    StepsAppend(g, w, [], a);
    assert [] + [a] == [a];
  }

  lemma ThreeSteps(g: Gateway, w: World, a: Action, b: Action, c: Action)
    ensures Steps(g, w, [a, b, c]) == Step(g, Step(g, Step(g, w, a), b), c)
  {
    hide Step;
    OneStep(g, w, a);
    StepsAppend(g, w, [a], b);
    StepsAppend(g, w, [a, b], c);
    assert [a] + [b] == [a, b] && [a, b] + [c] == [a, b, c];
  }

  // ---- Single steps ----

  lemma EndOfRecovery(g: Gateway, w: World, v: World)
    requires w.process.control == Recovering && v == WithControl(w, Idle)
    requires forall k :: k in w.disk.jobs ==> !NeedsRecovery(w, k)
    ensures v == Step(g, w, RecoverEnd)
  {
  }

  lemma SubmitStep(g: Gateway, w: World, v: World, key: Key)
    requires w.process.control == Starting(key, false)
    requires v
         == w.(process := w.process.(control := Idle, worker := Busy(key, Available(w.disk.jobs, key.sid), false)))
    ensures v == Step(g, w, Submit)
  {
    hide Available;
  }

  lemma OpenStep(g: Gateway, w: World, key: Key, torn: Text)
    requires w.process.control == Recovering && NeedsRecovery(w, key)
    ensures Step(g, w, RecoverOpen(key, torn)) == WithControl(WithFile(w, key, torn), Rewriting(key))
  {
  }

  lemma RewriteStep(g: Gateway, w: World)
    requires w.process.control.Rewriting?
    ensures Step(g, w, RecoverWrite) == DoRecoverWrite(w)
  {
    hide DoRecoverWrite;
  }

  lemma RemarkStep(g: Gateway, w: World, key: Key)
    requires w.process.control == Remarking(key) && key in w.disk.jobs && key in w.disk.files
    ensures Step(g, w, RecoverMark) == WithControl(Journal.MarkDone(w, key), Recovering)
  {
  }

  lemma TakeStep(g: Gateway, w: World, key: Key)
    requires Serving(w) && w.process.worker == Free && key in w.disk.jobs && w.disk.jobs[key].phase == Queued
    requires forall k :: k in w.disk.jobs && w.disk.jobs[k].phase == Queued ==>
               w.disk.jobs[key].row <= w.disk.jobs[k].row
    ensures Step(g, w, Start(key))
         == WithControl(WithJob(w, key, w.disk.jobs[key].(phase := Running)), Starting(key, false))
                                      .(history := w.history.(starts := w.history.starts + [w.disk.jobs[key].row]))
  {
  }

  lemma ExecuteStep(g: Gateway, w: World, key: Key, renews: bool)
    requires w.process.control == Starting(key, false) && key in w.disk.jobs
    ensures var ran := WithControl(NoteRun(w, key), Starting(key, true));
            Step(g, w, RunInline(renews))
            == if renews && key.sid in w.disk.sessions
               then ran.(disk := w.disk.(sessions := w.disk.sessions[key.sid := w.now + LEASE])) else ran
  {
    hide NoteRun;
  }

  lemma TearStep(g: Gateway, w: World, key: Key, torn: Text)
    requires w.process.control.Starting? && w.process.control.key == key
    ensures Step(g, w, Tear(key, torn)) == WithFile(w, key, torn)
  {
  }

  lemma SpoolStep(g: Gateway, w: World, key: Key, frames: seq<Json>)
    requires w.process.control.Starting? && w.process.control.key == key && IsLog(key.id, frames)
    requires |Lines(frames)| <= SMALL_REPLY
    ensures Step(g, w, SpoolInline(frames))
         == WithControl(Answered(w, key, frames, if w.process.control.ran then Executed else Rejected), Marking(key))
  {
    hide IsLog, Lines, Answered;
  }

  lemma SendStep(g: Gateway, w: World, key: Key, outcome: Publish)
    requires DeliveryEnabled(w, Action.Deliver(key, outcome))
    ensures Step(g, w, Action.Deliver(key, outcome)) == DoDeliver(w, key, outcome)
  {
    hide DoDeliver, HasRoom, Pending;
  }

  lemma AdvanceStep(g: Gateway, w: World)
    requires w.process.control.Advancing? && w.process.control.key in w.disk.jobs
    ensures Step(g, w, Advance) == DoAdvance(w)
  {
    hide DoAdvance;
  }

  lemma MarkStep(g: Gateway, w: World, v: World, key: Key)
    requires w.process.control == Marking(key) && key in w.disk.jobs && key in w.disk.files
    requires v == WithControl(Journal.MarkDone(w, key), Idle)
    ensures v == Step(g, w, Mark)
  {
  }

  lemma CompleteStep(g: Gateway, w: World, v: World)
    requires w.process.control == Idle && w.process.worker.Ready? && w.process.worker.key in w.disk.jobs
    requires w.process.worker.key in w.disk.files
    requires v == Journal.MarkDone(w, w.process.worker.key).(process := w.process.(worker := Free))
    ensures v == Step(g, w, Complete)
  {
  }

  lemma ReceiveStep(g: Gateway, w: World, sid: Text, outcome: Publish, reply: Json)
    requires AdmissionEnabled(g, w, Receive(sid, outcome, reply))
    ensures var entry := RequestsOf(w, sid)[0];
            DoReceive(w, sid, entry, Decide(g, w, sid, entry.body), outcome, reply)
                == Step(g, w, Receive(sid, outcome, reply))
  {
    hide Decide, DoReceive, HasRoom;
  }

  lemma TouchStep(g: Gateway, w: World, sid: Text)
    requires Serving(w) && sid in w.disk.sessions && w.disk.sessions[sid] > w.now && RequestsOf(w, sid) != []
    ensures Step(g, w, Touch(sid)) == w.(redis := w.redis.(deadlines := w.redis.deadlines[sid := w.now + LEASE]))
  {
  }

  lemma Inserted(w: World, sid: Text, entry: Entry, key: Key, body: Text, outcome: Publish, reply: Json)
    ensures DoReceive(w, sid, entry, Insert(key, body), outcome, reply)
         == w.(process := w.process.(control := Removing(sid, entry, Journaled)),
               disk := w.disk.(jobs := w.disk.jobs[key := Job(w.disk.nextRow, body, Queued, 0, 0)],
                               nextRow := w.disk.nextRow + 1),
               history := w.history.(accepted := w.history.accepted[key := body]))
  {
  }

  lemma RegisterStep(g: Gateway, w: World, v: World, sid: Text)
    requires Serving(w) && sid !in w.history.registered && |w.disk.sessions| < MAX_SESSIONS
    requires v == w.(disk := w.disk.(sessions := w.disk.sessions[sid := w.now + LEASE]),
                     history := w.history.(registered := w.history.registered + {sid}))
    ensures v == Step(g, w, Action.Register(sid))
  {
  }

  lemma RemoveStep(g: Gateway, w: World, gone: bool)
    requires w.process.control.Removing?
    ensures DoRemove(w, gone) == Step(g, w, Remove(gone))
  {
    hide DoRemove;
  }

  /** The rows of a query: every row once, in any order. */
  ghost predicate Lists(rows: seq<Key>, jobs: map<Key, Job>) {
    && (forall k :: k in jobs <==> k in rows)
    && forall i, j :: 0 <= i < j < |rows| ==> rows[i] != rows[j]
  }

  /** How a job is to be answered: here, with or without an effect of its own and with this
      reply, or by the worker. */
  datatype Plan = Inline(executes: bool, renews: bool, reply: InlineReplies.Reply, torn: Text) | Handover

  /** What the main thread does with a job it answers itself. */
  function Here(key: Key, executes: bool, renews: bool, frames: seq<Json>, torn: Text): seq<Action> {
    (if executes then [RunInline(renews)] else []) + [Tear(key, torn)] + [SpoolInline(frames)] + [Mark]
  }

  function Planned(key: Key, plan: Plan): seq<Action> {
    [Start(key)]
    + match plan
      case Inline(executes, renews, reply, torn) =>
        Here(key, executes, renews, InlineReplies.LogOf(key.id, reply), torn)
      case Handover => [Submit]
  }

  /** The queued job that was journaled first. */
  predicate Oldest(jobs: map<Key, Job>, key: Key) {
    && key in jobs && jobs[key].phase == Queued
    && forall k :: k in jobs && jobs[k].phase == Queued ==> jobs[key].row <= jobs[k].row
  }

  predicate Waiting(jobs: map<Key, Job>) { exists k :: k in jobs && jobs[k].phase == Queued }

  /** A decision that lets the entry be removed: all but a reply that may not have arrived. */
  predicate Settles(decision: Decision, outcome: Publish) { decision.Reply? ==> outcome == Acked }

  function Admitting(sid: Text, touched: bool, decision: Decision, outcome: Publish, reply: Json,
                     gone: bool): seq<Action> {
    (if touched then [Touch(sid)] else []) + [Action.Receive(sid, outcome, reply)]
    + (if Settles(decision, outcome) then [Remove(gone)] else [])
  }

  // ---- A turn of delivery ----

  /** The frame a finished job goes on with. */
  function NextPost(w: World, key: Key): Post {
    var index := if key in w.history.cursor then w.history.cursor[key] else 0;
    var rest := if key in w.disk.jobs && key in w.disk.files && w.disk.jobs[key].offset <= |w.disk.files[key]|
                then w.disk.files[key][w.disk.jobs[key].offset..] else [];
    FromJob(key, index, LineFile.FirstLine(rest))
  }

  ghost predicate NextPending(w: World, sid: Text, key: Key) {
    && key.sid == sid && Pending(w, key)
    && forall k: Key :: k.sid == sid && Pending(w, k) ==> w.disk.jobs[key].row <= w.disk.jobs[k].row
  }

  /** A session has been sent one frame of its oldest unfinished answer, if it has one. */
  ghost predicate Delivered(w: World, v: World, sid: Text, outcome: Publish) {
    if sid in w.disk.sessions && outcome != Refused && exists k: Key :: k.sid == sid && Pending(w, k)
    then exists key :: NextPending(w, sid, key) && PostsOf(v, sid) == PostsOf(w, sid) + [NextPost(w, key)]
    else PostsOf(v, sid) == PostsOf(w, sid)
  }

  /** Nothing of this session has changed. */
  ghost predicate SameFor(w: World, v: World, sid: Text) {
    && PostsOf(w, sid) == PostsOf(v, sid) && w.disk.sessions == v.disk.sessions && w.disk.files == v.disk.files
    && (forall k: Key :: k.sid == sid ==> (k in w.disk.jobs <==> k in v.disk.jobs))
    && (forall k: Key :: k.sid == sid && k in w.disk.jobs ==> w.disk.jobs[k] == v.disk.jobs[k])
    && (forall k: Key :: k.sid == sid ==> (k in w.history.cursor <==> k in v.history.cursor))
    && (forall k: Key :: k.sid == sid && k in w.history.cursor ==> w.history.cursor[k] == v.history.cursor[k])
  }

  lemma DeliveredSince(w: World, u: World, v: World, sid: Text, outcome: Publish)
    requires SameFor(w, u, sid) && Delivered(u, v, sid, outcome)
    ensures Delivered(w, v, sid, outcome)
  {
    hide LineFile.FirstLine, PostsOf;
    assert forall k: Key :: k.sid == sid ==> (Pending(w, k) <==> Pending(u, k));
    if sid in u.disk.sessions && outcome != Refused && exists k: Key :: k.sid == sid && Pending(u, k) {
      var key :| NextPending(u, sid, key) && PostsOf(v, sid) == PostsOf(u, sid) + [NextPost(u, key)];
      assert NextPending(w, sid, key) && NextPost(w, key) == NextPost(u, key);
    }
  }

  lemma DeliveredStays(w: World, u: World, v: World, sid: Text, outcome: Publish)
    requires Delivered(w, u, sid, outcome) && PostsOf(u, sid) == PostsOf(v, sid)
    ensures Delivered(w, v, sid, outcome)
  {
    hide LineFile.FirstLine, PostsOf, NextPending, Pending;
  }

  lemma SameOn(u: World, v: World, w: World, sid: Text)
    requires SameFor(u, v, sid) && SameFor(v, w, sid)
    ensures SameFor(u, w, sid)
  {
    hide PostsOf;
  }

  /** The log of a reply given here is one the journal takes. */
  lemma ReplyIsLog(id: Text, reply: InlineReplies.Reply)
    requires IsId(id) && InlineReplies.Proper(reply)
    ensures IsLog(id, InlineReplies.LogOf(id, reply)) && |Lines(InlineReplies.LogOf(id, reply))| <= SMALL_REPLY
  {
    hide Lines, Dump, Ascii, InlineReplies.RecordOf, InlineReplies.Proper, IsTerminal;
    InlineReplies.InlineEnds(id, reply);
    InlineReplies.InlineIsShort(id, reply);
    InlineReplies.LogLine(id, reply);
    assert InlineReplies.LogOf(id, reply)[..0] == [];
  }

  predicate Concerned(key: Key, sid: Option<Text>) { sid.None? || key.sid == sid.value }

  function Selected(jobs: map<Key, Job>, rows: seq<Key>, n: nat, sid: Option<Text>): set<Key>
    requires n <= |rows|
  {
    set i | 0 <= i < n && rows[i] in jobs && Concerned(rows[i], sid) :: rows[i]
  }

  lemma SelectedNext(jobs: map<Key, Job>, rows: seq<Key>, n: nat, sid: Option<Text>)
    requires n < |rows| && Lists(rows, jobs)
    ensures var before, after := Selected(jobs, rows, n, sid), Selected(jobs, rows, n + 1, sid);
            && rows[n] in jobs && rows[n] !in before && before <= jobs.Keys
            && after == if Concerned(rows[n], sid) then before + {rows[n]} else before
  {
    hide Concerned;
    assert rows[n] in rows;
  }

  lemma SelectNext(jobs: map<Key, Job>, rows: seq<Key>, n: nat, sid: Option<Text>, weight: Job -> nat)
    requires n < |rows| && Lists(rows, jobs)
    ensures Selected(jobs, rows, n, sid) <= jobs.Keys && Selected(jobs, rows, n + 1, sid) <= jobs.Keys
    ensures rows[n] in jobs
    ensures var before, after := Selected(jobs, rows, n, sid), Selected(jobs, rows, n + 1, sid);
            if Concerned(rows[n], sid)
            then Sum(jobs, after, weight) == Sum(jobs, before, weight) + weight(jobs[rows[n]])
              && |after| == |before| + 1
            else after == before
  {
    hide Sum, Selected, Concerned, Lists;
    SelectedNext(jobs, rows, n, sid);
    if Concerned(rows[n], sid) {
      var before, after := Selected(jobs, rows, n, sid), Selected(jobs, rows, n + 1, sid);
      assert after - {rows[n]} == before;
      SumTake(jobs, after, weight, rows[n]);
    }
  }

  lemma SelectAll(jobs: map<Key, Job>, rows: seq<Key>, sid: Option<Text>)
    requires Lists(rows, jobs)
    ensures Selected(jobs, rows, |rows|, sid) == (set k | k in jobs && Concerned(k, sid))
    ensures sid.None? ==> Selected(jobs, rows, |rows|, sid) == jobs.Keys
    ensures sid.Some? ==> Selected(jobs, rows, |rows|, sid) == set k | k in jobs && k.sid == sid.value
  {
  }

  class ApiServer {
    const g: Gateway
    var now: int
    var sessions: map<Text, int>
    var jobs: map<Key, Job>
    var nextRow: nat
    var files: map<Key, Text>
    var requests: map<Text, seq<Entry>>
    var nextEntry: nat
    var posts: map<Text, seq<Post>>
    var acked: map<Text, nat>
    var deadlines: map<Text, int>
    var control: Control
    var worker: Worker
    var booted: int
    var swept: bool
    var history: History

    ghost function Now(): World
      reads this
    {
      World(now, Disk(sessions, jobs, nextRow, files), Redis(requests, nextEntry, posts, acked, deadlines),
            Process(control, worker, booted, swept), history)
    }

    constructor (g: Gateway)
      ensures this.g == g && Now() == NOTHING
    {
      this.g := g;
      now, booted, swept, nextRow, nextEntry := 0, 0, false, 0, 0;
      sessions, jobs, files, requests, posts, acked, deadlines := map[], map[], map[], map[], map[], map[], map[];
      control, worker := Down, Free;
      history := NOTHING.history;
    }

    // ---- Queries ----

    method Count(rows: seq<Key>, sid: Option<Text>, weight: Job -> nat) returns (n: nat, total: nat)
      requires Lists(rows, jobs)
      ensures var keys := set k | k in jobs && Concerned(k, sid); n == |keys| && total == Sum(jobs, keys, weight)
    {
      hide Sum, Selected, Lists, Concerned;
      n, total := 0, 0;
      var i := 0;
      NoneSelected(rows, sid, weight);
      while i < |rows|
        invariant i <= |rows| && Selected(jobs, rows, i, sid) <= jobs.Keys
        invariant n == |Selected(jobs, rows, i, sid)| && total == Sum(jobs, Selected(jobs, rows, i, sid), weight)
      {
        SelectNext(jobs, rows, i, sid, weight);
        if Concerned(rows[i], sid) {
          n, total := n + 1, total + weight(jobs[rows[i]]);
        }
        i := i + 1;
      }
      SelectAll(jobs, rows, sid);
    }

    lemma NoneSelected(rows: seq<Key>, sid: Option<Text>, weight: Job -> nat)
      ensures Selected(jobs, rows, 0, sid) == {} && Sum(jobs, {}, weight) == 0
    {
    }

    /** What admission does with a request, the quotas counted from the rows. */
    method Judge(sid: Text, text: Text, rows: seq<Key>) returns (decision: Decision)
      requires Lists(rows, jobs)
      ensures decision == Decide(g, Now(), sid, text)
    {
      hide Sum, Lists;
      var request := g.read(text);
      match request {
        case Malformed => decision := Reply(INVALID);
        case Chunk(id) => decision := Reply(id);
        case Replay(id, body, target) =>
          var key := Key(sid, id);
          if key in jobs {
            decision := if jobs[key].body == body then Drop(Journaled) else Reply(id);
          } else if target.None? || Key(sid, target.value) !in jobs {
            decision := Reply(id);
          } else if jobs[Key(sid, target.value)].phase == Done {
            decision := Rewind(Key(sid, target.value));
          } else {
            decision := Drop(Replayed);
          }
        case Order(id, body) =>
          var key := Key(sid, id);
          if key in jobs {
            decision := if jobs[key].body == body then Drop(Journaled) else Reply(id);
          } else {
            var own, _ := Count(rows, Some(sid), BodyWeight());
            var _, bodies := Count(rows, None, BodyWeight());
            OwnRows(sid);
            if own >= JOBS_PER_SESSION || bodies + |body| > RETAINED_BODIES {
              decision := Reply(id);
            } else {
              decision := Insert(key, body);
            }
          }
      }
    }

    lemma OwnRows(sid: Text)
      ensures (set k | k in jobs && Concerned(k, Some(sid))) == (set k | k in jobs && k.sid == sid)
      ensures (set k | k in jobs && Concerned(k, None)) == jobs.Keys
    {
    }

    /** The bytes a response may take. */
    method Room(sid: Text, rows: seq<Key>) returns (available: int)
      requires Lists(rows, jobs)
      ensures available == Available(jobs, sid)
    {
      hide Sum, Lists;
      var _, used := Count(rows, None, SizeWeight());
      var _, session := Count(rows, Some(sid), SizeWeight());
      OwnRows(sid);
      available := if TOTAL_BYTES - used < SESSION_BYTES - session then TOTAL_BYTES - used else SESSION_BYTES - session;
    }

    /** The oldest row of a kind, if there is one. */
    method First(rows: seq<Key>, sid: Option<Text>, pending: bool) returns (first: Option<Key>)
      requires Lists(rows, jobs)
      ensures first.Some? ==> first.value in jobs && Wanted(first.value, sid, pending)
      ensures forall k :: k in jobs && Wanted(k, sid, pending) ==> first.Some? && jobs[first.value].row <= jobs[k].row
    {
      first := None;
      var i := 0;
      while i < |rows|
        invariant i <= |rows| && (first.Some? ==> first.value in jobs && Wanted(first.value, sid, pending))
        invariant forall j :: 0 <= j < i && rows[j] in jobs && Wanted(rows[j], sid, pending) ==>
                    first.Some? && jobs[first.value].row <= jobs[rows[j]].row
      {
        var k := rows[i];
        if k in jobs && Wanted(k, sid, pending) && (first.None? || jobs[k].row < jobs[first.value].row) {
          first := Some(k);
        }
        i := i + 1;
      }
    }

    /** A queued job, or a finished one of this session with bytes left to deliver. */
    predicate Wanted(k: Key, sid: Option<Text>, pending: bool)
      reads this
    {
      k in jobs && Concerned(k, sid)
      && (if pending then jobs[k].phase == Done && jobs[k].offset < jobs[k].size else jobs[k].phase == Queued)
    }

    // ---- Recovery ----

    method RecoverOne(key: Key, torn: Text) returns (ghost actions: seq<Action>)
      requires control == Recovering && NeedsRecovery(Now(), key)
      modifies this
      ensures Now() == Steps(g, old(Now()), actions)
      ensures control == Recovering && !NeedsRecovery(Now(), key) && jobs.Keys == old(jobs.Keys)
      ensures forall k :: k != key && k in jobs ==> jobs[k] == old(jobs)[k] && (k in files <==> k in old(files))
    {
      hide Step, Steps, DoRecoverWrite, NeedsRecovery;
      ghost var w := Now();
      OpenSpool(key, torn);
      ghost var begun := Now();
      RewriteStep(g, begun);
      WriteUnknown(key);
      RemarkStep(g, Now(), key);
      FinishRecovered(key);
      actions := [RecoverOpen(key, torn), RecoverWrite, RecoverMark];
      ThreeSteps(g, w, RecoverOpen(key, torn), RecoverWrite, RecoverMark);
      Recovered(w, key);
    }

    lemma Recovered(w: World, key: Key)
      requires key in jobs && key in files && jobs[key].phase == Done
      ensures !NeedsRecovery(Now(), key)
    {
    }

    method OpenSpool(key: Key, torn: Text)
      requires control == Recovering && NeedsRecovery(Now(), key)
      modifies this`files, this`control
      ensures Now() == Step(g, old(Now()), RecoverOpen(key, torn))
      ensures control == Rewriting(key) && files == old(files)[key := torn] && key in jobs
    {
      hide Step;
      OpenStep(g, Now(), key, torn);
      files := files[key := torn];
      control := Rewriting(key);
    }

    method FinishRecovered(key: Key)
      requires control == Remarking(key) && key in jobs && key in files
      modifies this`jobs, this`history, this`control
      ensures Now() == WithControl(Journal.MarkDone(old(Now()), key), Recovering)
      ensures control == Recovering && jobs == old(jobs)[key := jobs[key]] && key in jobs && jobs[key].phase == Done
    {
      MarkDone(key);
      control := Recovering;
    }

    /** The notice that the outcome is unknown replaces whatever the file holds. */
    method WriteUnknown(key: Key)
      requires control == Rewriting(key) && key in jobs
      modifies this`files, this`control, this`history
      ensures Now() == DoRecoverWrite(old(Now())) && control == Remarking(key)
      ensures key in files && forall k :: k != key ==> (k in files <==> k in old(files))
    {
      hide Lines, RecoveryLog;
      var log := RecoveryLog(key.id);
      files := files[key := Lines(log)];
      control := Remarking(key);
      if jobs[key].phase == Running {
        history := history.(content := history.content[key := log], origin := history.origin[key := OutcomeUnknown]);
      }
    }

    /** The row is finished with the size its file has. */
    method MarkDone(key: Key)
      requires key in jobs && key in files
      modifies this`jobs, this`history
      ensures Now() == Journal.MarkDone(old(Now()), key)
    {
      jobs := jobs[key := jobs[key].(phase := Done, size := |files[key]|, offset := 0)];
      history := history.(cursor := history.cursor[key := 0]);
    }

    /** On starting: every running job, and every finished one without a file, is answered. */
    method Recover(rows: seq<Key>, torn: Key -> Text) returns (ghost actions: seq<Action>)
      requires control == Recovering && Lists(rows, jobs)
      modifies this
      ensures Now() == Steps(g, old(Now()), actions) && control == Idle
    {
      hide Steps, Step;
      ghost var w := Now();
      actions := [];
      NoSteps(g, w);
      var i := 0;
      while i < |rows|
        invariant i <= |rows| && control == Recovering && jobs.Keys == old(jobs.Keys)
        invariant Now() == Steps(g, w, actions)
        invariant forall j :: 0 <= j < i ==> !NeedsRecovery(Now(), rows[j])
      {
        var key := rows[i];
        if key in jobs && (jobs[key].phase == Running || (jobs[key].phase == Done && key !in files)) {
          ghost var more := RecoverOne(key, torn(key));
          StepsOn(g, w, actions, more);
          actions := actions + more;
        }
        i := i + 1;
      }
      ghost var end := Now();
      control := Idle;
      EndOfRecovery(g, end, Now());
      StepsAppend(g, w, actions, RecoverEnd);
      actions := actions + [RecoverEnd];
    }

    // ---- Jobs ----

    /** Takes the oldest queued job: runs it here, or hands it to the worker. */
    method StartJob(rows: seq<Key>, plan: Key -> Plan) returns (ghost actions: seq<Action>)
      requires Serving(Now()) && Lists(rows, jobs)
      requires forall k :: k in jobs ==> IsId(k.id)
      requires forall k :: k in jobs && jobs[k].phase == Queued && plan(k).Inline? ==>
                 InlineReplies.Proper(plan(k).reply)
      modifies this
      ensures Now() == Steps(g, old(Now()), actions)
      ensures old(worker) != Free || !Waiting(old(jobs)) ==> actions == []
      ensures old(worker) == Free && Waiting(old(jobs)) ==>
                exists key :: Oldest(old(jobs), key) && actions == Planned(key, plan(key)) && key in jobs
                              && (plan(key).Inline? ==> jobs[key].phase == Done && worker == Free)
                              && (plan(key).Handover? ==>
                                    jobs[key].phase == Running && worker.Busy? && worker.key == key)
    {
      hide Lines, Dump, Decide, Steps, Step, InlineReplies.Proper, IsId, Planned, Lists;
      NoSteps(g, Now());
      actions := [];
      if worker != Free {
        return;
      }
      var first := First(rows, None, false);
      if first.None? {
        return;
      }
      var key := first.value;
      FirstIsOldest(key);
      actions := RunJob(key, rows, plan(key));
    }

    /** This job is started and answered here, or started and handed over. */
    method RunJob(key: Key, rows: seq<Key>, plan: Plan) returns (ghost actions: seq<Action>)
      requires Serving(Now()) && Lists(rows, jobs) && worker == Free && Oldest(jobs, key) && IsId(key.id)
      requires plan.Inline? ==> InlineReplies.Proper(plan.reply)
      modifies this
      ensures Now() == Steps(g, old(Now()), actions) && actions == Planned(key, plan) && key in jobs
      ensures plan.Inline? ==> jobs[key].phase == Done && worker == Free
      ensures plan.Handover? ==> jobs[key].phase == Running && worker.Busy? && worker.key == key
    {
      hide Lines, Dump, Decide, Available, IsLog, Steps, Step, InlineReplies.LogOf, InlineReplies.Proper, IsId, Here;
      ghost var w := Now();
      NoSteps(g, w);
      TakeJob(key);
      StepsAppend(g, w, [], Start(key));
      actions := [] + [Start(key)];
      if plan.Inline? {
        var Inline(executes, renews, reply, torn) := plan;
        ReplyIsLog(key.id, reply);
        ghost var more := RunHere(key, executes, renews, InlineReplies.LogOf(key.id, reply), torn);
        StepsOn(g, w, actions, more);
        actions := actions + more;
      } else {
        HandOver(key, rows);
        StepsAppend(g, w, actions, Submit);
        actions := actions + [Submit];
      }
    }

    method HandOver(key: Key, rows: seq<Key>)
      requires control == Starting(key, false) && Lists(rows, jobs)
      modifies this`worker, this`control
      ensures Now() == Step(g, old(Now()), Submit) && worker.Busy? && worker.key == key
    {
      hide Available, Step, Lists;
      var available := Room(key.sid, rows);
      ghost var before := Now();
      worker := Busy(key, available, false);
      control := Idle;
      SubmitStep(g, before, Now(), key);
    }

    lemma FirstIsOldest(key: Key)
      requires Wanted(key, None, false)
      requires forall k :: k in jobs && Wanted(k, None, false) ==> jobs[key].row <= jobs[k].row
      ensures Oldest(jobs, key)
    {
    }

    method TakeJob(key: Key)
      requires Serving(Now()) && worker == Free && key in jobs && jobs[key].phase == Queued
      requires forall k :: k in jobs && jobs[k].phase == Queued ==> jobs[key].row <= jobs[k].row
      modifies this`jobs, this`control, this`history
      ensures Now() == Step(g, old(Now()), Start(key))
      ensures control == Starting(key, false) && jobs == old(jobs)[key := old(jobs)[key].(phase := Running)]
    {
      hide Step, Serving;
      TakeStep(g, Now(), key);
      history := history.(starts := history.starts + [jobs[key].row]);
      jobs := jobs[key := jobs[key].(phase := Running)];
      control := Starting(key, false);
    }

    /** An inline method: its effect if it has one, its reply, and the row. */
    method RunHere(key: Key, executes: bool, renews: bool, frames: seq<Json>,
                   torn: Text) returns (ghost actions: seq<Action>)
      requires control == Starting(key, false) && key in jobs && IsLog(key.id, frames) && |Lines(frames)| <= SMALL_REPLY
      modifies this
      ensures Now() == Steps(g, old(Now()), actions) && jobs.Keys == old(jobs.Keys)
      ensures actions == Here(key, executes, renews, frames, torn) && jobs[key].phase == Done && worker == old(worker)
    {
      hide Lines, Dump, Decide, Available, IsLog, Steps, Step;
      ghost var w := Now();
      NoSteps(g, w);
      actions := [];
      if executes {
        Execute(key, renews);
        StepsAppend(g, w, actions, RunInline(renews));
        actions := actions + [RunInline(renews)];
      }
      SpoolReply(key, frames, torn);
      StepsAppend(g, w, actions, Tear(key, torn));
      StepsAppend(g, w, actions + [Tear(key, torn)], SpoolInline(frames));
      actions := actions + [Tear(key, torn)] + [SpoolInline(frames)];
      ghost var before := Now();
      MarkDone(key);
      control := Idle;
      MarkStep(g, before, Now(), key);
      StepsAppend(g, w, actions, Mark);
      actions := actions + [Mark];
    }

    method Execute(key: Key, renews: bool)
      requires control == Starting(key, false) && key in jobs
      modifies this`sessions, this`control, this`history
      ensures Now() == Step(g, old(Now()), RunInline(renews)) && control == Starting(key, true)
    {
      hide Step;
      ExecuteStep(g, Now(), key, renews);
      history := history.(runs := history.runs + [Journal.Run(key, jobs[key].body)]);
      control := Starting(key, true);
      if renews && key.sid in sessions {
        sessions := sessions[key.sid := now + LEASE];
      }
    }

    /** The file is created, perhaps partly written, and then holds the whole reply. */
    method SpoolReply(key: Key, frames: seq<Json>, torn: Text)
      requires control.Starting? && control.key == key && IsLog(key.id, frames) && |Lines(frames)| <= SMALL_REPLY
      modifies this`files, this`control, this`history
      ensures Now() == Step(g, Step(g, old(Now()), Tear(key, torn)), SpoolInline(frames))
      ensures control == Marking(key) && key in files && files == old(files)[key := Lines(frames)]
    {
      hide Lines, Dump, IsLog, Step;
      ghost var w := Now();
      TearStep(g, w, key, torn);
      files := files[key := torn];
      ghost var begun := Now();
      SpoolStep(g, begun, key, frames);
      var origin := if control.ran then Executed else Rejected;
      files := files[key := Lines(frames)];
      history := history.(content := history.content[key := frames], origin := history.origin[key := origin]);
      control := Marking(key);
      assert Now() == WithControl(Answered(begun, key, frames, origin), Marking(key));
      assert files == old(files)[key := Lines(frames)];
    }

    /** The worker's answer is complete: its row is finished and the slot is free. */
    method CompleteWorker() returns (ghost actions: seq<Action>)
      requires control == Idle && (worker.Ready? ==> worker.key in jobs && worker.key in files)
      modifies this
      ensures Now() == Steps(g, old(Now()), actions)
      ensures actions == if old(worker).Ready? then [Complete] else []
      ensures old(worker).Ready? ==> worker == Free && old(worker).key in jobs && jobs[old(worker).key].phase == Done
    {
      hide Lines, Dump, Decide, Available, Steps, Step;
      ghost var w := Now();
      NoSteps(g, w);
      actions := [];
      if !worker.Ready? {
        return;
      }
      MarkDone(worker.key);
      worker := Free;
      CompleteStep(g, w, Now());
      StepsAppend(g, w, [], Complete);
      actions := [] + [Complete];
    }

    // ---- Admission and delivery ----

    /** A new session, if there is room for one. */
    method Register(sid: Text) returns (ghost actions: seq<Action>)
      requires Serving(Now()) && sid !in history.registered
      modifies this`sessions, this`history
      ensures Now() == Steps(g, old(Now()), actions)
      ensures actions == if |old(sessions)| < MAX_SESSIONS then [Action.Register(sid)] else []
      ensures sessions == if |old(sessions)| < MAX_SESSIONS then old(sessions)[sid := now + LEASE] else old(sessions)
    {
      hide Steps, Step;
      ghost var w := Now();
      NoSteps(g, w);
      actions := [];
      if |sessions| >= MAX_SESSIONS {
        return;
      }
      sessions := sessions[sid := now + LEASE];
      history := history.(registered := history.registered + {sid});
      RegisterStep(g, w, Now(), sid);
      OneStep(g, w, Action.Register(sid));
      actions := [Action.Register(sid)];
    }

    /** The oldest entry of a session: journaled, answered or rewound, and then removed
        unless its answer could not be published. Looking at it moves the deadline of the
        stream, if that command arrives. */
    method Receive(sid: Text, rows: seq<Key>, touched: bool, outcome: Publish, reply: Json,
                   gone: bool) returns (ghost actions: seq<Action>)
      requires Serving(Now()) && sid in sessions && sessions[sid] > now && Lists(rows, jobs)
      requires RequestsOf(Now(), sid) != [] ==>
                 var decision := Decide(g, Now(), sid, RequestsOf(Now(), sid)[0].body);
                 decision.Reply? ==>
                     reply.Obj? && Addressed(decision.id, reply.m) && (outcome != Refused ==> HasRoom(Now(), sid))
      modifies this
      ensures Now() == Steps(g, old(Now()), actions) && control == Idle
      ensures RequestsOf(old(Now()), sid) == [] ==> actions == []
      ensures RequestsOf(old(Now()), sid) != [] ==>
                var decision := Decide(g, old(Now()), sid, RequestsOf(old(Now()), sid)[0].body);
                && actions == Admitting(sid, touched, decision, outcome, reply, gone)
                && (decision.Insert? ==> decision.key in jobs && jobs[decision.key].body == decision.body)
    {
      hide Dump, Decide, Steps, Step, DoReceive, HasRoom, Lists;
      ghost var w := Now();
      NoSteps(g, w);
      actions := [];
      if sid !in requests || requests[sid] == [] {
        return;
      }
      var entry := requests[sid][0];
      if touched {
        MoveDeadline(sid);
        OneStep(g, w, Touch(sid));
        actions := [Touch(sid)];
        SameDecision(g, w, Now(), sid, entry.body);
        SameRoom(w, Now(), sid);
      }
      ghost var v := Now();
      var decision := Judge(sid, entry.body, rows);
      DecideFacts(g, v, sid, entry.body);
      Perform(sid, entry, decision, outcome, reply);
      ReceiveStep(g, v, sid, outcome, reply);
      StepsAppend(g, w, actions, Action.Receive(sid, outcome, reply));
      actions := actions + [Action.Receive(sid, outcome, reply)];
      if control.Removing? {
        ghost var before := Now();
        TakeAway(gone);
        RemoveStep(g, before, gone);
        StepsAppend(g, w, actions, Remove(gone));
        actions := actions + [Remove(gone)];
      }
    }

    method MoveDeadline(sid: Text)
      requires Serving(Now()) && sid in sessions && sessions[sid] > now && RequestsOf(Now(), sid) != []
      modifies this`deadlines
      ensures Now() == Step(g, old(Now()), Touch(sid))
    {
      hide Step;
      ghost var w := Now();
      deadlines := deadlines[sid := now + LEASE];
      TouchStep(g, w, sid);
    }

    method Perform(sid: Text, entry: Entry, decision: Decision, outcome: Publish, reply: Json)
      requires control == Idle
      modifies this
      requires decision.Rewind? ==> decision.key in jobs
      ensures Now() == DoReceive(old(Now()), sid, entry, decision, outcome, reply)
      ensures if Settles(decision, outcome) then control.Removing? else control == Idle
      ensures decision.Insert? ==> decision.key in jobs && jobs[decision.key].body == decision.body
    {
      hide DoReceive;
      match decision {
        case Drop(reason) => DropEntry(sid, entry, reason, outcome, reply);
        case Reply(id) => PublishReply(sid, entry, id, outcome, reply);
        case Rewind(key) => RewindRow(sid, entry, key, outcome, reply);
        case Insert(key, body) => InsertRow(sid, entry, key, body, outcome, reply);
      }
    }

    method DropEntry(sid: Text, entry: Entry, reason: Reason, ghost outcome: Publish, ghost reply: Json)
      requires control == Idle
      modifies this`control
      ensures Now() == DoReceive(old(Now()), sid, entry, Drop(reason), outcome, reply) && control.Removing?
    {
      control := Removing(sid, entry, reason);
    }

    method PublishReply(sid: Text, entry: Entry, id: Text, outcome: Publish, reply: Json)
      requires control == Idle
      modifies this`posts, this`control
      ensures Now() == DoReceive(old(Now()), sid, entry, Reply(id), outcome, reply)
      ensures if outcome == Acked then control.Removing? else control == Idle
    {
      hide Dump;
      if outcome != Refused {
        posts := posts[sid := (if sid in posts then posts[sid] else []) + [Direct(id, Dump(reply))]];
        if outcome == Acked {
          control := Removing(sid, entry, Replied(id));
        }
      }
    }

    method RewindRow(sid: Text, entry: Entry, key: Key, ghost outcome: Publish, ghost reply: Json)
      requires control == Idle && key in jobs
      modifies this`jobs, this`control, this`history
      ensures Now() == DoReceive(old(Now()), sid, entry, Rewind(key), outcome, reply) && control.Removing?
    {
      jobs := jobs[key := jobs[key].(offset := 0)];
      control := Removing(sid, entry, Replayed);
      history := history.(cursor := history.cursor[key := 0]);
    }

    method InsertRow(sid: Text, entry: Entry, key: Key, body: Text, ghost outcome: Publish, ghost reply: Json)
      requires control == Idle
      modifies this`jobs, this`nextRow, this`control, this`history
      ensures Now() == DoReceive(old(Now()), sid, entry, Insert(key, body), outcome, reply)
      ensures control.Removing? && key in jobs && jobs[key].body == body
    {
      hide DoReceive;
      ghost var w := Now();
      jobs := jobs[key := Job(nextRow, body, Queued, 0, 0)];
      nextRow := nextRow + 1;
      control := Removing(sid, entry, Journaled);
      history := history.(accepted := history.accepted[key := body]);
      Inserted(w, sid, entry, key, body, outcome, reply);
    }

    /** Deleting the entry may or may not have worked. */
    method TakeAway(gone: bool)
      requires control.Removing?
      modifies this
      ensures Now() == DoRemove(old(Now()), gone) && control == Idle && jobs == old(jobs)
    {
      var sid, entry := control.sid, control.entry;
      var reason := control.reason;
      control := Idle;
      if gone && sid in requests && requests[sid] != [] && requests[sid][0] == entry {
        requests := requests[sid := requests[sid][1..]];
        history := history.(departures := history.departures + [Departure(sid, entry, reason)]);
      }
    }

    /** Finished jobs have their file, as long as the row says: what every reachable world
        that serves keeps. */
    ghost predicate Filed()
      reads this
    {
      forall k :: k in jobs && k.sid in sessions && jobs[k].phase == Done ==> k in files && jobs[k].size == |files[k]|
    }

    /** One frame a session and turn, if it has one waiting. */
    method Deliver(order: seq<Text>, rows: seq<Key>, outcome: Text -> Publish) returns (ghost actions: seq<Action>)
      requires Serving(Now()) && Lists(rows, jobs) && Filed()
      requires forall j :: 0 <= j < |order| && outcome(order[j]) != Refused ==> HasRoom(Now(), order[j])
      requires forall i, j :: 0 <= i < j < |order| ==> order[i] != order[j]
      modifies this`posts, this`jobs, this`control, this`history
      ensures Now() == Steps(g, old(Now()), actions) && control == Idle
      ensures forall j :: 0 <= j < |order| ==> Delivered(old(Now()), Now(), order[j], outcome(order[j]))
    {
      hide Steps, Step, Dump, Decide, Lines, LineFile.FirstLine, HasRoom, Lists, Pending, Filed, Wanted, Delivered,
           SameFor;
      hide PostsOf;
      ghost var w := Now();
      NoSteps(g, w);
      actions := [];
      var i := 0;
      forall sid ensures SameFor(w, w, sid) {
        Unchanged(w, sid);
      }
      while i < |order|
        invariant i <= |order| && Serving(Now()) && Now() == Steps(g, w, actions)
        invariant Lists(rows, jobs) && Filed()
        invariant forall j :: i <= j < |order| && outcome(order[j]) != Refused ==> HasRoom(Now(), order[j])
        invariant forall j :: 0 <= j < i ==> Delivered(w, Now(), order[j], outcome(order[j]))
        invariant forall j :: i <= j < |order| ==> SameFor(w, Now(), order[j])
      {
        ghost var before := Now();
        ghost var more := DeliverFor(order[i], rows, outcome(order[i]));
        StepsOn(g, w, actions, more);
        actions := actions + more;
        DeliveredSince(w, before, Now(), order[i], outcome(order[i]));
        OthersStay(w, before, Now(), order, i, outcome);
        i := i + 1;
      }
    }

    lemma OthersStay(w: World, u: World, v: World, order: seq<Text>, i: nat, outcome: Text -> Publish)
      requires i < |order| && (forall a, b :: 0 <= a < b < |order| ==> order[a] != order[b])
      requires forall other :: other != order[i] ==> SameFor(u, v, other)
      requires u.redis.acked == v.redis.acked
      requires forall j :: 0 <= j < i ==> Delivered(w, u, order[j], outcome(order[j]))
      requires forall j :: i < j < |order| ==> SameFor(w, u, order[j])
      requires forall j :: i < j < |order| && outcome(order[j]) != Refused ==> HasRoom(u, order[j])
      ensures forall j :: 0 <= j < i ==> Delivered(w, v, order[j], outcome(order[j]))
      ensures forall j :: i < j < |order| ==> SameFor(w, v, order[j])
      ensures forall j :: i < j < |order| && outcome(order[j]) != Refused ==> HasRoom(v, order[j])
    {
      hide SameFor, Delivered, PostsOf, HasRoom;
      forall j | 0 <= j < i ensures Delivered(w, v, order[j], outcome(order[j])) {
        PostsStay(u, v, order[j]);
        DeliveredStays(w, u, v, order[j], outcome(order[j]));
      }
      forall j | i < j < |order| ensures SameFor(w, v, order[j]) && HasRoom(u, order[j]) == HasRoom(v, order[j]) {
        SameOn(w, u, v, order[j]);
        PostsStay(u, v, order[j]);
        SameRoom(u, v, order[j]);
      }
    }

    /** The next frame of a session, if it has one. */
    method DeliverFor(sid: Text, rows: seq<Key>, outcome: Publish) returns (ghost actions: seq<Action>)
      requires Serving(Now()) && Lists(rows, jobs) && Filed() && (outcome != Refused ==> HasRoom(Now(), sid))
      modifies this`posts, this`jobs, this`control, this`history
      ensures Now() == Steps(g, old(Now()), actions) && Serving(Now()) && Lists(rows, jobs) && Filed()
      ensures Delivered(old(Now()), Now(), sid, outcome)
      ensures forall other :: other != sid ==> SameFor(old(Now()), Now(), other)
    {
      hide Steps, Step, Dump, Decide, Lines, LineFile.FirstLine, HasRoom, Lists, Pending, Filed, Wanted, SameFor,
           NextPost;
      hide PostsOf;
      ghost var before := Now();
      NoSteps(g, before);
      actions := [];
      forall other ensures SameFor(before, before, other) {
        Unchanged(before, other);
      }
      if sid in sessions {
        var first := First(rows, Some(sid), true);
        if first.Some? {
          FirstIsNext(first.value, sid);
          actions := DeliverOne(first.value, outcome);
          SameRows(rows, before.disk.jobs, jobs);
        } else {
          NonePending(sid);
        }
      }
    }

    lemma NonePending(sid: Text)
      requires sid in sessions && forall k :: k in jobs ==> !Wanted(k, Some(sid), true)
      ensures forall k: Key :: k.sid == sid ==> !Pending(Now(), k)
    {
    }

    lemma FirstIsNext(key: Key, sid: Text)
      requires key in jobs && Wanted(key, Some(sid), true) && sid in sessions && Filed()
      requires forall k :: k in jobs && Wanted(k, Some(sid), true) ==> jobs[key].row <= jobs[k].row
      ensures key.sid == sid && Pending(Now(), key) && key in files && jobs[key].offset < |files[key]|
      ensures forall k: Key :: k.sid == sid && Pending(Now(), k) ==> jobs[key].row <= jobs[k].row
      ensures NextPending(Now(), sid, key)
    {
    }

    method DeliverOne(key: Key, outcome: Publish) returns (ghost actions: seq<Action>)
      requires Serving(Now()) && key.sid in sessions && Pending(Now(), key) && key in files
      requires jobs[key].offset < |files[key]| && Filed()
      requires forall k: Key :: k.sid == key.sid && Pending(Now(), k) ==> jobs[key].row <= jobs[k].row
      requires outcome != Refused ==> HasRoom(Now(), key.sid)
      modifies this`posts, this`jobs, this`control, this`history
      ensures Now() == Steps(g, old(Now()), actions) && Serving(Now())
      ensures jobs.Keys == old(jobs.Keys) && Filed()
      ensures forall sid :: sid != key.sid ==> SameFor(old(Now()), Now(), sid)
      ensures PostsOf(Now(), key.sid)
           == PostsOf(old(Now()), key.sid) + (if outcome == Refused then [] else [NextPost(old(Now()), key)])
    {
      hide LineFile.FirstLine, Step, Steps, HasRoom, DoDeliver, DoAdvance;
      ghost var w := Now();
      SendStep(g, w, key, outcome);
      OneStep(g, w, Action.Deliver(key, outcome));
      actions := [Action.Deliver(key, outcome)];
      var line := PublishFrame(key, outcome);
      if outcome == Acked {
        AdvanceStep(g, Now());
        MoveOffset();
        StepsAppend(g, w, actions, Advance);
        actions := actions + [Advance];
      }
      FiledStays(w, Now());
      forall sid | sid != key.sid ensures SameFor(w, Now(), sid) {
        OneTouched(w, Now(), key, sid);
      }
    }

    lemma OneTouched(w: World, v: World, key: Key, sid: Text)
      requires sid != key.sid && PostsOf(w, sid) == PostsOf(v, sid)
      requires w.disk.sessions == v.disk.sessions && w.disk.files == v.disk.files
      requires v.disk.jobs.Keys == w.disk.jobs.Keys
      requires forall k :: k in w.disk.jobs && k != key ==> w.disk.jobs[k] == v.disk.jobs[k]
      requires forall k: Key :: k != key ==> (k in w.history.cursor <==> k in v.history.cursor)
      requires forall k: Key :: k != key && k in w.history.cursor ==> w.history.cursor[k] == v.history.cursor[k]
      ensures SameFor(w, v, sid)
    {
      hide PostsOf;
      assert forall k :: k in w.disk.jobs <==> k in w.disk.jobs.Keys;
      assert forall k :: k in v.disk.jobs <==> k in v.disk.jobs.Keys;
    }

    method PublishFrame(key: Key, outcome: Publish) returns (line: Text)
      requires control == Idle && key in jobs && key in files && jobs[key].offset <= |files[key]|
      modifies this`posts, this`control
      ensures Now() == DoDeliver(old(Now()), key, outcome)
      ensures forall sid :: sid != key.sid ==> PostsOf(Now(), sid) == PostsOf(old(Now()), sid)
      ensures PostsOf(Now(), key.sid)
           == PostsOf(old(Now()), key.sid) + (if outcome == Refused then [] else [NextPost(old(Now()), key)])
      ensures if outcome == Acked then control.Advancing? && control.key == key else control == Idle
    {
      hide LineFile.FirstLine;
      var offset := jobs[key].offset;
      line := LineFile.FirstLine(files[key][offset..]);
      if outcome != Refused {
        var index := if key in history.cursor then history.cursor[key] else 0;
        posts := posts[key.sid := (if key.sid in posts then posts[key.sid] else []) + [FromJob(key, index, line)]];
        if outcome == Acked {
          control := Advancing(key, offset + |line| + 1);
        }
      }
    }

    method MoveOffset()
      requires control.Advancing? && control.key in jobs
      modifies this`jobs, this`control, this`history
      ensures Now() == DoAdvance(old(Now())) && control == Idle && jobs.Keys == old(jobs.Keys)
      ensures forall k :: k in jobs ==> jobs[k].phase == old(jobs)[k].phase && jobs[k].size == old(jobs)[k].size
      ensures forall k :: k in jobs && k != old(control).key ==> jobs[k] == old(jobs)[k]
      ensures forall k: Key :: k != old(control).key ==>
                (k in history.cursor <==> k in old(history).cursor)
                && (k in history.cursor ==> history.cursor[k] == old(history).cursor[k])
    {
      var key, next := control.key, control.next;
      var index := if key in history.cursor then history.cursor[key] else 0;
      jobs := jobs[key := jobs[key].(offset := next)];
      control := Idle;
      history := history.(cursor := history.cursor[key := index + 1]);
    }

    lemma FiledStays(w: World, v: World)
      requires v == Now() && v.disk.jobs.Keys == w.disk.jobs.Keys && v.disk.files == w.disk.files
      requires v.disk.sessions == w.disk.sessions
      requires forall k :: k in w.disk.jobs ==>
                 v.disk.jobs[k].phase == w.disk.jobs[k].phase && v.disk.jobs[k].size == w.disk.jobs[k].size
      requires forall k :: k in w.disk.jobs && k.sid in w.disk.sessions && w.disk.jobs[k].phase == Done ==>
                 k in w.disk.files && w.disk.jobs[k].size == |w.disk.files[k]|
      ensures Filed()
    {
    }

    // ---- Cleaning up ----

    /** Expired sessions go one by one, except the one the worker is busy for. */
    method Cleanup(order: seq<Text>, rows: seq<Key>) returns (ghost actions: seq<Action>)
      requires control == Idle && forall k :: k in jobs ==> k in rows
      modifies this
      ensures Now() == Steps(g, old(Now()), actions) && control == Idle
      ensures swept <==> old(swept) || forall sid :: sid in sessions ==> sessions[sid] > booted
    {
      hide Steps, Step;
      ghost var w := Now();
      NoSteps(g, w);
      actions := [];
      var i := 0;
      while i < |order|
        invariant i <= |order| && control == Idle && Now() == Steps(g, w, actions) && swept == old(swept)
        invariant forall k :: k in jobs ==> k in rows
      {
        var sid := order[i];
        if sid in sessions && sessions[sid] <= now && !(worker != Free && worker.key.sid == sid) {
          ghost var more := Retire(sid, rows);
          StepsOn(g, w, actions, more);
          actions := actions + more;
        }
        i := i + 1;
      }
      if forall sid :: sid in sessions ==> sessions[sid] > booted {
        ghost var before := Now();
        swept := true;
        SweepStep(g, before, Now());
        StepsAppend(g, w, actions, SweepEnd);
        actions := actions + [SweepEnd];
      }
    }

    /** The spool files of a session, its streams, and at last its rows. */
    method Retire(sid: Text, rows: seq<Key>) returns (ghost actions: seq<Action>)
      requires control == Idle && sid in sessions && sessions[sid] <= now && !Active(Now(), sid)
      requires forall k :: k in jobs ==> k in rows
      modifies this
      ensures Now() == Steps(g, old(Now()), actions) && control == Idle && swept == old(swept)
      ensures forall k :: k in jobs ==> k in rows
    {
      hide Steps, Step, DoCleanEnd, Active;
      ghost var w := Now();
      Condemn(sid);
      OneStep(g, w, CleanBegin(sid));
      actions := [CleanBegin(sid)];
      ghost var more := UnlinkAll(sid, rows);
      StepsOn(g, w, actions, more);
      actions := actions + more;
      ClearStreams(sid);
      StepsAppend(g, w, actions, CleanStreams);
      actions := actions + [CleanStreams];
      DropRows(sid);
      StepsAppend(g, w, actions, CleanEnd);
      actions := actions + [CleanEnd];
    }

    method Condemn(sid: Text)
      requires control == Idle && sid in sessions && sessions[sid] <= now && !Active(Now(), sid)
      modifies this`control, this`history
      ensures Now() == Step(g, old(Now()), CleanBegin(sid)) && control == Cleaning(sid)
    {
      hide Step, Active;
      ghost var w := Now();
      control := Cleaning(sid);
      history := history.(condemned := history.condemned + {sid});
      BeginStep(g, w, Now(), sid);
    }

    method ClearStreams(sid: Text)
      requires control == Cleaning(sid)
      modifies this`requests, this`acked, this`deadlines
      ensures Now() == Step(g, old(Now()), CleanStreams)
    {
      hide Step;
      ghost var w := Now();
      requests := requests[sid := []];
      acked := acked[sid := |if sid in posts then posts[sid] else []|];
      deadlines := deadlines - {sid};
      StreamsStep(g, w, Now(), sid);
    }

    method DropRows(sid: Text)
      requires control == Cleaning(sid) && forall k :: k in jobs && k.sid == sid ==> k !in files
      modifies this`sessions, this`jobs, this`control
      ensures Now() == Step(g, old(Now()), CleanEnd) && control == Idle && jobs.Keys <= old(jobs.Keys)
    {
      hide Step;
      ghost var w := Now();
      sessions := sessions - {sid};
      jobs := map k | k in jobs && k.sid != sid :: jobs[k];
      control := Idle;
      EndStep(g, w, Now(), sid);
    }

    method UnlinkAll(sid: Text, rows: seq<Key>) returns (ghost actions: seq<Action>)
      requires control == Cleaning(sid) && forall k :: k in jobs ==> k in rows
      modifies this`files
      ensures Now() == Steps(g, old(Now()), actions)
      ensures forall k :: k in jobs && k.sid == sid ==> k !in files
    {
      hide Steps, Step;
      ghost var w := Now();
      NoSteps(g, w);
      actions := [];
      var i := 0;
      while i < |rows|
        invariant i <= |rows| && Now() == Steps(g, w, actions)
        invariant forall j :: 0 <= j < i && rows[j] in jobs && rows[j].sid == sid ==> rows[j] !in files
      {
        var key := rows[i];
        if key in jobs && key.sid == sid {
          ghost var before := Now();
          files := files - {key};
          UnlinkStep(g, before, Now(), key);
          StepsAppend(g, w, actions, CleanUnlink(key));
          actions := actions + [CleanUnlink(key)];
        }
        i := i + 1;
      }
    }
  }

  lemma BeginStep(g: Gateway, w: World, v: World, sid: Text)
    requires w.process.control == Idle && sid in w.disk.sessions && w.disk.sessions[sid] <= w.now && !Active(w, sid)
    requires v == WithControl(w, Cleaning(sid)).(history := w.history.(condemned := w.history.condemned + {sid}))
    ensures v == Step(g, w, CleanBegin(sid))
  {
  }

  lemma UnlinkStep(g: Gateway, w: World, v: World, key: Key)
    requires w.process.control == Cleaning(key.sid) && key in w.disk.jobs
    requires v == w.(disk := w.disk.(files := w.disk.files - {key}))
    ensures v == Step(g, w, CleanUnlink(key))
  {
  }

  lemma StreamsStep(g: Gateway, w: World, v: World, sid: Text)
    requires w.process.control == Cleaning(sid)
    requires v
         == w.(redis := w.redis.(requests := w.redis.requests[sid := []],
                                 acked := w.redis.acked[sid := |PostsOf(w, sid)|],
                                       deadlines := w.redis.deadlines - {sid}))
    ensures v == Step(g, w, CleanStreams)
  {
  }

  lemma EndStep(g: Gateway, w: World, v: World, sid: Text)
    requires w.process.control == Cleaning(sid) && (forall k :: k in w.disk.jobs && k.sid == sid ==> k !in w.disk.files)
    requires v == DoCleanEnd(w)
    ensures v == Step(g, w, CleanEnd)
  {
    hide DoCleanEnd;
  }

  lemma SweepStep(g: Gateway, w: World, v: World)
    requires w.process.control == Idle
    requires (forall sid :: sid in w.disk.sessions ==> w.disk.sessions[sid] > w.process.booted)
    requires v == w.(process := w.process.(swept := true))
    ensures v == Step(g, w, SweepEnd)
  {
  }

  lemma Unchanged(w: World, sid: Text)
    ensures SameFor(w, w, sid)
  {
  }

  lemma PostsStay(w: World, v: World, sid: Text)
    requires SameFor(w, v, sid)
    ensures PostsOf(w, sid) == PostsOf(v, sid)
  {
  }

  lemma SameDecision(g: Gateway, w: World, v: World, sid: Text, text: Text)
    requires w.disk == v.disk
    ensures Decide(g, w, sid, text) == Decide(g, v, sid, text)
  {
    hide BodyTotal, JobCount;
  }

  lemma SameRoom(w: World, v: World, sid: Text)
    requires PostsOf(w, sid) == PostsOf(v, sid) && w.redis.acked == v.redis.acked
    ensures HasRoom(w, sid) == HasRoom(v, sid)
  {
  }

  lemma SameRows(rows: seq<Key>, a: map<Key, Job>, b: map<Key, Job>)
    requires Lists(rows, a) && a.Keys == b.Keys
    ensures Lists(rows, b)
  {
    forall k ensures k in b <==> k in rows {
      assert k in a <==> k in a.Keys;
    }
  }
}
