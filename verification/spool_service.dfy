/** What the gateway expects of a finished spool, and that every use of it delivers that:
    the size of the file and the shape of the log are derived here, nowhere assumed. */
module SpoolService {
  import opened Text
  import opened JsonText
  import opened Frames
  import opened Journal
  import opened JournalRuns
  import opened JournalLogs
  import opened JournalBudget
  import opened JournalSafety
  import opened SpoolBudget
  import Reassembly
  import InlineReplies
  import JournalPosts
  import JournalRequests
  import JournalAnswers
  import A = Answers
  import W = Spooling
  import Log = SpoolLog

  /** A complete log of at most this many frames is a log to the journal. */
  lemma CompleteIsLog(id: Text, frames: seq<Json>)
    requires Log.CompleteLog(id, frames) && |frames| <= UINT64_MAX
    ensures IsLog(id, frames)
  {
    hide Dump, IsTerminal, Log.AllPartial, Ascii;
    forall i | 0 <= i < |frames|
      ensures frames[i].Obj? && SEQ in frames[i].m && frames[i].m[SEQ] == Num(i) && Addressed(id, frames[i].m)
    {
      assert Log.FrameAt(id, frames[i], i);
    }
  }

  /** A finished answer is a log that keeps to the limit of its spool. */
  lemma AnswerIsLog(w: W.Host, a: A.Answer)
    requires A.Proper(w, a) && A.Outcome(w, a).1.Ok()
    requires IsId(a.id) && a.limit >= W.TERMINAL_RESERVE && (a.end.Finished? ==> A.Short(a.end.status))
    ensures var t := A.Outcome(w, a).0;
            IsLog(a.id, t.frames) && t.file == Lines(t.frames) && |t.file| <= a.limit
  {
    hide Dump, Lines, A.Outcome, A.ItemsThenEnd, IsLog, Log.CompleteLog, Ascii;
    A.AnswerIsComplete(w, a);
    A.AnswerFits(w, a);
    CompleteIsLog(a.id, A.Outcome(w, a).0.frames);
  }

  /** The limit of the spool that a worker is given. */
  function WorkerLimit(available: int): nat { if available < MIN_LIMIT then MIN_LIMIT else available }

  /** The job in flight answers a valid id and was given no more than a session may hold. */
  lemma InFlight(g: Gateway, actions: seq<Action>)
    requires Lawful(g) && After(g, actions).process.worker.Busy?
    ensures var worker := After(g, actions).process.worker;
            IsId(worker.key.id) && worker.available <= SESSION_BYTES
  {
    hide After, Ledger, OneRunning, RunOnce, InOrder, Swept, Logs, JournalPosts.Published, JournalRequests.Conserved;
    hide JournalAnswers.Answers, Lawful, Quotas, LargeTotal, LargeOf, IsId;
    AlwaysSafe(g, actions);
    var w := After(g, actions);
    assert IsRunning(w, w.process.worker.key);
    assert Fits(w.disk.jobs, w.process.worker.key.sid, w.process.worker.available);
  }

  /** How the worker answers the job it holds: once it has run it, or because too little is available. */
  ghost predicate WorkerAnswer(world: World, w: W.Host, a: A.Answer) {
    && world.process.worker.Busy? && (world.process.worker.ran || world.process.worker.available < MIN_AVAILABLE)
    && a.id == world.process.worker.key.id && a.limit == WorkerLimit(world.process.worker.available)
    && A.Proper(w, a) && (a.end.Finished? ==> A.Short(a.end.status))
  }

  /** Whatever the backend makes of its spool: if the spool finishes without a complaint,
      the worker can hand it over, and the file is the one the spool has written. */
  lemma SpoolServesWorker(g: Gateway, actions: seq<Action>, world: World, w: W.Host, a: A.Answer)
    requires Lawful(g) && world == After(g, actions) && WorkerAnswer(world, w, a) && A.Outcome(w, a).1.Ok()
    ensures var t := A.Outcome(w, a).0;
            && WorkerJobEnabled(world, SpoolWorker(t.frames))
            && WorkerJobNext(world, SpoolWorker(t.frames)).disk.files[world.process.worker.key] == t.file
  {
    hide After, Lines, A.Outcome, IsLog, Dump, A.Proper, Lawful;
    InFlight(g, actions);
    AnswerIsLog(w, a);
  }

  /** What the gateway answers by itself always fits: only the disk can fail it, and
      otherwise the main thread can go on with a file of at most 4 KiB. */
  lemma SpoolServesInline(g: Gateway, actions: seq<Action>, world: World, w: W.Host, reply: InlineReplies.Reply,
                          open: bool, synced: bool)
    requires Lawful(g) && world == After(g, actions) && world.process.control.Starting? && InlineReplies.Proper(reply)
    ensures var key := world.process.control.key;
            var record := InlineReplies.RecordOf(key.id, reply);
            var (t, final) := A.Outcome(w, A.Alone(key.id, open, record, synced));
            && (final.Ok() <==> open && synced && w.room(0) >= |W.Line(record, 0)|)
            && (final.Ok() ==>
                  && InlineJobEnabled(world, SpoolInline(t.frames))
                  && InlineJobNext(world, SpoolInline(t.frames)).disk.files[key] == t.file)
  {
    hide After, Lines, A.Outcome, IsLog, Dump, InlineReplies.RecordOf, Lawful, W.Line, Numbered;
    hide InlineReplies.Proper, IsTerminal;
    StartedId(g, actions);
    var id := world.process.control.key.id;
    var record := InlineReplies.RecordOf(id, reply);
    InlineReplies.InlineEnds(id, reply);
    InlineReplies.InlineIsShort(id, reply);
    A.ShortReply(w, id, open, record, synced);
    if A.Outcome(w, A.Alone(id, open, record, synced)).1.Ok() {
      AnswerIsLog(w, A.Alone(id, open, record, synced));
    }
  }

  lemma StartedId(g: Gateway, actions: seq<Action>)
    requires Lawful(g) && After(g, actions).process.control.Starting?
    ensures IsId(After(g, actions).process.control.key.id)
  {
    hide After, Ledger, OneRunning, RunOnce, InOrder, Swept, Logs, JournalPosts.Published, JournalRequests.Conserved;
    hide JournalAnswers.Answers, Lawful, Quotas, Weights, IsId;
    AlwaysSafe(g, actions);
    var w := After(g, actions);
    assert IsRunning(w, w.process.control.key);
  }
}
