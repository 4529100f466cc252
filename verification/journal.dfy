/** The gateway as a machine: one action is one durable effect, and it may stop between
    any two of them. A disabled action changes nothing, so every sequence is a run. */
module Journal {
  import opened Text
  import opened JsonText
  import opened Frames
  import LineFile
  import Log = SpoolLog
  import opened Sums

  const WINDOW := 32
  const MAX_SESSIONS := 32
  const JOBS_PER_SESSION := 128
  const RETAINED_BODIES := 16 * 1024 * 1024
  const LEASE := 3600
  const TOTAL_BYTES := 256 * 1024 * 1024
  const SESSION_BYTES := 64 * 1024 * 1024
  const MIN_AVAILABLE := 4096
  const MIN_LIMIT := 1024
  /** Inline handlers answer with a capability list or a transfer position. */
  const SMALL_REPLY := 4096

  /** What the code asks of a request text. `body` is its canonical form. */
  datatype Request =
    | Malformed
    | Chunk(id: Text)
    | Replay(id: Text, body: Text, target: Option<Text>)
    | Order(id: Text, body: Text)

  datatype Gateway = Gateway(read: Text -> Request)

  datatype Key = Key(sid: Text, id: Text)

  datatype Phase = Queued | Running | Done

  /** `row` is the order of insertion, over the whole life of the journal; the database may
      use the number of a row again once it is deleted. */
  datatype Job = Job(row: nat, body: Text, phase: Phase, offset: nat, size: nat)

  datatype Entry = Entry(number: nat, body: Text)

  /** A response entry and where it came from. */
  datatype Post = FromJob(key: Key, index: nat, line: Text) | Direct(id: Text, line: Text)

  datatype Publish = Acked | Lost | Refused

  /** Why an entry may leave its stream. */
  datatype Reason = Journaled | Replayed | Replied(id: Text)

  datatype Departure = Departure(sid: Text, entry: Entry, reason: Reason)

  /** Where the main thread stands between two effects. */
  datatype Control =
    | Down
    | Recovering
    | Rewriting(key: Key)
    | Remarking(key: Key)
    | Idle
    | Removing(sid: Text, entry: Entry, reason: Reason)
    | Starting(key: Key, ran: bool)
    | Marking(key: Key)
    | Advancing(key: Key, next: nat)
    | Cleaning(sid: Text)

  datatype Worker = Free | Busy(key: Key, available: int, ran: bool) | Ready(key: Key, available: int)

  /** How a finished job was answered: by running it, by refusing to, or after a crash. */
  datatype Origin = Executed | Rejected | OutcomeUnknown

  /** The journal database and the spool directory. */
  datatype Disk = Disk(sessions: map<Text, int>, jobs: map<Key, Job>, nextRow: nat, files: map<Key, Text>)

  /** The streams. Of the posts of a session the first `acked` have been deleted. A request
      stream with a deadline is dropped some time after it. */
  datatype Redis = Redis(requests: map<Text, seq<Entry>>, nextEntry: nat, posts: map<Text, seq<Post>>,
                         acked: map<Text, nat>, deadlines: map<Text, int>)

  datatype Process = Process(control: Control, worker: Worker, booted: int, swept: bool)

  datatype Run = Run(key: Key, body: Text)

  /** What happened so far; no action depends on it. */
  datatype History = History(registered: set<Text>, condemned: set<Text>, accepted: map<Key, Text>, runs: seq<Run>,
                             starts: seq<nat>, content: map<Key, seq<Json>>, origin: map<Key, Origin>,
                             cursor: map<Key, nat>, departures: seq<Departure>)

  datatype World = World(now: int, disk: Disk, redis: Redis, process: Process, history: History)

  const NOTHING := World(0, Disk(map[], map[], 0, map[]), Redis(map[], 0, map[], map[], map[]),
                         Process(Down, Free, 0, false),
                         History({}, {}, map[], [], [], map[], map[], map[], []))

  datatype Action =
    | Tick(time: int)
    | Send(sid: Text, body: Text)
    | Acknowledge(sid: Text)
    | Touch(sid: Text)
    | Lapse(sid: Text)
    | Crash
    | Boot
    | RecoverOpen(key: Key, torn: Text)
    | RecoverWrite
    | RecoverMark
    | RecoverEnd
    | SweepEnd
    | CleanBegin(sid: Text)
    | CleanUnlink(key: Key)
    | CleanStreams
    | CleanEnd
    | Register(sid: Text)
    | Receive(sid: Text, outcome: Publish, reply: Json)
    | Remove(gone: bool)
    | Start(key: Key)
    | Tear(key: Key, torn: Text)
    | RunInline(renews: bool)
    | SpoolInline(frames: seq<Json>)
    | Mark
    | Submit
    | RunWorker
    | SpoolWorker(frames: seq<Json>)
    | Complete
    | Deliver(key: Key, outcome: Publish)
    | Advance

  // ---- The parts of the program actions belong to ----

  /** The clock, the clients, the streams with their deadlines, and the process as a whole. */
  predicate Outside(a: Action) { a.Tick? || a.Send? || a.Acknowledge? || a.Touch? || a.Lapse? || a.Crash? || a.Boot? }

  predicate Recovery(a: Action) { a.RecoverOpen? || a.RecoverWrite? || a.RecoverMark? || a.RecoverEnd? || a.SweepEnd? }

  predicate Cleanup(a: Action) { a.CleanBegin? || a.CleanUnlink? || a.CleanStreams? || a.CleanEnd? }

  predicate Admission(a: Action) { a.Register? || a.Receive? || a.Remove? }

  predicate InlineJob(a: Action) { a.Start? || a.Tear? || a.RunInline? || a.SpoolInline? || a.Mark? }

  predicate WorkerJob(a: Action) { a.Submit? || a.RunWorker? || a.SpoolWorker? || a.Complete? }

  predicate Delivery(a: Action) { a.Deliver? || a.Advance? }

  // ---- Queries ----

  function PostsOf(w: World, sid: Text): seq<Post> { if sid in w.redis.posts then w.redis.posts[sid] else [] }

  function AckedOf(w: World, sid: Text): nat { if sid in w.redis.acked then w.redis.acked[sid] else 0 }

  function RequestsOf(w: World, sid: Text): seq<Entry> { if sid in w.redis.requests then w.redis.requests[sid] else [] }

  function JobCount(jobs: map<Key, Job>, sid: Text): nat { |set k | k in jobs && k.sid == sid| }

  /** What SQLite's length() makes of a text: bytes that continue a character do not count. */
  function Characters(t: Text): (n: nat)
    ensures n <= |t|
  {
    if t == [] then 0 else (if 128 <= t[0] < 192 then 0 else 1) + Characters(t[1..])
  }

  function BodyWeight(): Job -> nat { (job: Job) => Characters(job.body) }

  function SizeWeight(): Job -> nat { (job: Job) => job.size }

  ghost function BodyTotal(jobs: map<Key, Job>): nat { Sum(jobs, jobs.Keys, BodyWeight()) }

  ghost function SizeTotal(jobs: map<Key, Job>): nat { Sum(jobs, jobs.Keys, SizeWeight()) }

  ghost function SessionSize(jobs: map<Key, Job>, sid: Text): nat {
    Sum(jobs, (set k | k in jobs && k.sid == sid), SizeWeight())
  }

  ghost function Available(jobs: map<Key, Job>, sid: Text): int {
    var all, own := TOTAL_BYTES - SizeTotal(jobs), SESSION_BYTES - SessionSize(jobs, sid);
    if all < own then all else own
  }

  /** A log as any spool leaves it, its sizes aside. */
  ghost predicate IsLog(id: Text, frames: seq<Json>) {
    && 0 < |frames| <= UINT64_MAX && Log.AllPartial(frames[..|frames| - 1])
    && (IsTerminal(frames[|frames| - 1]) || Log.AllPartial(frames))
    && forall i :: 0 <= i < |frames| ==>
         && frames[i].Obj? && SEQ in frames[i].m && frames[i].m[SEQ] == Num(i) && Addressed(id, frames[i].m)
  }

  const OUTCOME_UNKNOWN := Status(Ascii("outcome_unknown"),
                                  Ascii("Gateway interrupted; do not automatically repeat mutations"))

  function RecoveryLog(id: Text): seq<Json> { [Numbered(ErrorRecord(id, OUTCOME_UNKNOWN), 0)] }

  /** What admission does with the first entry of a session. */
  datatype Decision = Drop(reason: Reason) | Reply(id: Text) | Rewind(key: Key) | Insert(key: Key, body: Text)

  const INVALID := Ascii("invalid")

  ghost function Admit(w: World, key: Key, body: Text): Decision {
    if JobCount(w.disk.jobs, key.sid) >= JOBS_PER_SESSION || BodyTotal(w.disk.jobs) + |body| > RETAINED_BODIES
    then Reply(key.id)
    else Insert(key, body)
  }

  ghost function Decide(g: Gateway, w: World, sid: Text, text: Text): Decision {
    match g.read(text)
    case Malformed => Reply(INVALID)
    case Chunk(id) => Reply(id)
    case Replay(id, body, target) =>
      if Key(sid, id) in w.disk.jobs then
        (if w.disk.jobs[Key(sid, id)].body == body then Drop(Journaled) else Reply(id))
      else if target.None? || Key(sid, target.value) !in w.disk.jobs then Reply(id)
      else if w.disk.jobs[Key(sid, target.value)].phase == Done then Rewind(Key(sid, target.value))
      else Drop(Replayed)
    case Order(id, body) =>
      if Key(sid, id) in w.disk.jobs then
        (if w.disk.jobs[Key(sid, id)].body == body then Drop(Journaled) else Reply(id))
      else Admit(w, Key(sid, id), body)
  }

  /** Only a new id of the same session is inserted, within the quotas; only a finished
      job is rewound. */
  ghost predicate Decided(w: World, sid: Text, decision: Decision) {
    match decision
    case Insert(key, body) =>
      && key.sid == sid && key !in w.disk.jobs && sid in w.disk.sessions
        && JobCount(w.disk.jobs, sid) < JOBS_PER_SESSION
      && BodyTotal(w.disk.jobs) + |body| <= RETAINED_BODIES
    case Rewind(key) => key.sid == sid && key in w.disk.jobs && w.disk.jobs[key].phase == Done
    case _ => true
  }

  lemma DecideFacts(g: Gateway, w: World, sid: Text, text: Text)
    requires sid in w.disk.sessions
    ensures Decided(w, sid, Decide(g, w, sid, text))
  {
    hide BodyTotal, JobCount;
  }

  // ---- When an action can happen ----

  predicate Active(w: World, sid: Text) { w.process.worker != Free && w.process.worker.key.sid == sid }

  predicate NeedsRecovery(w: World, key: Key) {
    key in w.disk.jobs
      && (w.disk.jobs[key].phase == Running || (w.disk.jobs[key].phase == Done && key !in w.disk.files))
  }

  predicate HasRoom(w: World, sid: Text) { |PostsOf(w, sid)| < AckedOf(w, sid) + WINDOW }

  /** The gateway serves: idle, and cleaned up once since it started. */
  predicate Serving(w: World) { w.process.control == Idle && w.process.swept }

  predicate Pending(w: World, key: Key) {
    key in w.disk.jobs && w.disk.jobs[key].phase == Done && w.disk.jobs[key].offset < w.disk.jobs[key].size
  }

  ghost predicate OutsideEnabled(w: World, a: Action)
    requires Outside(a)
  {
    var control, worker, jobs := w.process.control, w.process.worker, w.disk.jobs;
    match a
    case Tick(time) => w.now <= time
    case Send(sid, body) => true
    case Acknowledge(sid) => AckedOf(w, sid) < |PostsOf(w, sid)|
    case Touch(sid) => Serving(w) && sid in w.disk.sessions && w.disk.sessions[sid] > w.now && RequestsOf(w, sid) != []
    case Lapse(sid) => sid in w.redis.deadlines && w.redis.deadlines[sid] <= w.now
    case Crash => true
    case Boot => control == Down
  }

  ghost predicate RecoveryEnabled(w: World, a: Action)
    requires Recovery(a)
  {
    var control, worker, jobs := w.process.control, w.process.worker, w.disk.jobs;
    match a
    case RecoverOpen(key, torn) => control == Recovering && NeedsRecovery(w, key)
    case RecoverWrite => control.Rewriting?
    case RecoverMark => control.Remarking? && control.key in jobs && control.key in w.disk.files
    case RecoverEnd => control == Recovering && forall k :: k in jobs ==> !NeedsRecovery(w, k)
    case SweepEnd => control == Idle && forall sid :: sid in w.disk.sessions ==> w.disk.sessions[sid] > w.process.booted
  }

  ghost predicate CleanupEnabled(w: World, a: Action)
    requires Cleanup(a)
  {
    var control, worker, jobs := w.process.control, w.process.worker, w.disk.jobs;
    match a
    case CleanBegin(sid) => control == Idle && sid in w.disk.sessions && w.disk.sessions[sid] <= w.now
      && !Active(w, sid)
    case CleanUnlink(key) => control == Cleaning(key.sid) && key in jobs
    case CleanStreams => control.Cleaning?
    case CleanEnd => control.Cleaning? && forall k :: k in jobs && k.sid == control.sid ==> k !in w.disk.files
  }

  ghost predicate AdmissionEnabled(g: Gateway, w: World, a: Action)
    requires Admission(a)
  {
    var control, worker, jobs := w.process.control, w.process.worker, w.disk.jobs;
    match a
    case Register(sid) => Serving(w) && sid !in w.history.registered && |w.disk.sessions| < MAX_SESSIONS
    case Receive(sid, outcome, reply) =>
      && Serving(w) && sid in w.disk.sessions && w.disk.sessions[sid] > w.now && RequestsOf(w, sid) != []
      && var decision := Decide(g, w, sid, RequestsOf(w, sid)[0].body);
      && (decision.Reply? ==> reply.Obj? && Addressed(decision.id, reply.m) && (outcome != Refused ==> HasRoom(w, sid)))
    case Remove(gone) => control.Removing?
  }

  ghost predicate InlineJobEnabled(w: World, a: Action)
    requires InlineJob(a)
  {
    var control, worker, jobs := w.process.control, w.process.worker, w.disk.jobs;
    match a
    case Start(key) =>
      && Serving(w) && worker == Free && key in jobs && jobs[key].phase == Queued
      && forall k :: k in jobs && jobs[k].phase == Queued ==> jobs[key].row <= jobs[k].row
    case Tear(key, torn) => (control.Starting? && control.key == key) || (worker.Busy? && worker.key == key)
    case RunInline(renews) => control.Starting? && !control.ran && control.key in jobs
    case SpoolInline(frames) => control.Starting? && IsLog(control.key.id, frames) && |Lines(frames)| <= SMALL_REPLY
    case Mark => control.Marking? && control.key in jobs && control.key in w.disk.files
  }

  ghost predicate WorkerJobEnabled(w: World, a: Action)
    requires WorkerJob(a)
  {
    var control, worker, jobs := w.process.control, w.process.worker, w.disk.jobs;
    match a
    case Submit => control.Starting? && !control.ran
    case RunWorker => worker.Busy? && !worker.ran && worker.available >= MIN_AVAILABLE && worker.key in jobs
    case SpoolWorker(frames) =>
      && worker.Busy? && (worker.ran || worker.available < MIN_AVAILABLE) && IsLog(worker.key.id, frames)
      && |Lines(frames)| <= (if worker.available < MIN_LIMIT then MIN_LIMIT else worker.available)
    case Complete => control == Idle && worker.Ready? && worker.key in jobs && worker.key in w.disk.files
  }

  ghost predicate DeliveryEnabled(w: World, a: Action)
    requires Delivery(a)
  {
    var control, worker, jobs := w.process.control, w.process.worker, w.disk.jobs;
    match a
    case Deliver(key, outcome) =>
      && Serving(w) && key.sid in w.disk.sessions && Pending(w, key)
      && (forall k: Key :: k.sid == key.sid && Pending(w, k) ==> jobs[key].row <= jobs[k].row)
      && key in w.disk.files && jobs[key].offset < |w.disk.files[key]|
      && (outcome != Refused ==> HasRoom(w, key.sid))
    case Advance => control.Advancing? && control.key in jobs
  }

  ghost predicate Enabled(g: Gateway, w: World, a: Action) {
    if Outside(a) then OutsideEnabled(w, a)
    else if Recovery(a) then RecoveryEnabled(w, a)
    else if Cleanup(a) then CleanupEnabled(w, a)
    else if Admission(a) then AdmissionEnabled(g, w, a)
    else if InlineJob(a) then InlineJobEnabled(w, a)
    else if WorkerJob(a) then WorkerJobEnabled(w, a)
    else DeliveryEnabled(w, a)
  }

  // ---- What it does ----

  function WithControl(w: World, control: Control): World { w.(process := w.process.(control := control)) }

  function WithPost(w: World, sid: Text, post: Post): World {
    w.(redis := w.redis.(posts := w.redis.posts[sid := PostsOf(w, sid) + [post]]))
  }

  function WithJob(w: World, key: Key, job: Job): World { w.(disk := w.disk.(jobs := w.disk.jobs[key := job])) }

  function WithFile(w: World, key: Key, bytes: Text): World { w.(disk := w.disk.(files := w.disk.files[key := bytes])) }

  /** The job is answered by what its file holds, to be delivered from the start. */
  function MarkDone(w: World, key: Key): World
    requires key in w.disk.jobs && key in w.disk.files
  {
    WithJob(w, key, w.disk.jobs[key].(phase := Done, size := |w.disk.files[key]|, offset := 0))
    .(history := w.history.(cursor := w.history.cursor[key := 0]))
  }

  /** History: a log was completed in the file of a running job. */
  function Answered(w: World, key: Key, frames: seq<Json>, origin: Origin): World {
    WithFile(w, key, Lines(frames))
    .(history := w.history.(content := w.history.content[key := frames], origin := w.history.origin[key := origin]))
  }

  function NoteRun(w: World, key: Key): World
    requires key in w.disk.jobs
  {
    w.(history := w.history.(runs := w.history.runs + [Run(key, w.disk.jobs[key].body)]))
  }

  function DoReceive(w: World, sid: Text, entry: Entry, decision: Decision, outcome: Publish, reply: Json): World {
    match decision
    case Drop(reason) => WithControl(w, Removing(sid, entry, reason))
    case Reply(id) =>
      if outcome == Refused then w
      else
        var posted := WithPost(w, sid, Direct(id, Dump(reply)));
        if outcome == Lost then posted else WithControl(posted, Removing(sid, entry, Replied(id)))
    case Rewind(key) =>
      if key !in w.disk.jobs then w
      else
        WithControl(WithJob(w, key, w.disk.jobs[key].(offset := 0)), Removing(sid, entry, Replayed))
        .(history := w.history.(cursor := w.history.cursor[key := 0]))
    case Insert(key, body) =>
      WithControl(w, Removing(sid, entry, Journaled))
      .(disk := w.disk.(jobs := w.disk.jobs[key := Job(w.disk.nextRow, body, Queued, 0, 0)],
                        nextRow := w.disk.nextRow + 1),
        history := w.history.(accepted := w.history.accepted[key := body]))
  }

  function DoRemove(w: World, gone: bool): World
    requires w.process.control.Removing?
  {
    var Removing(sid, entry, reason) := w.process.control;
    var idle := WithControl(w, Idle);
    var queue := RequestsOf(w, sid);
    if !gone || queue == [] || queue[0] != entry then idle
    else
      idle.(redis := w.redis.(requests := w.redis.requests[sid := queue[1..]]),
            history := w.history.(departures := w.history.departures + [Departure(sid, entry, reason)]))
  }

  function DoDeliver(w: World, key: Key, outcome: Publish): World
    requires key in w.disk.jobs && key in w.disk.files && w.disk.jobs[key].offset <= |w.disk.files[key]|
  {
    if outcome == Refused then w
    else
      var offset := w.disk.jobs[key].offset;
      var line := LineFile.FirstLine(w.disk.files[key][offset..]);
      var index := if key in w.history.cursor then w.history.cursor[key] else 0;
      var posted := WithPost(w, key.sid, FromJob(key, index, line));
      if outcome == Lost then posted else WithControl(posted, Advancing(key, offset + |line| + 1))
  }

  function DoAdvance(w: World): World
    requires w.process.control.Advancing? && w.process.control.key in w.disk.jobs
  {
    var Advancing(key, next) := w.process.control;
    var index := if key in w.history.cursor then w.history.cursor[key] else 0;
    WithControl(WithJob(w, key, w.disk.jobs[key].(offset := next)), Idle)
    .(history := w.history.(cursor := w.history.cursor[key := index + 1]))
  }

  function DoRecoverWrite(w: World): World
    requires w.process.control.Rewriting?
  {
    var key := w.process.control.key;
    var log := RecoveryLog(key.id);
    var marked := WithControl(w, Remarking(key));
    if key in w.disk.jobs && w.disk.jobs[key].phase == Running then Answered(marked, key, log, OutcomeUnknown)
    else WithFile(marked, key, Lines(log))
  }

  function DoCleanEnd(w: World): World
    requires w.process.control.Cleaning?
  {
    var sid := w.process.control.sid;
    WithControl(w, Idle)
    .(disk := w.disk.(sessions := w.disk.sessions - {sid},
                      jobs := map k | k in w.disk.jobs && k.sid != sid :: w.disk.jobs[k]))
  }

  ghost function OutsideNext(w: World, a: Action): World
    requires Outside(a) && OutsideEnabled(w, a)
  {
    var p := w.process;
    match a
    case Tick(time) => w.(now := time)
    case Send(sid, body) =>
      w.(redis := w.redis.(requests := w.redis.requests[sid := RequestsOf(w, sid) + [Entry(w.redis.nextEntry, body)]],
                           nextEntry := w.redis.nextEntry + 1))
    case Acknowledge(sid) => w.(redis := w.redis.(acked := w.redis.acked[sid := AckedOf(w, sid) + 1]))
    case Touch(sid) => w.(redis := w.redis.(deadlines := w.redis.deadlines[sid := w.now + LEASE]))
    case Lapse(sid) => w.(redis := w.redis.(requests := w.redis.requests[sid := []],
                                            deadlines := w.redis.deadlines - {sid}))
    case Crash => w.(process := p.(control := Down, worker := Free, swept := false))
    case Boot => w.(process := Process(Recovering, Free, w.now, false))
  }

  ghost function RecoveryNext(w: World, a: Action): World
    requires Recovery(a) && RecoveryEnabled(w, a)
  {
    var p := w.process;
    match a
    case RecoverOpen(key, torn) => WithControl(WithFile(w, key, torn), Rewriting(key))
    case RecoverWrite => DoRecoverWrite(w)
    case RecoverMark => WithControl(MarkDone(w, p.control.key), Recovering)
    case RecoverEnd => WithControl(w, Idle)
    case SweepEnd => w.(process := p.(swept := true))
  }

  ghost function CleanupNext(w: World, a: Action): World
    requires Cleanup(a) && CleanupEnabled(w, a)
  {
    var p := w.process;
    match a
    case CleanBegin(sid) =>
      WithControl(w, Cleaning(sid)).(history := w.history.(condemned := w.history.condemned + {sid}))
    case CleanUnlink(key) => w.(disk := w.disk.(files := w.disk.files - {key}))
    case CleanStreams =>
      w.(redis := w.redis.(requests := w.redis.requests[p.control.sid := []],
                           deadlines := w.redis.deadlines - {p.control.sid},
                           acked := w.redis.acked[p.control.sid := |PostsOf(w, p.control.sid)|]))
    case CleanEnd => DoCleanEnd(w)
  }

  ghost function AdmissionNext(g: Gateway, w: World, a: Action): World
    requires Admission(a) && AdmissionEnabled(g, w, a)
  {
    var p := w.process;
    match a
    case Register(sid) =>
      w.(disk := w.disk.(sessions := w.disk.sessions[sid := w.now + LEASE]),
         history := w.history.(registered := w.history.registered + {sid}))
    case Receive(sid, outcome, reply) =>
      var entry := RequestsOf(w, sid)[0];
      DoReceive(w, sid, entry, Decide(g, w, sid, entry.body), outcome, reply)
    case Remove(gone) => DoRemove(w, gone)
  }

  ghost function InlineJobNext(w: World, a: Action): World
    requires InlineJob(a) && InlineJobEnabled(w, a)
  {
    var p := w.process;
    match a
    case Start(key) =>
      WithControl(WithJob(w, key, w.disk.jobs[key].(phase := Running)), Starting(key, false))
      .(history := w.history.(starts := w.history.starts + [w.disk.jobs[key].row]))
    case Tear(key, torn) => WithFile(w, key, torn)
    case RunInline(renews) =>
      var sid := p.control.key.sid;
      var ran := WithControl(NoteRun(w, p.control.key), Starting(p.control.key, true));
      if renews && sid in w.disk.sessions then ran.(disk := w.disk.(sessions := w.disk.sessions[sid := w.now + LEASE]))
        else ran
    case SpoolInline(frames) =>
      WithControl(Answered(w, p.control.key, frames, if p.control.ran then Executed else Rejected),
                  Marking(p.control.key))
    case Mark => WithControl(MarkDone(w, p.control.key), Idle)
  }

  ghost function WorkerJobNext(w: World, a: Action): World
    requires WorkerJob(a) && WorkerJobEnabled(w, a)
  {
    var p := w.process;
    match a
    case Submit =>
      w.(process := p.(control := Idle,
                       worker := Busy(p.control.key, Available(w.disk.jobs, p.control.key.sid), false)))
    case RunWorker => NoteRun(w, p.worker.key).(process := p.(worker := p.worker.(ran := true)))
    case SpoolWorker(frames) =>
      Answered(w, p.worker.key, frames, if p.worker.ran then Executed else Rejected)
      .(process := p.(worker := Ready(p.worker.key, p.worker.available)))
    case Complete => MarkDone(w, p.worker.key).(process := p.(worker := Free))
  }

  ghost function DeliveryNext(w: World, a: Action): World
    requires Delivery(a) && DeliveryEnabled(w, a)
  {
    var p := w.process;
    match a
    case Deliver(key, outcome) => DoDeliver(w, key, outcome)
    case Advance => DoAdvance(w)
  }

  ghost function Next(g: Gateway, w: World, a: Action): World
    requires Enabled(g, w, a)
  {
    if Outside(a) then OutsideNext(w, a)
    else if Recovery(a) then RecoveryNext(w, a)
    else if Cleanup(a) then CleanupNext(w, a)
    else if Admission(a) then AdmissionNext(g, w, a)
    else if InlineJob(a) then InlineJobNext(w, a)
    else if WorkerJob(a) then WorkerJobNext(w, a)
    else DeliveryNext(w, a)
  }

  ghost function Step(g: Gateway, w: World, a: Action): World { if Enabled(g, w, a) then Next(g, w, a) else w }

  /** The world after any actions, from an empty state directory. */
  ghost function After(g: Gateway, actions: seq<Action>): World
    decreases |actions|
  {
    if actions == [] then NOTHING else Step(g, After(g, actions[..|actions| - 1]), actions[|actions| - 1])
  }
}
