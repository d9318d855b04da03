/** The dispatch worker as a machine of durable and network steps. A crash may fall between any two
    of them; it keeps the files and drops the process with its refusal counters. */
module AssetDispatch {
  import opened Common
  import opened AssetOutbox

  const MAX_REFUSALS := 10

  // ---- What the asset updater answers ----

  datatype JobStatus = Queued | Running | Cancelling | Done | Broken | Cancelled

  datatype Verification = Verification(
    region: Region, platform: string, environment: string, resourceVersion: string, platformHash: string,
    catalog: string, fullCatalog: bool, catalogVerified: bool
  )
  datatype Export = Export(full: bool, retained: bool)
  datatype JobOutcome = JobOutcome(verification: Verification, exported: Option<Export>, publication: Option<string>)

  /** An answer, or why there is none; `keyed` says whether the job carries this entry's idempotency digest. */
  datatype Reply =
    | Job(keyed: bool, id: string, status: JobStatus, outcome: Option<JobOutcome>)
    | Status(code: nat)
    | BadRequest
    | Protocol
    | Transport

  predicate MatchesOutcome(i: Identity, o: JobOutcome) {
    var v := o.verification;
    && v.region == i.region && v.environment == i.environment && v.platform == i.platform
    && v.resourceVersion == i.resourceVersion && v.platformHash == i.platformHash
    && v.catalogVerified
    && (i.requireFullCatalog ==> v.fullCatalog)
    && (i.requireFullExport ==> o.exported.Some? && o.exported.value.full && (o.exported.value.retained || o.publication.Some?))
    && (i.requirePublication ==> o.publication.Some?)
  }

  function RejectedSubmission(code: nat): Option<string> {
    if code in {400, 404, 405, 413, 415, 422} then Some("submission_rejected")
    else if code in {401, 403} then Some("submission_unauthorized")
    else if code == 409 then Some("idempotency_conflict")
    else None
  }

  /** An answer that guarantees the updater did not accept the job. */
  predicate Definite(reply: Reply) {
    reply == Status(429) || reply == Status(503)
  }

  // ---- What the worker does with an answer ----

  datatype Verdict =
    | Keep
    | GiveUp(code: string)
    | Reopen
    | Accept(job: string, next: Verdict)
    | Finish(job: string, catalog: string, publication: Option<string>)

  function JudgeJob(entry: Entry, job: Reply): Verdict
    requires job.Job?
  {
    match job.status
    case Broken => GiveUp("job_failed")
    case Cancelled => GiveUp("job_cancelled")
    case Done =>
      if job.outcome.Some? && MatchesOutcome(entry.identity, job.outcome.value)
      then Finish(job.id, job.outcome.value.verification.catalog, job.outcome.value.publication)
      else GiveUp("outcome_mismatch")
    case _ => Keep
  }

  function Judge(entry: Entry, reply: Reply, refusals: nat): Verdict {
    var pending := entry.state.Pending?;
    match reply
    case Job(keyed, id, _, _) =>
      if !keyed then GiveUp("job_identity_mismatch")
      else if pending then Accept(id, JudgeJob(entry, reply))
      else JudgeJob(entry, reply)
    case Status(code) =>
      if code == 404 && entry.state.Submitted? then GiveUp("job_pruned")
      else if Definite(reply) && pending then
        if refusals + 1 >= MAX_REFUSALS then GiveUp("submission_refused") else Reopen
      else if pending && RejectedSubmission(code).Some? then GiveUp(RejectedSubmission(code).value)
      else Keep
    case BadRequest => if pending then GiveUp("asset_dispatch_request_invalid") else Keep
    case Protocol => GiveUp("invalid_job_response")
    case Transport => Keep
  }

  /** The answers to a submission, one by one. */
  lemma SubmissionTable(entry: Entry, refusals: nat, reply: Reply)
    requires entry.state.Pending?
    ensures
      var v := Judge(entry, reply, refusals);
      && (reply in {Status(429), Status(503)} ==> v == if refusals < 9 then Reopen else GiveUp("submission_refused"))
      && (reply in {Status(400), Status(404), Status(405), Status(413), Status(415), Status(422)} ==> v == GiveUp("submission_rejected"))
      && (reply in {Status(401), Status(403)} ==> v == GiveUp("submission_unauthorized"))
      && (reply == Status(409) ==> v == GiveUp("idempotency_conflict"))
      && (reply.Status? && reply.code !in {400, 401, 403, 404, 405, 409, 413, 415, 422, 429, 503} ==> v == Keep)
      && (reply.BadRequest? ==> v == GiveUp("asset_dispatch_request_invalid"))
      && (reply.Protocol? ==> v == GiveUp("invalid_job_response"))
      && (reply.Transport? ==> v == Keep)
      && (reply.Job? && !reply.keyed ==> v == GiveUp("job_identity_mismatch"))
      && (reply.Job? && reply.keyed ==> v.Accept? && v.job == reply.id)
      && (reply.Job? && reply.keyed && reply.status.Broken? ==> v.next == GiveUp("job_failed"))
      && (reply.Job? && reply.keyed && reply.status.Cancelled? ==> v.next == GiveUp("job_cancelled"))
      && (reply.Job? && reply.keyed && (reply.status.Queued? || reply.status.Running? || reply.status.Cancelling?) ==> v.next == Keep)
  {
    hide MatchesOutcome;
  }

  /** The answers to a poll: only a lost job, a wrong or broken answer and a finished job settle it. */
  lemma PollTable(entry: Entry, refusals: nat, reply: Reply)
    requires entry.state.Submitted?
    ensures
      var v := Judge(entry, reply, refusals);
      && (reply == Status(404) ==> v == GiveUp("job_pruned"))
      && (reply.Status? && reply.code != 404 ==> v == Keep)
      && (reply.BadRequest? || reply.Transport? ==> v == Keep)
      && (reply.Protocol? ==> v == GiveUp("invalid_job_response"))
      && (reply.Job? && !reply.keyed ==> v == GiveUp("job_identity_mismatch"))
      && (reply.Job? && reply.keyed && reply.status.Broken? ==> v == GiveUp("job_failed"))
      && (reply.Job? && reply.keyed && reply.status.Cancelled? ==> v == GiveUp("job_cancelled"))
      && (reply.Job? && reply.keyed && (reply.status.Queued? || reply.status.Running? || reply.status.Cancelling?) ==> v == Keep)
  {
    hide MatchesOutcome;
  }

  // ---- The machine ----

  type Queue = seq<(Key, Entry)>

  /** Where the worker is. `Begun`, `Sent`, `Refusing` and `Settling` are about the first entry of the queue. */
  datatype Phase =
    | Idle
    | Pass(queue: Queue)
    | Begun(queue: Queue)
    | Sent(queue: Queue)
    | Refusing(queue: Queue)
    | Settling(queue: Queue, verdict: Verdict)

  datatype Process = Down | Up(refusals: map<Key, nat>, phase: Phase)

  /** What an observer of the wire and the disk would note. */
  datatype Event = Started | Posted(key: Key) | Refusal(key: Key) | Reopened(key: Key)

  datatype World = World(disk: Durable, process: Process, log: seq<Event>)

  datatype Label =
    | Observe(key: Key, identity: Identity)
    | StartPass(limit: nat)
    | RemovedTarget
    | Begin(now: nat)
    | CannotSend
    | Post
    | Ambiguous
    | Answer(reply: Reply)
    | WriteRefusal
    | Settle
    | EndPass
    | AdoptJob(key: Key, job: string)
    | CopyToArchive(key: Key)
    | Forget(key: Key)
    | Crash
    | Restart

  function Count(refusals: map<Key, nat>, k: Key): nat {
    if k in refusals then refusals[k] else 0
  }

  /** Write a transition; the worker stops when the outbox refuses it. */
  function Write(w: World, k: Key, a: Action, refusals: map<Key, nat>, phase: Phase): World {
    match Changed(w.disk.ledger, k, a)
    case Ok(l) => w.(disk := w.disk.(ledger := l), process := Up(refusals, phase))
    case Err(_) => w.(process := Down)
  }

  function Abandon(w: World, q: Queue, code: string): World
    requires w.process.Up? && q != []
  {
    Write(w, q[0].0, Fail(code), w.process.refusals - {q[0].0}, Pass(q[1..]))
  }

  function Carry(w: World, q: Queue, v: Verdict): World
    requires w.process.Up? && q != []
  {
    var k, refusals := q[0].0, w.process.refusals;
    match v
    case Keep => w.(process := Up(refusals, Pass(q[1..])))
    case GiveUp(code) => Abandon(w, q, code)
    case Reopen => w.(process := Up(refusals[k := Count(refusals, k) + 1], Refusing(q)))
    case Accept(job, next) =>
      Write(w, k, Acknowledge(job), refusals - {k}, if next.Keep? then Pass(q[1..]) else Settling(q, next))
    case Finish(job, catalog, publication) =>
      Write(w, k, Complete(job, catalog, publication), refusals, Pass(q[1..]))
  }

  function Selected(l: Ledger, limit: nat): Queue {
    LastKnown(l, limit);
    var batch := Batch(l, limit);
    seq(|batch|, i requires 0 <= i < |batch| => (batch[i], l.entries[batch[i]]))
  }

  /** One step; a label that is not enabled changes nothing. Operators act only between passes. */
  function Step(w: World, l: Label): World {
    if l.Restart? then
      if w.process.Down? then w.(process := Up(map[], Idle), log := w.log + [Started]) else w
    else if w.process.Down? then w
    else if l.Crash? then w.(process := Down)
    else match w.process.phase
      case Idle => StepIdle(w, l)
      case Pass(q) => if q != [] then StepPass(w, q, l) else if l.EndPass? then w.(process := w.process.(phase := Idle)) else w
      case Begun(q) =>
        if q == [] then w
        else if l.Post? then w.(process := w.process.(phase := Sent(q)), log := w.log + [Posted(q[0].0)])
        else if l.CannotSend? then Carry(w, q, Judge(q[0].1, BadRequest, 0))
        else w
      case Sent(q) =>
        if q == [] || !l.Answer? || l.reply.BadRequest? then w
        else
          var w' := if Definite(l.reply) then w.(log := w.log + [Refusal(q[0].0)]) else w;
          Carry(w', q, Judge(q[0].1, l.reply, Count(w.process.refusals, q[0].0)))
      case Refusing(q) =>
        if q == [] || !l.WriteRefusal? then w
        else
          var w' := Write(w, q[0].0, Refuse, w.process.refusals, Pass(q[1..]));
          if w'.process.Down? then w' else w'.(log := w.log + [Reopened(q[0].0)])
      case Settling(q, v) => if q == [] || !l.Settle? then w else Carry(w, q, v)
  }

  function StepIdle(w: World, l: Label): World
    requires w.process.Up?
  {
    var ledger := w.disk.ledger;
    match l
    case Observe(k, identity) =>
      if Known(w.disk, k) then w
      else w.(disk := w.disk.(ledger := ledger.(entries := ledger.entries[k := Entry(identity, Pending)])))
    case StartPass(limit) =>
      w.(disk := w.disk.(ledger := ledger.(cursor := NextCursor(ledger, limit))),
         process := w.process.(phase := Pass(Selected(ledger, limit))))
    case AdoptJob(k, job) =>
      var changed := Changed(ledger, k, Adopt(job));
      if changed.Ok? then w.(disk := w.disk.(ledger := changed.value)) else w
    case CopyToArchive(k) =>
      if k in ledger.entries && ledger.entries[k].state.Completed? && k !in w.disk.archive
      then w.(disk := w.disk.(archive := w.disk.archive[k := ledger.entries[k]])) else w
    case Forget(k) =>
      if k in w.disk.archive then w.(disk := w.disk.(ledger := Forgotten(ledger, k))) else w
    case _ => w
  }

  function StepPass(w: World, q: Queue, l: Label): World
    requires w.process.Up? && q != []
  {
    var (k, entry) := q[0];
    match l
    case RemovedTarget => Abandon(w, q, "target_removed")
    case Begin(now) => if entry.state.Pending? then Write(w, k, BeginSend(now), w.process.refusals, Begun(q)) else w
    case Ambiguous => if entry.state.Sending? then Abandon(w, q, "submission_ambiguous") else w
    case Answer(reply) => if entry.state.Submitted? then Carry(w, q, Judge(entry, reply, 0)) else w
    case _ => w
  }

  function Run(w: World, labels: seq<Label>): World {
    if labels == [] then w else Step(Run(w, labels[..|labels| - 1]), labels[|labels| - 1])
  }

  // ---- Reading the log ----

  /** The last event about a key, if any. */
  function Last(log: seq<Event>, k: Key): Option<Event> {
    if log == [] then None
    else
      var e := log[|log| - 1];
      if !e.Started? && e.key == k then Some(e) else Last(log[..|log| - 1], k)
  }

  /** How often a key was posted since the process started. */
  function Posts(log: seq<Event>, k: Key): nat {
    if log == [] then 0
    else
      var e := log[|log| - 1];
      if e.Started? then 0 else Posts(log[..|log| - 1], k) + (if e == Posted(k) then 1 else 0)
  }

  predicate Fresh(last: Option<Event>, k: Key) {
    last == None || last == Some(Reopened(k))
  }

  predicate Legal(log: seq<Event>, e: Event) {
    match e
    case Started => true
    case Posted(k) => Fresh(Last(log, k), k) && Posts(log, k) < MAX_REFUSALS
    case Refusal(k) => Last(log, k) == Some(Posted(k))
    case Reopened(k) => Last(log, k) == Some(Refusal(k))
  }

  ghost predicate Clean(log: seq<Event>) {
    forall n :: 0 <= n < |log| ==> Legal(log[..n], log[n])
  }

  lemma Append(log: seq<Event>, e: Event)
    ensures !e.Started? ==> Last(log + [e], e.key) == Some(e)
    ensures forall k :: e.Started? || e.key != k ==> Last(log + [e], k) == Last(log, k)
    ensures forall k :: Posts(log + [e], k) == if e.Started? then 0 else Posts(log, k) + (if e == Posted(k) then 1 else 0)
    ensures Clean(log) && Legal(log, e) ==> Clean(log + [e])
  {
    hide Legal;
    assert (log + [e])[..|log|] == log;
    assert forall n :: 0 <= n < |log| ==> (log + [e])[..n] == log[..n];
  }

  // ---- The invariant ----

  datatype Stage = Elsewhere | Marked | InFlight | Denied

  function StageOf(p: Process, k: Key): Stage {
    if p.Down? then Elsewhere
    else match p.phase
      case Begun(q) => if q != [] && q[0].0 == k then Marked else Elsewhere
      case Sent(q) => if q != [] && q[0].0 == k then InFlight else Elsewhere
      case Refusing(q) => if q != [] && q[0].0 == k then Denied else Elsewhere
      case _ => Elsewhere
  }

  function StateOf(d: Durable, k: Key): Option<State> {
    if k in d.ledger.entries then Some(d.ledger.entries[k].state) else None
  }

  /** What the files, the counter and the log say about one key. */
  datatype View = View(known: bool, state: Option<State>, up: bool, count: nat, stage: Stage, last: Option<Event>, posts: nat)

  function ViewOf(w: World, k: Key): View {
    View(Known(w.disk, k), StateOf(w.disk, k), w.process.Up?,
         if w.process.Up? then Count(w.process.refusals, k) else 0,
         StageOf(w.process, k), Last(w.log, k), Posts(w.log, k))
  }

  predicate Fits(v: View, k: Key) {
    && v.posts <= MAX_REFUSALS && v.count < MAX_REFUSALS
    && (!v.known ==> v.last == None && v.posts == 0)
    && match v.stage
       case Elsewhere =>
         v.state == Some(Pending) ==> Fresh(v.last, k) && (v.up ==> v.posts <= v.count)
       case Marked => v.state.Some? && v.state.value.Sending? && Fresh(v.last, k) && v.posts <= v.count
       case InFlight => v.state.Some? && v.state.value.Sending? && v.last == Some(Posted(k)) && v.posts <= v.count + 1
       case Denied => v.state.Some? && v.state.value.Sending? && v.last == Some(Refusal(k)) && v.posts <= v.count
  }

  /** The budget of a key: submissions of this process, and refusals counted. */
  predicate Within(w: World, k: Key) {
    Posts(w.log, k) <= MAX_REFUSALS && (w.process.Up? ==> Count(w.process.refusals, k) < MAX_REFUSALS)
  }

  /** An entry that has left `Pending`, within its budget. */
  predicate Past(w: World, k: Key) {
    k in w.disk.ledger.entries && !w.disk.ledger.entries[k].state.Pending? && Within(w, k)
  }

  /** Queued entries are distinct and still as they were selected. */
  ghost predicate QueueFrom(l: Ledger, q: Queue, from: nat) {
    && (forall i, j :: 0 <= i < j < |q| ==> q[i].0 != q[j].0)
    && (forall i :: from <= i < |q| ==> q[i].0 in l.entries && l.entries[q[i].0] == q[i].1)
  }

  ghost predicate PhaseOk(w: World) {
    w.process.Up? ==>
      match w.process.phase
      case Idle => true
      case Pass(q) => QueueFrom(w.disk.ledger, q, 0)
      case Begun(q) => q != [] && q[0].1.state.Pending? && QueueFrom(w.disk.ledger, q, 1)
      case Sent(q) => q != [] && q[0].1.state.Pending? && QueueFrom(w.disk.ledger, q, 1)
      case Refusing(q) => q != [] && q[0].1.state.Pending? && QueueFrom(w.disk.ledger, q, 1)
      case Settling(q, v) =>
        q != [] && QueueFrom(w.disk.ledger, q, 1) && (v.GiveUp? || v.Finish?) && Past(w, q[0].0)
  }

  ghost predicate Inv(w: World) {
    Clean(w.log) && PhaseOk(w) && forall k :: Fits(ViewOf(w, k), k)
  }

  /** The invariant for every key but one. */
  ghost predicate Others(w: World, k0: Key) {
    Clean(w.log) && forall k :: k != k0 ==> Fits(ViewOf(w, k), k)
  }

  lemma Rejoin(w: World, k0: Key)
    requires Others(w, k0) && PhaseOk(w) && Fits(ViewOf(w, k0), k0)
    ensures Inv(w)
  {
    hide Clean, PhaseOk, Fits, ViewOf;
  }

  lemma Split(w: World, k0: Key)
    requires Inv(w)
    ensures Others(w, k0) && Clean(w.log) && PhaseOk(w) && Fits(ViewOf(w, k0), k0)
  {
    hide Clean, PhaseOk, Fits, ViewOf;
  }

  /** Another key sees neither a step about `k0` nor its event. */
  lemma Unseen(w: World, w': World, k0: Key)
    requires Others(w, k0) && Clean(w'.log)
    requires forall k :: k != k0 ==> ViewOf(w', k) == ViewOf(w, k)
    ensures Others(w', k0)
  {
    hide Clean, Fits, ViewOf;
  }

  lemma LogKeeps(w: World, e: Event)
    requires !e.Started? && Others(w, e.key) && Legal(w.log, e)
    ensures Others(w.(log := w.log + [e]), e.key)
    ensures Last(w.log + [e], e.key) == Some(e)
    ensures Posts(w.log + [e], e.key) == Posts(w.log, e.key) + (if e.Posted? then 1 else 0)
  {
    hide Clean, Fits, Legal, Last, Posts;
    Append(w.log, e);
    Unseen(w, w.(log := w.log + [e]), e.key);
  }

  /** Stopping the process forgets the counters and the stage, which only weakens what is known. */
  lemma StopFits(w: World, k: Key)
    requires Fits(ViewOf(w, k), k)
    ensures Fits(ViewOf(w.(process := Down), k), k)
  {
    hide Last, Posts;
  }

  lemma StopKeeps(w: World)
    requires Inv(w)
    ensures Inv(w.(process := Down))
  {
    hide Clean, Fits, ViewOf;
    forall k ensures Fits(ViewOf(w.(process := Down), k), k) {
      StopFits(w, k);
    }
  }

  lemma OthersStop(w: World, k0: Key)
    requires Others(w, k0)
    ensures Others(w.(process := Down), k0)
  {
    hide Clean, Fits, ViewOf;
    forall k | k != k0 ensures Fits(ViewOf(w.(process := Down), k), k) {
      StopFits(w, k);
    }
  }

  lemma ChangedFacts(l: Ledger, k0: Key, a: Action)
    requires Changed(l, k0, a).Ok?
    ensures
      var l' := Changed(l, k0, a).value;
      && k0 in l.entries && Transition(l.entries[k0].state, a).Ok?
      && l'.entries.Keys == l.entries.Keys
      && l'.entries[k0].state == Transition(l.entries[k0].state, a).value
      && forall k :: k in l.entries && k != k0 ==> l'.entries[k] == l.entries[k]
  {
    hide Transition;
  }

  lemma QueueKeeps(l: Ledger, l': Ledger, q: Queue)
    requires q != [] && QueueFrom(l, q, 1)
    requires forall k :: k in l.entries && k != q[0].0 ==> k in l'.entries && l'.entries[k] == l.entries[k]
    ensures QueueFrom(l', q, 1) && QueueFrom(l', q[1..], 0)
  {}

  /** The views of the other keys when `q[0]` moves on, keeping disk changes to its own key. */
  lemma MoveUnseen(w: World, w': World, k0: Key)
    requires Others(w, k0) && w.process.Up? && w'.process.Up? && w'.log == w.log
    requires forall k :: k != k0 ==> Known(w'.disk, k) == Known(w.disk, k) && StateOf(w'.disk, k) == StateOf(w.disk, k)
    requires forall k :: k != k0 ==> Count(w'.process.refusals, k) == Count(w.process.refusals, k)
    requires forall k :: k != k0 ==> StageOf(w.process, k) == Elsewhere == StageOf(w'.process, k)
    ensures Others(w', k0)
  {
    hide Clean, Fits, Known, StateOf, Count, StageOf, Last, Posts;
    Unseen(w, w', k0);
  }

  /** The queue the worker is on, and whose first entry its stage is about. */
  function QueueOf(p: Phase): Queue {
    if p.Idle? then [] else p.queue
  }

  lemma StageElsewhere(p: Process, k: Key)
    requires p.Up?
    requires (QueueOf(p.phase) != [] && QueueOf(p.phase)[0].0 != k) || p.phase.Pass? || p.phase.Idle?
    ensures StageOf(p, k) == Elsewhere
  {}

  lemma CountOther(refusals: map<Key, nat>, k0: Key, n: nat)
    ensures forall k :: k != k0 ==> Count(refusals - {k0}, k) == Count(refusals, k) == Count(refusals[k0 := n], k)
    ensures Count(refusals - {k0}, k0) == 0 && Count(refusals[k0 := n], k0) == n
  {}

  /** The new view of the entry a write is about. */
  function Written(w: World, k: Key, s: State, p: Process): View {
    View(true, Some(s), p.Up?, if p.Up? then Count(p.refusals, k) else 0, StageOf(p, k), Last(w.log, k), Posts(w.log, k))
  }

  lemma WriteKeeps(w: World, q: Queue, a: Action, refusals: map<Key, nat>, phase: Phase)
    requires q != [] && w.process.Up? && Others(w, q[0].0) && QueueFrom(w.disk.ledger, q, 1)
    requires QueueOf(w.process.phase) == q && Fits(ViewOf(w.(process := Down), q[0].0), q[0].0)
    requires forall k :: k != q[0].0 ==> Count(refusals, k) == Count(w.process.refusals, k)
    requires
      || phase == Pass(q[1..])
      || (phase == Begun(q) && q[0].1.state.Pending?)
      || (phase.Settling? && phase.queue == q && (phase.verdict.GiveUp? || phase.verdict.Finish?) && a.Acknowledge?)
    requires Posts(w.log, q[0].0) <= MAX_REFUSALS && Count(refusals, q[0].0) < MAX_REFUSALS
    requires
      var k := q[0].0;
      k in w.disk.ledger.entries && Transition(w.disk.ledger.entries[k].state, a).Ok? ==>
        Fits(Written(w, k, Transition(w.disk.ledger.entries[k].state, a).value, Up(refusals, phase)), k)
    ensures Inv(Write(w, q[0].0, a, refusals, phase))
  {
    hide Clean, Fits, Last, Posts, Changed, Others, Count, QueueFrom;
    var k0 := q[0].0;
    var w' := Write(w, k0, a, refusals, phase);
    if Changed(w.disk.ledger, k0, a).Err? {
      OthersStop(w, k0);
      Rejoin(w', k0);
    } else {
      ChangedFacts(w.disk.ledger, k0, a);
      if phase.Settling? {
        NeverPending(w.disk.ledger.entries[k0].state, a);
      }
      QueueKeeps(w.disk.ledger, w'.disk.ledger, q);
      forall k | k != k0 ensures StageOf(w.process, k) == Elsewhere == StageOf(w'.process, k) {
        StageElsewhere(w.process, k);
        StageElsewhere(w'.process, k);
      }
      MoveUnseen(w, w', k0);
      assert ViewOf(w', k0) == Written(w, k0, Transition(w.disk.ledger.entries[k0].state, a).value, Up(refusals, phase));
      Rejoin(w', k0);
    }
  }

  /** A written state other than `Pending` fits wherever the worker goes next. */
  lemma PastFits(w: World, k: Key, s: State, p: Process)
    requires Posts(w.log, k) <= MAX_REFUSALS && !s.Pending? && StageOf(p, k) == Elsewhere
    requires p.Up? ==> Count(p.refusals, k) < MAX_REFUSALS
    ensures Fits(Written(w, k, s, p), k)
  {
    hide Last, Posts, StageOf;
  }

  lemma NeverPending(s: State, a: Action)
    requires Transition(s, a).Ok? && !a.Refuse? && !a.BeginSend?
    ensures !Transition(s, a).value.Pending?
  {
    hide IsUuid, IsDigest, IsCode;
  }

  lemma PastWrite(w: World, q: Queue, a: Action, refusals: map<Key, nat>, phase: Phase)
    requires q != [] && w.process.Up? && Others(w, q[0].0) && QueueFrom(w.disk.ledger, q, 1)
    requires QueueOf(w.process.phase) == q && Fits(ViewOf(w.(process := Down), q[0].0), q[0].0)
    requires refusals == w.process.refusals || refusals == w.process.refusals - {q[0].0}
    requires
      || phase == Pass(q[1..])
      || (phase.Settling? && phase.queue == q && (phase.verdict.GiveUp? || phase.verdict.Finish?) && a.Acknowledge?)
    requires !a.Refuse? && !a.BeginSend? && Within(w, q[0].0)
    ensures Inv(Write(w, q[0].0, a, refusals, phase))
  {
    hide Clean, Fits, Last, Posts, Others, Count, QueueFrom, Transition, Write;
    var k0 := q[0].0;
    CountOther(w.process.refusals, k0, 0);
    if k0 in w.disk.ledger.entries && Transition(w.disk.ledger.entries[k0].state, a).Ok? {
      NeverPending(w.disk.ledger.entries[k0].state, a);
      PastFits(w, k0, Transition(w.disk.ledger.entries[k0].state, a).value, Up(refusals, phase));
    }
    WriteKeeps(w, q, a, refusals, phase);
  }

  lemma AbandonKeeps(w: World, q: Queue, code: string)
    requires q != [] && w.process.Up? && Others(w, q[0].0) && QueueFrom(w.disk.ledger, q, 1)
    requires QueueOf(w.process.phase) == q && Fits(ViewOf(w.(process := Down), q[0].0), q[0].0)
    requires Within(w, q[0].0)
    ensures Inv(Abandon(w, q, code))
  {
    hide Clean, Fits, Last, Posts, Others, QueueFrom, Write;
    PastWrite(w, q, Fail(code), w.process.refusals - {q[0].0}, Pass(q[1..]));
  }

  /** Moving on without a write. */
  lemma LeaveKeeps(w: World, q: Queue)
    requires q != [] && w.process.Up? && Others(w, q[0].0) && QueueFrom(w.disk.ledger, q, 1)
    requires QueueOf(w.process.phase) == q && Past(w, q[0].0)
    ensures Inv(w.(process := w.process.(phase := Pass(q[1..]))))
  {
    hide Clean, Fits, Last, Posts, Others, Count, QueueFrom;
    var w', k0 := w.(process := w.process.(phase := Pass(q[1..]))), q[0].0;
    QueueKeeps(w.disk.ledger, w.disk.ledger, q);
    forall k | k != k0 ensures StageOf(w.process, k) == Elsewhere == StageOf(w'.process, k) {
      StageElsewhere(w.process, k);
    }
    MoveUnseen(w, w', k0);
    PastFits(w', k0, w.disk.ledger.entries[k0].state, w'.process);
    assert ViewOf(w', k0) == Written(w', k0, w.disk.ledger.entries[k0].state, w'.process);
    Rejoin(w', k0);
  }

  /** A definite refusal below the limit is counted before it is written. */
  lemma ReopenKeeps(w: World, q: Queue)
    requires q != [] && w.process.Up? && Others(w, q[0].0) && QueueFrom(w.disk.ledger, q, 1)
    requires QueueOf(w.process.phase) == q && q[0].1.state.Pending?
    requires
      var k := q[0].0;
      && k in w.disk.ledger.entries && w.disk.ledger.entries[k].state.Sending?
      && Last(w.log, k) == Some(Refusal(k)) && Posts(w.log, k) <= Count(w.process.refusals, k) + 1 < MAX_REFUSALS
    ensures Inv(Carry(w, q, Reopen))
  {
    hide Clean, Last, Posts, Others, QueueFrom;
    var w', k0 := Carry(w, q, Reopen), q[0].0;
    QueueKeeps(w.disk.ledger, w.disk.ledger, q);
    CountOther(w.process.refusals, k0, Count(w.process.refusals, k0) + 1);
    forall k | k != k0 ensures StageOf(w.process, k) == Elsewhere == StageOf(w'.process, k) {
      StageElsewhere(w.process, k);
    }
    MoveUnseen(w, w', k0);
    Rejoin(w', k0);
  }

  /** Verdicts on an entry that has left `Pending`. */
  lemma CarryKeeps(w: World, q: Queue, v: Verdict)
    requires q != [] && w.process.Up? && Others(w, q[0].0) && QueueFrom(w.disk.ledger, q, 1)
    requires QueueOf(w.process.phase) == q && Past(w, q[0].0)
    requires !v.Reopen? && (v.Accept? ==> v.next.Keep? || v.next.GiveUp? || v.next.Finish?)
    ensures Inv(Carry(w, q, v))
  {
    hide Clean, Fits, Last, Posts, Others, QueueFrom, Write, Abandon;
    var k, refusals := q[0].0, w.process.refusals;
    PastFits(w, k, w.disk.ledger.entries[k].state, Down);
    assert ViewOf(w.(process := Down), k) == Written(w, k, w.disk.ledger.entries[k].state, Down);
    match v
    case Keep => LeaveKeeps(w, q);
    case GiveUp(code) => AbandonKeeps(w, q, code);
    case Accept(job, next) =>
      PastWrite(w, q, Acknowledge(job), refusals - {k}, if next.Keep? then Pass(q[1..]) else Settling(q, next));
    case Finish(job, catalog, publication) =>
      PastWrite(w, q, Complete(job, catalog, publication), refusals, Pass(q[1..]));
  }

  lemma JudgeFacts(entry: Entry, reply: Reply, refusals: nat)
    ensures
      var v := Judge(entry, reply, refusals);
      && (v.Reopen? ==> entry.state.Pending? && Definite(reply) && refusals + 1 < MAX_REFUSALS)
      && (v.Accept? ==> entry.state.Pending? && (v.next.Keep? || v.next.GiveUp? || v.next.Finish?))
  {
    hide MatchesOutcome, RejectedSubmission;
  }

  // ---- Every step keeps the invariant ----

  lemma PostKeeps(w: World, q: Queue)
    requires Inv(w) && w.process.Up? && w.process.phase == Begun(q)
    ensures Inv(Step(w, Post))
  {
    hide Clean, Last, Posts, Others, QueueFrom, ViewOf, Legal;
    var w', k0 := Step(w, Post), q[0].0;
    Split(w, k0);
    MarkedMeans(w, k0);
    LogKeeps(w, Posted(k0));
    var w1 := w.(log := w'.log);
    forall k | k != k0 ensures StageOf(w1.process, k) == Elsewhere == StageOf(w'.process, k) {
      StageElsewhere(w1.process, k);
      StageElsewhere(w'.process, k);
    }
    MoveUnseen(w1, w', k0);
    InFlightFits(w', k0);
    Rejoin(w', k0);
  }

  /** Reading off what the stages say. */
  lemma MarkedMeans(w: World, k: Key)
    requires Fits(ViewOf(w, k), k) && w.process.Up? && StageOf(w.process, k) == Marked
    ensures k in w.disk.ledger.entries && w.disk.ledger.entries[k].state.Sending?
    ensures Legal(w.log, Posted(k)) && Posts(w.log, k) <= Count(w.process.refusals, k) < MAX_REFUSALS
  {
    hide Last, Posts;
  }

  lemma InFlightFits(w: World, k: Key)
    requires w.process.Up? && StageOf(w.process, k) == InFlight
    requires k in w.disk.ledger.entries && w.disk.ledger.entries[k].state.Sending?
    requires Last(w.log, k) == Some(Posted(k)) && Posts(w.log, k) <= Count(w.process.refusals, k) + 1 <= MAX_REFUSALS
    ensures Fits(ViewOf(w, k), k)
  {
    hide Last, Posts;
  }

  lemma InFlightMeans(w: World, k: Key)
    requires Fits(ViewOf(w, k), k) && w.process.Up? && StageOf(w.process, k) == InFlight
    ensures k in w.disk.ledger.entries && w.disk.ledger.entries[k].state.Sending?
    ensures Last(w.log, k) == Some(Posted(k)) && Posts(w.log, k) <= Count(w.process.refusals, k) + 1 <= MAX_REFUSALS
  {
    hide Last, Posts;
  }

  lemma DeniedMeans(w: World, k: Key)
    requires Fits(ViewOf(w, k), k) && w.process.Up? && StageOf(w.process, k) == Denied
    ensures k in w.disk.ledger.entries && w.disk.ledger.entries[k].state.Sending?
    ensures Last(w.log, k) == Some(Refusal(k)) && Posts(w.log, k) <= Count(w.process.refusals, k) < MAX_REFUSALS
  {
    hide Last, Posts;
  }

  lemma AnswerKeeps(w: World, q: Queue, reply: Reply)
    requires Inv(w) && w.process.Up? && w.process.phase == Sent(q) && !reply.BadRequest?
    ensures Inv(Step(w, Answer(reply)))
  {
    hide Clean, Last, Posts, Others, QueueFrom, ViewOf, Fits, Carry, Judge, Count;
    var k0 := q[0].0;
    Split(w, k0);
    InFlightMeans(w, k0);
    var v := Judge(q[0].1, reply, Count(w.process.refusals, k0));
    JudgeFacts(q[0].1, reply, Count(w.process.refusals, k0));
    var w' := if Definite(reply) then w.(log := w.log + [Refusal(k0)]) else w;
    if Definite(reply) {
      LogKeeps(w, Refusal(k0));
    }
    if v.Reopen? {
      ReopenKeeps(w', q);
    } else {
      CarryKeeps(w', q, v);
    }
  }

  lemma WriteRefusalKeeps(w: World, q: Queue)
    requires Inv(w) && w.process.Up? && w.process.phase == Refusing(q)
    ensures Inv(Step(w, WriteRefusal))
  {
    hide Clean, Last, Posts, Others, QueueFrom, ViewOf, Count, Write;
    var k0 := q[0].0;
    Split(w, k0);
    DeniedMeans(w, k0);
    LogKeeps(w, Reopened(k0));
    var w1 := w.(log := w.log + [Reopened(k0)]);
    var s := w.disk.ledger.entries[k0].state;
    StagelessFits(w1, k0, Pending, Up(w.process.refusals, Pass(q[1..])));
    PastFits(w1, k0, s, Down);
    assert ViewOf(w1.(process := Down), k0) == Written(w1, k0, s, Down) by { WrittenView(w1, k0, Down); }
    WriteKeeps(w1, q, Refuse, w.process.refusals, Pass(q[1..]));
    RefusalOrder(w, q);
  }

  lemma StagelessFits(w: World, k: Key, s: State, p: Process)
    requires p.Up? && StageOf(p, k) == Elsewhere && Fresh(Last(w.log, k), k) && Posts(w.log, k) <= Count(p.refusals, k) < MAX_REFUSALS
    ensures Fits(Written(w, k, s, p), k)
  {
    hide Last, Posts;
  }

  lemma WrittenView(w: World, k: Key, p: Process)
    requires k in w.disk.ledger.entries
    ensures ViewOf(w.(process := p), k) == Written(w, k, w.disk.ledger.entries[k].state, p)
  {
    hide Last, Posts;
  }

  /** The event of a durable refusal may as well be noted before the write. */
  lemma RefusalOrder(w: World, q: Queue)
    requires q != [] && w.process.Up? && w.process.phase == Refusing(q)
    requires q[0].0 in w.disk.ledger.entries && w.disk.ledger.entries[q[0].0].state.Sending?
    ensures Step(w, WriteRefusal) == Write(w.(log := w.log + [Reopened(q[0].0)]), q[0].0, Refuse, w.process.refusals, Pass(q[1..]))
  {}

  lemma BeginKeeps(w: World, q: Queue, now: nat)
    requires Inv(w) && w.process.Up? && w.process.phase == Pass(q) && q != [] && q[0].1.state.Pending?
    ensures Inv(StepPass(w, q, Begin(now)))
  {
    hide Clean, Last, Posts, Others, ViewOf, Count, Write, Fits;
    var k0 := q[0].0;
    Split(w, k0);
    PendingFits(w, k0);
    BegunFits(w, k0, Sending(now), Up(w.process.refusals, Begun(q)));
    StopFits(w, k0);
    WriteKeeps(w, q, BeginSend(now), w.process.refusals, Begun(q));
  }

  lemma PendingFits(w: World, k: Key)
    requires Fits(ViewOf(w, k), k) && w.process.Up? && StageOf(w.process, k) == Elsewhere && StateOf(w.disk, k) == Some(Pending)
    ensures Fresh(Last(w.log, k), k) && Posts(w.log, k) <= Count(w.process.refusals, k) < MAX_REFUSALS
  {
    hide Last, Posts;
  }

  lemma BegunFits(w: World, k: Key, s: State, p: Process)
    requires p.Up? && StageOf(p, k) == Marked && s.Sending?
    requires Fresh(Last(w.log, k), k) && Posts(w.log, k) <= Count(p.refusals, k) < MAX_REFUSALS
    ensures Fits(Written(w, k, s, p), k)
  {
    hide Last, Posts;
  }

  /** Any entry is within its budget. */
  lemma Budget(w: World, k: Key)
    requires Fits(ViewOf(w, k), k)
    ensures Within(w, k)
  {
    hide Last, Posts;
  }

  lemma PassKeeps(w: World, q: Queue, l: Label)
    requires Inv(w) && w.process.Up? && w.process.phase == Pass(q) && q != []
    ensures Inv(StepPass(w, q, l))
  {
    hide Clean, Last, Posts, Others, ViewOf, Write, Fits, Abandon, Carry, Judge;
    var (k0, entry) := q[0];
    Split(w, k0);
    Budget(w, k0);
    StopFits(w, k0);
    match l
    case RemovedTarget => AbandonKeeps(w, q, "target_removed");
    case Begin(now) => if entry.state.Pending? { BeginKeeps(w, q, now); }
    case Ambiguous => AbandonKeeps(w, q, "submission_ambiguous");
    case Answer(reply) =>
      JudgeFacts(entry, reply, 0);
      if entry.state.Submitted? { CarryKeeps(w, q, Judge(entry, reply, 0)); }
    case _ =>
  }

  lemma StepBegunKeeps(w: World, q: Queue, l: Label)
    requires Inv(w) && w.process.Up? && w.process.phase == Begun(q)
    ensures Inv(Step(w, l))
  {
    hide Inv, Clean, Last, Posts, Others, ViewOf, Write, Fits, Carry, Judge, QueueFrom;
    Split(w, 0);
    Split(w, q[0].0);
    match l
    case Crash => StopKeeps(w);
    case Post => PostKeeps(w, q);
    case CannotSend =>
      MarkedMeans(w, q[0].0);
      JudgeFacts(q[0].1, BadRequest, 0);
      CarryKeeps(w, q, Judge(q[0].1, BadRequest, 0));
    case _ =>
  }

  /** Between passes only one key changes, and it does not come back to `Pending`. */
  lemma IdleChange(w: World, d: Durable, k0: Key)
    requires Inv(w) && w.process.Up? && w.process.phase.Idle?
    requires forall k :: k != k0 ==> Known(d, k) == Known(w.disk, k) && StateOf(d, k) == StateOf(w.disk, k)
    requires StateOf(d, k0) == Some(Pending) ==> StateOf(w.disk, k0) == Some(Pending) || !Known(w.disk, k0)
    requires Known(w.disk, k0) ==> Known(d, k0)
    ensures Inv(w.(disk := d))
  {
    hide Clean, Last, Posts, Others, Known, StateOf, Inv;
    Split(w, k0);
    MoveUnseen(w, w.(disk := d), k0);
    IdleFits(w, d, k0);
    Rejoin(w.(disk := d), k0);
  }

  lemma IdleFits(w: World, d: Durable, k: Key)
    requires Fits(ViewOf(w, k), k) && w.process.Up? && w.process.phase.Idle?
    requires StateOf(d, k) == Some(Pending) ==> StateOf(w.disk, k) == Some(Pending) || !Known(w.disk, k)
    requires Known(w.disk, k) ==> Known(d, k)
    ensures Fits(ViewOf(w.(disk := d), k), k)
  {
    hide Last, Posts;
  }

  lemma AdoptFacts(s: State, job: string)
    requires Transition(s, Adopt(job)).Ok?
    ensures !Transition(s, Adopt(job)).value.Pending?
  {
    hide IsUuid;
  }

  lemma SelectedQueue(l: Ledger, limit: nat)
    ensures QueueFrom(l.(cursor := NextCursor(l, limit)), Selected(l, limit), 0)
  {
    hide Pick, Earlier;
    PickFacts(l.cursor, Live(l), limit);
  }

  lemma StartKeeps(w: World, limit: nat)
    requires Inv(w) && w.process.Up? && w.process.phase.Idle?
    ensures Inv(StepIdle(w, StartPass(limit)))
  {
    hide Clean, Last, Posts, Others, Fits, Selected, NextCursor, QueueFrom, Batch;
    var w' := StepIdle(w, StartPass(limit));
    SelectedQueue(w.disk.ledger, limit);
    forall k ensures Fits(ViewOf(w', k), k) {
      assert ViewOf(w', k) == ViewOf(w, k);
    }
  }

  lemma IdleKeeps(w: World, l: Label)
    requires Inv(w) && w.process.Up? && w.process.phase.Idle?
    ensures Inv(StepIdle(w, l))
  {
    hide Inv, Changed, Transition, Selected, NextCursor;
    var ledger, w' := w.disk.ledger, StepIdle(w, l);
    match l
    case Observe(k, _) => if !Known(w.disk, k) { IdleChange(w, w'.disk, k); }
    case StartPass(limit) => StartKeeps(w, limit);
    case AdoptJob(k, job) =>
      if Changed(ledger, k, Adopt(job)).Ok? {
        ChangedFacts(ledger, k, Adopt(job));
        AdoptFacts(ledger.entries[k].state, job);
        IdleChange(w, w'.disk, k);
      }
    case CopyToArchive(k) => IdleChange(w, w'.disk, k);
    case Forget(k) => IdleChange(w, w'.disk, k);
    case _ =>
  }

  lemma RestartFits(w: World, k: Key)
    requires Fits(ViewOf(w, k), k) && w.process.Down?
    ensures Fits(ViewOf(Step(w, Restart), k), k)
  {
    hide Clean, Last, Posts;
    Append(w.log, Started);
  }

  lemma RestartKeeps(w: World)
    requires Inv(w) && w.process.Down?
    ensures Inv(Step(w, Restart))
  {
    hide Clean, Last, Posts, Fits, ViewOf, Others;
    Append(w.log, Started);
    forall k ensures Fits(ViewOf(Step(w, Restart), k), k) {
      RestartFits(w, k);
    }
  }

  lemma EndKeeps(w: World)
    requires Inv(w) && w.process.Up? && w.process.phase == Pass([])
    ensures Inv(w.(process := w.process.(phase := Idle)))
  {
    hide Clean, Last, Posts, Fits;
    forall k ensures Fits(ViewOf(w.(process := w.process.(phase := Idle)), k), k) {
      assert ViewOf(w.(process := w.process.(phase := Idle)), k) == ViewOf(w, k);
    }
  }

  lemma SettleKeeps(w: World, q: Queue, v: Verdict)
    requires Inv(w) && w.process.Up? && w.process.phase == Settling(q, v)
    ensures q != [] && Inv(Carry(w, q, v))
  {
    hide Clean, Last, Posts, Others, ViewOf, Fits, Carry, QueueFrom, Inv;
    Split(w, 0);
    Split(w, q[0].0);
    CarryKeeps(w, q, v);
  }

  lemma StepKeeps(w: World, l: Label)
    requires Inv(w)
    ensures Inv(Step(w, l))
  {
    hide Inv, Carry, Judge, Write, StepIdle, StepPass, Count;
    if w.process.Down? {
      if l.Restart? { RestartKeeps(w); }
    } else if l.Crash? {
      StopKeeps(w);
    } else if !l.Restart? {
      match w.process.phase
      case Idle => IdleKeeps(w, l);
      case Pass(q) => if q != [] { PassKeeps(w, q, l); } else if l.EndPass? { EndKeeps(w); }
      case Begun(q) => StepBegunKeeps(w, q, l);
      case Sent(q) => if l.Answer? && !l.reply.BadRequest? { AnswerKeeps(w, q, l.reply); }
      case Refusing(q) => if l.WriteRefusal? { WriteRefusalKeeps(w, q); }
      case Settling(q, v) => if l.Settle? { SettleKeeps(w, q, v); }
    }
  }

  lemma {:induction false} RunKeeps(w: World, labels: seq<Label>)
    requires Inv(w)
    ensures Inv(Run(w, labels))
  {
    hide Inv, Step;
    if labels != [] {
      RunKeeps(w, labels[..|labels| - 1]);
      StepKeeps(Run(w, labels[..|labels| - 1]), labels[|labels| - 1]);
    }
  }

  /** Before the worker has ever run, on any ledger. */
  lemma BeginningFits(disk: Durable)
    ensures Inv(World(disk, Down, []))
  {}

  // ---- What the log of every run shows ----

  lemma {:induction false} LastWitness(log: seq<Event>, k: Key)
    ensures
      match Last(log, k)
      case None => forall n :: 0 <= n < |log| ==> log[n].Started? || log[n].key != k
      case Some(e) =>
        exists n ::
          && 0 <= n < |log| && log[n] == e && !e.Started? && e.key == k
          && forall m :: n < m < |log| ==> log[m].Started? || log[m].key != k
  {
    if log != [] {
      var init := log[..|log| - 1];
      LastWitness(init, k);
      var e := log[|log| - 1];
      if e.Started? || e.key != k {
        if Last(init, k).Some? {
          var n :| 0 <= n < |init| && init[n] == Last(init, k).value
            && forall m :: n < m < |init| ==> init[m].Started? || init[m].key != k;
          assert log[n] == init[n];
          assert forall m :: n < m < |init| ==> log[m] == init[m];
        } else {
          assert forall m :: 0 <= m < |init| ==> log[m] == init[m];
        }
      }
    }
  }

  /** Before any event about `k` but the first, the log has the event `Last` names. */
  lemma Previous(log: seq<Event>, i: nat, j: nat, k: Key) returns (n: nat)
    requires Clean(log) && i < j < |log| && !log[i].Started? && log[i].key == k
    ensures i <= n < j && Last(log[..j], k) == Some(log[n]) && !log[n].Started? && log[n].key == k
  {
    hide Legal, Last, Clean;
    var before := log[..j];
    LastWitness(before, k);
    assert before[i] == log[i];
    n :| 0 <= n < j && before[n] == Last(before, k).value && !before[n].Started? && before[n].key == k
      && forall m :: n < m < j ==> before[m].Started? || before[m].key != k;
  }

  /** Two submissions of one key are separated by a definite refusal and then its durable record. */
  lemma Separated(log: seq<Event>, i: nat, j: nat, k: Key)
    requires Clean(log) && i < j < |log| && log[i] == log[j] == Posted(k)
    ensures exists a, b :: i < a < b < j && log[a] == Refusal(k) && log[b] == Reopened(k)
  {
    hide Last;
    var b := Previous(log, i, j, k);
    assert Legal(log[..j], log[j]);
    assert log[b] == Reopened(k);
    assert Legal(log[..b], log[b]);
    var a := Previous(log, i, b, k);
    assert i < a;
  }

  /** The submissions of `k` between two points of the log. */
  ghost function PostsIn(log: seq<Event>, i: nat, j: nat, k: Key): set<nat>
    requires j <= |log|
  {
    set n: nat | i <= n < j && log[n] == Posted(k)
  }

  lemma {:induction false} WithinPosts(log: seq<Event>, i: nat, j: nat, k: Key)
    requires i <= j <= |log| && forall n :: i <= n < j ==> !log[n].Started?
    ensures |PostsIn(log, i, j, k)| <= Posts(log[..j], k)
  {
    if i < j {
      WithinPosts(log, i, j - 1, k);
      assert log[..j][..j - 1] == log[..j - 1];
      assert PostsIn(log, i, j, k) == PostsIn(log, i, j - 1, k) + (if log[j - 1] == Posted(k) then {j - 1} else {});
    } else {
      assert PostsIn(log, i, j, k) == {};
    }
  }

  lemma {:induction false} PostsBounded(log: seq<Event>, k: Key)
    requires Clean(log)
    ensures Posts(log, k) <= MAX_REFUSALS
  {
    if log != [] {
      hide Last;
      var init := log[..|log| - 1];
      assert Clean(init) by {
        forall n | 0 <= n < |init| ensures Legal(init[..n], init[n]) {
          assert init[..n] == log[..n] && Legal(log[..n], log[n]);
        }
      }
      PostsBounded(init, k);
      assert Legal(log[..|log| - 1], log[|log| - 1]);
    }
  }

  /** Over every run of passes, operator commands, crashes and restarts, from any ledger: two submissions
      of one key are separated by a definite refusal that was made durable, and one process submits a
      key at most ten times. */
  lemma AtMostOnce(disk: Durable, labels: seq<Label>, i: nat, j: nat, k: Key)
    requires i <= j <= |Run(World(disk, Down, []), labels).log|
    ensures
      var log := Run(World(disk, Down, []), labels).log;
      && (i < j < |log| && log[i] == log[j] == Posted(k) ==>
            exists a, b :: i < a < b < j && log[a] == Refusal(k) && log[b] == Reopened(k))
      && ((forall n :: i <= n < j ==> !log[n].Started?) ==> |PostsIn(log, i, j, k)| <= 10)
  {
    hide Step, PostsIn, Posts;
    var start := World(disk, Down, []);
    BeginningFits(disk);
    RunKeeps(start, labels);
    var log := Run(start, labels).log;
    assert Clean(log);
    if i < j < |log| && log[i] == log[j] == Posted(k) {
      Separated(log, i, j, k);
    }
    if forall n :: i <= n < j ==> !log[n].Started? {
      WithinPosts(log, i, j, k);
      CleanPrefix(log, j);
      PostsBounded(log[..j], k);
    }
  }

  lemma CleanPrefix(log: seq<Event>, j: nat)
    requires Clean(log) && j <= |log|
    ensures Clean(log[..j])
  {
    hide Legal;
    forall n | 0 <= n < j ensures Legal(log[..j][..n], log[..j][n]) {
      assert log[..j][..n] == log[..n];
    }
  }

  /** Nothing is sent for an entry that is not durably marked first. */
  lemma {:induction false} MarkedBeforeSending(disk: Durable, labels: seq<Label>)
    ensures
      var w := Run(World(disk, Down, []), labels);
      w.process.Up? && (w.process.phase.Begun? || w.process.phase.Sent?) ==>
        && w.process.phase.queue != []
        && StateOf(w.disk, w.process.phase.queue[0].0).Some?
        && StateOf(w.disk, w.process.phase.queue[0].0).value.Sending?
  {
    hide Step, Last, Posts, Clean, QueueFrom;
    BeginningFits(disk);
    RunKeeps(World(disk, Down, []), labels);
    var w := Run(World(disk, Down, []), labels);
    if w.process.Up? && (w.process.phase.Begun? || w.process.phase.Sent?) {
      assert Fits(ViewOf(w, w.process.phase.queue[0].0), w.process.phase.queue[0].0);
    }
  }

  // ---- The worker ----

  /** The steps one queued entry goes through; a label that is not enabled by then changes nothing. */
  function Moves(entry: Entry, targets: set<(string, string)>, now: nat, reply: Reply): seq<Label> {
    if (entry.identity.destination, entry.identity.profile) !in targets then [RemovedTarget]
    else match entry.state
      case Pending => Submission(now, reply)
      case Sending(_) => [Ambiguous]
      case Submitted(_) => [Answer(reply)]
      case _ => []
  }

  function Submission(now: nat, reply: Reply): seq<Label> {
    if reply.BadRequest? then [Begin(now), CannotSend] else [Begin(now), Post, Answer(reply), WriteRefusal, Settle]
  }

  lemma RunSnoc(w: World, labels: seq<Label>, l: Label)
    ensures Run(w, labels + [l]) == Step(Run(w, labels), l)
  {
    hide Step;
    assert (labels + [l])[..|labels|] == labels;
  }

  class Worker {
    const outbox: Outbox
    const targets: set<(string, string)>
    var refusals: map<Key, nat>
    var transportErrors: nat
    /** The steps taken since the ledger was `first`, by this process and those before it. */
    ghost const first: Durable
    ghost var labels: seq<Label>
    ghost var world: World

    ghost predicate Tracks()
      reads this, outbox
    {
      outbox.Valid() && world == Run(World(first, Down, []), labels) && world.disk == outbox.disk
    }

    ghost predicate Valid()
      reads this, outbox
    {
      Tracks() && world.process.Up? && world.process.refusals == refusals
    }

    /** The process is gone; only the files remain. */
    ghost predicate Stopped()
      reads this, outbox
    {
      Tracks() && world.process.Down?
    }

    /** A new process on the files an earlier one left: no refusal is remembered. */
    constructor (outbox: Outbox, targets: set<(string, string)>, ghost first: Durable, ghost labels: seq<Label>)
      requires outbox.Valid()
      requires
        var w := Run(World(first, Down, []), labels);
        w.process.Down? && w.disk == outbox.disk
      ensures Valid() && this.outbox == outbox && this.targets == targets && this.first == first
      ensures this.labels == labels + [Restart] && refusals == map[] && world.process.phase == Idle
    {
      hide Sound, Run;
      RunSnoc(World(first, Down, []), labels, Restart);
      this.outbox, this.targets, this.refusals, this.transportErrors := outbox, targets, map[], 0;
      this.first, this.labels := first, labels + [Restart];
      this.world := Run(World(first, Down, []), labels + [Restart]);
    }

    ghost method Note(l: Label)
      requires outbox.Valid() && world == Run(World(first, Down, []), labels) && Step(world, l).disk == outbox.disk
      modifies this`labels, this`world
      ensures Tracks() && labels == old(labels) + [l] && world == Step(old(world), l)
    {
      hide Sound, Step, Run;
      RunSnoc(World(first, Down, []), labels, l);
      labels, world := labels + [l], Step(world, l);
    }

    ghost method Die()
      requires Tracks()
      modifies this`labels, this`world
      ensures Stopped() && labels == old(labels) + [Crash] && world == old(world).(process := Down)
    {
      hide Sound, Run;
      RunSnoc(World(first, Down, []), labels, Crash);
      labels, world := labels + [Crash], world.(process := Down);
    }

    /** Persist a transition; memory follows. An error of the outbox ends the process. */
    method Apply(key: Key, action: Action, next: map<Key, nat>, ghost phase: Phase, ghost l: Label, io: bool) returns (ok: bool)
      requires Valid()
      requires
        var w, w' := Write(world, key, action, next, phase), Step(world, l);
        w'.disk == w.disk && w'.process == w.process
      modifies this, outbox
      ensures transportErrors == old(transportErrors)
      ensures ok ==> Valid() && world == Step(old(world), l) && labels == old(labels) + [l] && world.process.phase == phase
      ensures !ok ==> Stopped() && (labels == old(labels) + [Crash] || labels == old(labels) + [l, Crash])
    {
      hide Step, Run, Changed, Sound;
      assert outbox.ledger == world.disk.ledger;
      var r := outbox.Change(key, action, io);
      ok := r.Ok?;
      if ok {
        refusals := next;
        Note(l);
      } else {
        Die();
      }
    }

    /** Carry out a verdict on the first entry of the queue. */
    method Conclude(key: Key, verdict: Verdict, ghost queue: Queue, ghost l: Label, io: bool) returns (ok: bool)
      requires Valid() && queue != [] && queue[0].0 == key
      requires
        var w, w' := Carry(world, queue, verdict), Step(world, l);
        w'.disk == w.disk && w'.process == w.process
      modifies this, outbox
      ensures transportErrors == old(transportErrors)
      ensures ok ==> Valid() && world == Step(old(world), l) && labels == old(labels) + [l]
      ensures ok ==> world.process.phase == After(queue, verdict)
      ensures !ok ==> Stopped() && (labels == old(labels) + [Crash] || labels == old(labels) + [l, Crash])
    {
      hide Sound, Step, Run, Write, Count;
      match verdict
      case Keep =>
        Note(l);
        ok := true;
      case GiveUp(code) =>
        ok := Apply(key, Fail(code), refusals - {key}, Pass(queue[1..]), l, io);
      case Reopen =>
        refusals := refusals[key := Count(refusals, key) + 1];
        Note(l);
        ok := true;
      case Accept(job, next) =>
        ok := Apply(key, Acknowledge(job), refusals - {key}, After(queue, verdict), l, io);
      case Finish(job, catalog, publication) =>
        ok := Apply(key, Complete(job, catalog, publication), refusals, Pass(queue[1..]), l, io);
    }

    /** Submit a pending entry, once, after marking it; then act on the answer. */
    method Submit(key: Key, entry: Entry, now: nat, reply: Reply, ghost queue: Queue, io: nat -> bool) returns (ok: bool, ghost n: nat)
      requires Valid() && queue != [] && queue[0] == (key, entry) && world.process.phase == Pass(queue) && entry.state.Pending?
      modifies this, outbox
      ensures ok ==> Valid() && world.process.phase == Pass(queue[1..])
      ensures ok ==> transportErrors == old(transportErrors) + Warnings(entry, reply)
      ensures
        var moves := Submission(now, reply);
        && (ok ==> labels == old(labels) + moves)
        && (!ok ==> Stopped() && n <= |moves| && labels == old(labels) + moves[..n] + [Crash])
    {
      hide Run, Write, Carry, Judge, Count, Step, Sound;
      n := 0;
      StepBegin(world, queue, now);
      ok := Apply(key, BeginSend(now), refusals, Begun(queue), Begin(now), io(0));
      if !ok {
        n := if |labels| == |old(labels)| + 1 then 0 else 1;
        return;
      }
      if reply.BadRequest? {
        BadRequestVerdict(entry);
        StepCannotSend(world, queue);
        ok := Conclude(key, Judge(entry, reply, 0), queue, CannotSend, io(1));
        n := if |labels| == |old(labels)| + 2 then 1 else 2;
        return;
      }
      StepPost(world, queue);
      Note(Post);
      ok, n := Hear(key, entry, reply, queue, io);
      n := n + 2;
    }

    /** Act on the answer to a submission. */
    method Hear(key: Key, entry: Entry, reply: Reply, ghost queue: Queue, io: nat -> bool) returns (ok: bool, ghost n: nat)
      requires Valid() && queue != [] && queue[0] == (key, entry) && world.process.phase == Sent(queue) && entry.state.Pending?
      requires !reply.BadRequest?
      modifies this, outbox
      ensures ok ==> Valid() && world.process.phase == Pass(queue[1..])
      ensures ok ==> transportErrors == old(transportErrors) + Warnings(entry, reply)
      ensures
        var moves := [Answer(reply), WriteRefusal, Settle];
        && (ok ==> labels == old(labels) + moves)
        && (!ok ==> Stopped() && n <= |moves| && labels == old(labels) + moves[..n] + [Crash])
    {
      hide Run, Write, Carry, Judge, Count, Step, Sound;
      n := 0;
      var verdict := Judge(entry, reply, Count(refusals, key));
      JudgeFacts(entry, reply, Count(refusals, key));
      SameWarning(entry, reply, Count(refusals, key));
      StepAnswer(world, queue, reply);
      ok := Conclude(key, verdict, queue, Answer(reply), io(1));
      if !ok {
        n := if |labels| == |old(labels)| + 1 then 0 else 1;
        return;
      }
      if verdict.Keep? && !reply.Job? {
        transportErrors := transportErrors + 1;
      }
      if verdict.Reopen? {
        StepRefusal(world, queue);
        ok := Apply(key, Refuse, refusals, Pass(queue[1..]), WriteRefusal, io(2));
        if !ok {
          n := if |labels| == |old(labels)| + 2 then 1 else 2;
          return;
        }
        StepUnready(world, Settle);
        Note(Settle);
        return;
      }
      StepUnready(world, WriteRefusal);
      Note(WriteRefusal);
      if verdict.Accept? && !verdict.next.Keep? {
        StepSettle(world, queue, verdict.next);
        ok := Conclude(key, verdict.next, queue, Settle, io(2));
        n := if |labels| == |old(labels)| + 3 then 2 else 3;
      } else {
        StepUnready(world, Settle);
        Note(Settle);
      }
    }

    /** Handle one queued entry. */
    method Handle(key: Key, entry: Entry, now: nat, reply: Reply, ghost queue: Queue, io: nat -> bool) returns (ok: bool, ghost n: nat)
      requires Valid() && queue != [] && queue[0] == (key, entry) && world.process.phase == Pass(queue) && !Terminal(entry.state)
      modifies this, outbox
      ensures ok ==> Valid() && world.process.phase == Pass(queue[1..])
      ensures ok ==> labels == old(labels) + Moves(entry, targets, now, reply)
      ensures ok ==> transportErrors == old(transportErrors) + Noted(entry, targets, reply)
      ensures !ok ==>
        var moves := Moves(entry, targets, now, reply);
        Stopped() && n <= |moves| && labels == old(labels) + moves[..n] + [Crash]
    {
      hide Run, Abandon, Carry, Judge, Count, Step, Sound, Submission;
      n := 0;
      if (entry.identity.destination, entry.identity.profile) !in targets {
        StepRemoved(world, queue);
        ok := Conclude(key, GiveUp("target_removed"), queue, RemovedTarget, io(0));
        n := if |labels| == |old(labels)| + 1 then 0 else 1;
        return;
      }
      match entry.state
      case Pending =>
        ok, n := Submit(key, entry, now, reply, queue, io);
      case Sending(_) =>
        StepAmbiguous(world, queue);
        ok := Conclude(key, GiveUp("submission_ambiguous"), queue, Ambiguous, io(0));
        n := if |labels| == |old(labels)| + 1 then 0 else 1;
      case Submitted(_) =>
        var verdict := Judge(entry, reply, 0);
        JudgeFacts(entry, reply, 0);
        StepPoll(world, queue, reply);
        ok := Conclude(key, verdict, queue, Answer(reply), io(0));
        if ok && verdict.Keep? && !reply.Job? {
          transportErrors := transportErrors + 1;
        }
        n := if |labels| == |old(labels)| + 1 then 0 else 1;
    }

    /** One reconciliation pass: a rotating batch, each of its entries handled once. */
    method Reconcile(clock: Key -> nat, answers: Key -> Reply, ioCursor: bool, io: Key -> nat -> bool) returns (ok: bool, batch: nat)
      requires Valid() && world.process.phase == Idle
      modifies this, outbox
      ensures ok ==>
        var queue := Selected(old(outbox.ledger), 16);
        && Valid() && world.process.phase == Idle && batch == |queue|
        && labels == old(labels) + [StartPass(16)] + AllMoves(queue, targets, clock, answers) + [EndPass]
      ensures !ok ==> Stopped() && old(labels) < labels
    {
      hide Run, Step, Sound, Selected, AllMoves;
      transportErrors := 0;
      var entries;
      ok, entries := Start(ioCursor);
      batch := |entries|;
      if !ok {
        return;
      }
      ok := HandleAll(entries, clock, answers, io);
      if ok {
        StepEnd(world);
        Note(EndPass);
      }
    }

    /** Select the batch; the moved cursor is durable before anything is handled. */
    method Start(io: bool) returns (ok: bool, entries: Queue)
      requires Valid() && world.process.phase == Idle
      modifies this, outbox
      ensures ok ==>
        && Valid() && entries == Selected(old(outbox.ledger), 16) && world.process.phase == Pass(entries)
        && labels == old(labels) + [StartPass(16)] && forall i :: 0 <= i < |entries| ==> !Terminal(entries[i].1.state)
      ensures !ok ==> Stopped() && labels == old(labels) + [Crash] && entries == []
    {
      hide Run, Step, Sound, Selected, Batch, NextCursor, Terminal;
      StepStart(world, 16);
      SelectedLive(outbox.ledger, 16);
      var r := outbox.NextBatch(16, io);
      if r.Err? {
        Die();
        return false, [];
      }
      entries := r.value;
      SelectedIs(old(outbox.ledger), 16, entries);
      Note(StartPass(16));
      ok := true;
    }

    method HandleAll(entries: Queue, clock: Key -> nat, answers: Key -> Reply, io: Key -> nat -> bool) returns (ok: bool)
      requires Valid() && world.process.phase == Pass(entries)
      requires forall i :: 0 <= i < |entries| ==> !Terminal(entries[i].1.state)
      modifies this, outbox
      ensures ok ==> Valid() && world.process.phase == Pass([])
      ensures ok ==> labels == old(labels) + AllMoves(entries, targets, clock, answers)
      ensures !ok ==> Stopped() && old(labels) < labels
    {
      hide Run, Step, Sound, Moves, Noted, Terminal, AllMoves;
      AllMovesNone(entries, targets, clock, answers);
      var i := 0;
      while i < |entries|
        invariant i <= |entries| && Valid() && world.process.phase == Pass(entries[i..])
        invariant labels == old(labels) + AllMoves(entries[..i], targets, clock, answers)
      {
        var (key, entry) := entries[i];
        ghost var n: nat;
        ok, n := Handle(key, entry, clock(key), answers(key), entries[i..], io(key));
        if !ok {
          return;
        }
        assert entries[i..][1..] == entries[i + 1..];
        AllMovesStep(entries, i, targets, clock, answers);
        i := i + 1;
      }
      assert entries[..i] == entries && entries[i..] == [];
      ok := true;
    }
  }

  lemma AllMovesNone(queue: Queue, targets: set<(string, string)>, clock: Key -> nat, answers: Key -> Reply)
    ensures AllMoves(queue[..0], targets, clock, answers) == [] && queue[0..] == queue
  {}

  lemma AllMovesStep(queue: Queue, i: nat, targets: set<(string, string)>, clock: Key -> nat, answers: Key -> Reply)
    requires i < |queue|
    ensures
      AllMoves(queue[..i + 1], targets, clock, answers) ==
        AllMoves(queue[..i], targets, clock, answers) + Moves(queue[i].1, targets, clock(queue[i].0), answers(queue[i].0))
  {
    hide Moves;
    assert queue[..i + 1][..i] == queue[..i];
  }

  /** Every queued entry's steps, in order. */
  function AllMoves(queue: Queue, targets: set<(string, string)>, clock: Key -> nat, answers: Key -> Reply): seq<Label> {
    if queue == [] then []
    else
      var (key, entry) := queue[|queue| - 1];
      AllMoves(queue[..|queue| - 1], targets, clock, answers) + Moves(entry, targets, clock(key), answers(key))
  }

  /** Between passes: an unknown identity becomes pending; an operator's adoption is the outbox's own; a
      completed entry is copied to the archive, and an archived one forgotten. Nothing else is touched. */
  lemma IdleTable(w: World, k: Key, identity: Identity, job: string)
    requires w.process.Up? && w.process.phase.Idle?
    ensures
      var entries, archive := w.disk.ledger.entries, w.disk.archive;
      && (k !in entries && k !in archive ==>
            Step(w, Observe(k, identity)) == w.(disk := w.disk.(ledger := w.disk.ledger.(entries := entries[k := Entry(identity, Pending)]))))
      && (k in entries || k in archive ==> Step(w, Observe(k, identity)) == w)
      && (Changed(w.disk.ledger, k, Adopt(job)).Ok? ==>
            Step(w, AdoptJob(k, job)) == w.(disk := w.disk.(ledger := Changed(w.disk.ledger, k, Adopt(job)).value)))
      && (k in entries && entries[k].state.Completed? && k !in archive ==>
            Step(w, CopyToArchive(k)) == w.(disk := w.disk.(archive := archive[k := entries[k]])))
      && (k in archive ==> Step(w, Forget(k)).disk.ledger.entries == entries - {k} && Step(w, Forget(k)).disk.archive == archive)
  {
    hide Changed;
  }

  // ---- What a submission leaves behind ----

  /** The world with one entry's state and the log and process replaced. */
  function Left(w: World, k: Key, s: State, process: Process, events: seq<Event>): World
    requires k in w.disk.ledger.entries
  {
    var ledger := w.disk.ledger;
    World(w.disk.(ledger := ledger.(entries := ledger.entries[k := ledger.entries[k].(state := s)])), process, w.log + events)
  }

  lemma WriteIs(w: World, k: Key, a: Action, refusals: map<Key, nat>, phase: Phase, s: State)
    requires k in w.disk.ledger.entries && Transition(w.disk.ledger.entries[k].state, a) == Ok(s)
    ensures Write(w, k, a, refusals, phase) == Left(w, k, s, Up(refusals, phase), [])
  {
    hide Transition;
    assert w.log + [] == w.log;
  }

  /** A pending entry is marked, and posted once. */
  lemma MarkedAndPosted(w: World, q: Queue, now: nat)
    requires w.process.Up? && w.process.phase == Pass(q) && q != [] && q[0].0 in w.disk.ledger.entries
    requires w.disk.ledger.entries[q[0].0].state.Pending? && q[0].1.state.Pending?
    ensures Step(Step(w, Begin(now)), Post) == Left(w, q[0].0, Sending(now), Up(w.process.refusals, Sent(q)), [Posted(q[0].0)])
  {
    hide Write, Step;
    StepBegin(w, q, now);
    WriteIs(w, q[0].0, BeginSend(now), w.process.refusals, Begun(q), Sending(now));
    StepPost(Step(w, Begin(now)), q);
    assert w.log + [] + [Posted(q[0].0)] == w.log + [Posted(q[0].0)];
  }

  /** And each kind of answer leaves its own trace: a definite refusal reopens the entry durably, the tenth
      fails it; an acknowledged job is polled from then on; no answer leaves the entry marked, to be
      called ambiguous; and anything wrong fails it. */
  lemma SubmissionLeaves(w: World, q: Queue, now: nat, reply: Reply)
    requires w.process.Up? && w.process.phase == Pass(q) && q != [] && q[0].0 in w.disk.ledger.entries
    requires w.disk.ledger.entries[q[0].0] == q[0].1 && q[0].1.state.Pending?
    ensures
      var k, refusals := q[0].0, w.process.refusals;
      var sent := Step(Step(w, Begin(now)), Post);
      var w' := Step(Step(Step(sent, Answer(reply)), WriteRefusal), Settle);
      && (Definite(reply) && Count(refusals, k) < 9 ==>
            w' == Left(w, k, Pending, Up(refusals[k := Count(refusals, k) + 1], Pass(q[1..])), [Posted(k), Refusal(k), Reopened(k)]))
      && (Definite(reply) && Count(refusals, k) >= 9 ==>
            w' == Left(w, k, Failed(None, "submission_refused"), Up(refusals - {k}, Pass(q[1..])), [Posted(k), Refusal(k)]))
      && (reply.Transport? ==> w' == Left(w, k, Sending(now), Up(refusals, Pass(q[1..])), [Posted(k)]))
      && (reply.Protocol? ==> w' == Left(w, k, Failed(None, "invalid_job_response"), Up(refusals - {k}, Pass(q[1..])), [Posted(k)]))
      && (reply.Job? && reply.keyed && reply.status.Running? && IsUuid(reply.id) ==>
            w' == Left(w, k, Submitted(reply.id), Up(refusals - {k}, Pass(q[1..])), [Posted(k)]))
  {
    hide Step, Judge, IsUuid, Count;
    var k, refusals := q[0].0, w.process.refusals;
    MarkedAndPosted(w, q, now);
    var sent := Step(Step(w, Begin(now)), Post);
    SubmissionTable(q[0].1, Count(refusals, k), reply);
    if Definite(reply) && Count(refusals, k) < 9 {
      RefusedLeaves(sent, q, reply);
      LeftLeft(w, k, Sending(now), sent.process, [Posted(k)], Pending, [Refusal(k), Reopened(k)]);
    } else if Definite(reply) || reply.Protocol? || reply.Transport? || (reply.Job? && reply.keyed && reply.status.Running? && IsUuid(reply.id)) {
      AnsweredLeaves(sent, q, reply);
      CodesAreCodes();
      var events := if Definite(reply) then [Refusal(k)] else [];
      LeftLeft(w, k, Sending(now), sent.process, [Posted(k)], Failed(None, "submission_refused"), events);
      LeftLeft(w, k, Sending(now), sent.process, [Posted(k)], Failed(None, "invalid_job_response"), events);
      LeftLeft(w, k, Sending(now), sent.process, [Posted(k)], Sending(now), events);
      if reply.Job? {
        LeftLeft(w, k, Sending(now), sent.process, [Posted(k)], Submitted(reply.id), events);
      }
    }
  }

  lemma CodesAreCodes()
    ensures IsCode("submission_refused") && IsCode("invalid_job_response")
  {}

  lemma LeftLeft(w: World, k: Key, s: State, process: Process, events: seq<Event>, s': State, more: seq<Event>)
    requires k in w.disk.ledger.entries
    ensures
      var mid := Left(w, k, s, process, events);
      && k in mid.disk.ledger.entries && mid.disk.ledger.entries[k].state == s
      && forall process' :: Left(mid, k, s', process', more) == Left(w, k, s', process', events + more)
  {
    assert w.log + events + more == w.log + (events + more);
    var entries := w.disk.ledger.entries;
    assert entries[k := entries[k].(state := s)][k := entries[k].(state := s')] == entries[k := entries[k].(state := s')];
  }

  /** A definite refusal below the limit, from the answer on. */
  lemma RefusedLeaves(w: World, q: Queue, reply: Reply)
    requires w.process.Up? && w.process.phase == Sent(q) && q != [] && q[0].0 in w.disk.ledger.entries
    requires w.disk.ledger.entries[q[0].0].state.Sending? && q[0].1.state.Pending?
    requires Definite(reply) && Judge(q[0].1, reply, Count(w.process.refusals, q[0].0)) == Reopen
    ensures
      var k, refusals := q[0].0, w.process.refusals;
      Step(Step(Step(w, Answer(reply)), WriteRefusal), Settle) ==
        Left(w, k, Pending, Up(refusals[k := Count(refusals, k) + 1], Pass(q[1..])), [Refusal(k), Reopened(k)])
  {
    hide Judge, Count, Write, StepIdle, StepPass;
    var k, refusals := q[0].0, w.process.refusals;
    var w1 := Step(w, Answer(reply));
    assert w1 == w.(process := Up(refusals[k := Count(refusals, k) + 1], Refusing(q)), log := w.log + [Refusal(k)]);
    WriteIs(w1, k, Refuse, w1.process.refusals, Pass(q[1..]), Pending);
    var w2 := Step(w1, WriteRefusal);
    assert w.log + [Refusal(k)] + [Reopened(k)] == w.log + [Refusal(k), Reopened(k)];
    StepUnready(w2, Settle);
  }

  /** Any other answer that needs one step. */
  lemma AnsweredLeaves(w: World, q: Queue, reply: Reply)
    requires w.process.Up? && w.process.phase == Sent(q) && q != [] && q[0].0 in w.disk.ledger.entries
    requires w.disk.ledger.entries[q[0].0].state.Sending? && q[0].1.state.Pending? && !reply.BadRequest?
    ensures
      var k, refusals, v := q[0].0, w.process.refusals, Judge(q[0].1, reply, Count(w.process.refusals, q[0].0));
      var w' := Step(Step(Step(w, Answer(reply)), WriteRefusal), Settle);
      var events := if Definite(reply) then [Refusal(k)] else [];
      && (v == Keep ==> w' == Left(w, k, w.disk.ledger.entries[k].state, Up(refusals, Pass(q[1..])), events))
      && (v.GiveUp? && IsCode(v.code) ==> w' == Left(w, k, Failed(None, v.code), Up(refusals - {k}, Pass(q[1..])), events))
      && (v.Accept? && v.next == Keep && IsUuid(v.job) ==> w' == Left(w, k, Submitted(v.job), Up(refusals - {k}, Pass(q[1..])), events))
  {
    hide Judge, Count, Write, StepIdle, StepPass, IsUuid, IsCode;
    var k, refusals, v := q[0].0, w.process.refusals, Judge(q[0].1, reply, Count(w.process.refusals, q[0].0));
    var events := if Definite(reply) then [Refusal(k)] else [];
    var noted := w.(log := w.log + events);
    assert w.log + [] == w.log;
    assert Step(w, Answer(reply)) == Carry(noted, q, v);
    var entries := w.disk.ledger.entries;
    assert entries[k := entries[k].(state := entries[k].state)] == entries;
    if v == Keep {
      Quiet(Carry(noted, q, v));
    } else if v.GiveUp? && IsCode(v.code) {
      WriteIs(noted, k, Fail(v.code), refusals - {k}, Pass(q[1..]), Failed(None, v.code));
      LeftLog(w, k, Failed(None, v.code), Up(refusals - {k}, Pass(q[1..])), events);
      Quiet(Carry(noted, q, v));
    } else if v.Accept? && v.next == Keep && IsUuid(v.job) {
      WriteIs(noted, k, Acknowledge(v.job), refusals - {k}, Pass(q[1..]), Submitted(v.job));
      LeftLog(w, k, Submitted(v.job), Up(refusals - {k}, Pass(q[1..])), events);
      Quiet(Carry(noted, q, v));
    }
  }

  lemma LeftLog(w: World, k: Key, s: State, process: Process, events: seq<Event>)
    requires k in w.disk.ledger.entries
    ensures Left(w.(log := w.log + events), k, s, process, []) == Left(w, k, s, process, events)
  {
    assert w.log + events + [] == w.log + events;
  }

  lemma Quiet(w: World)
    requires w.process.Up? && w.process.phase.Pass?
    ensures Step(Step(w, WriteRefusal), Settle) == w
  {
    hide Step;
    StepUnready(w, WriteRefusal);
    StepUnready(w, Settle);
  }

  /** The five steps of a submission that could be sent. */
  lemma MovesAre(entry: Entry, targets: set<(string, string)>, now: nat, reply: Reply)
    requires (entry.identity.destination, entry.identity.profile) in targets
    ensures entry.state.Pending? && !reply.BadRequest? ==>
      Moves(entry, targets, now, reply) == [Begin(now), Post, Answer(reply), WriteRefusal, Settle]
    ensures entry.state.Sending? ==> Moves(entry, targets, now, reply) == [Ambiguous]
    ensures entry.state.Submitted? ==> Moves(entry, targets, now, reply) == [Answer(reply)]
  {}

  // ---- The machine's steps, label by label ----

  lemma StepBegin(w: World, q: Queue, now: nat)
    requires w.process.Up? && w.process.phase == Pass(q) && q != [] && q[0].1.state.Pending?
    ensures Step(w, Begin(now)) == Write(w, q[0].0, BeginSend(now), w.process.refusals, Begun(q))
  {
    hide Write;
  }

  lemma StepCannotSend(w: World, q: Queue)
    requires w.process.Up? && w.process.phase == Begun(q) && q != []
    ensures Step(w, CannotSend) == Carry(w, q, Judge(q[0].1, BadRequest, 0))
  {
    hide Carry, Judge;
  }

  lemma StepPost(w: World, q: Queue)
    requires w.process.Up? && w.process.phase == Begun(q) && q != []
    ensures Step(w, Post) == w.(process := w.process.(phase := Sent(q)), log := w.log + [Posted(q[0].0)])
  {
    hide Carry, Judge;
  }

  lemma StepAnswer(w: World, q: Queue, reply: Reply)
    requires w.process.Up? && w.process.phase == Sent(q) && q != [] && !reply.BadRequest?
    ensures
      var c, c' := Carry(w, q, Judge(q[0].1, reply, Count(w.process.refusals, q[0].0))), Step(w, Answer(reply));
      c'.disk == c.disk && c'.process == c.process
  {
    hide Carry, Judge;
    CarryLog(w, q, Judge(q[0].1, reply, Count(w.process.refusals, q[0].0)), Refusal(q[0].0));
  }

  lemma StepRefusal(w: World, q: Queue)
    requires w.process.Up? && w.process.phase == Refusing(q) && q != []
    ensures
      var c, c' := Write(w, q[0].0, Refuse, w.process.refusals, Pass(q[1..])), Step(w, WriteRefusal);
      c'.disk == c.disk && c'.process == c.process
  {
    hide Changed;
  }

  lemma StepSettle(w: World, q: Queue, v: Verdict)
    requires w.process.Up? && w.process.phase == Settling(q, v) && q != []
    ensures Step(w, Settle) == Carry(w, q, v)
  {
    hide Carry;
  }

  lemma StepRemoved(w: World, q: Queue)
    requires w.process.Up? && w.process.phase == Pass(q) && q != []
    ensures Step(w, RemovedTarget) == Carry(w, q, GiveUp("target_removed"))
  {
    hide Abandon;
  }

  lemma StepAmbiguous(w: World, q: Queue)
    requires w.process.Up? && w.process.phase == Pass(q) && q != [] && q[0].1.state.Sending?
    ensures Step(w, Ambiguous) == Carry(w, q, GiveUp("submission_ambiguous"))
  {
    hide Abandon;
  }

  lemma StepPoll(w: World, q: Queue, reply: Reply)
    requires w.process.Up? && w.process.phase == Pass(q) && q != [] && q[0].1.state.Submitted?
    ensures Step(w, Answer(reply)) == Carry(w, q, Judge(q[0].1, reply, 0))
  {
    hide Carry, Judge;
  }

  lemma StepStart(w: World, limit: nat)
    requires w.process.Up? && w.process.phase == Idle
    ensures
      var ledger := w.disk.ledger;
      Step(w, StartPass(limit)) ==
        w.(disk := w.disk.(ledger := ledger.(cursor := NextCursor(ledger, limit))),
           process := w.process.(phase := Pass(Selected(ledger, limit))))
  {
    hide Selected, NextCursor;
  }

  lemma StepEnd(w: World)
    requires w.process.Up? && w.process.phase == Pass([])
    ensures Step(w, EndPass) == w.(process := w.process.(phase := Idle))
  {}

  lemma SelectedIs(l: Ledger, limit: nat, entries: Queue)
    requires |entries| == |Batch(l, limit)|
    requires forall i :: 0 <= i < |entries| ==>
      entries[i].0 == Batch(l, limit)[i] && entries[i].0 in l.entries && entries[i].1 == l.entries[entries[i].0]
    ensures entries == Selected(l, limit)
  {
    hide Batch;
  }

  lemma SelectedLive(l: Ledger, limit: nat)
    ensures forall i :: 0 <= i < |Selected(l, limit)| ==> !Terminal(Selected(l, limit)[i].1.state)
  {
    hide Pick, Earlier;
    PickFacts(l.cursor, Live(l), limit);
  }

  /** Outside their phases, the two closing labels change nothing. */
  lemma StepUnready(w: World, l: Label)
    requires w.process.Up? && (w.process.phase.Pass? || (w.process.phase.Settling? && l.WriteRefusal?))
    requires l.WriteRefusal? || l.Settle?
    ensures Step(w, l) == w
  {
    hide Carry, Judge;
  }

  lemma SameWarning(entry: Entry, reply: Reply, refusals: nat)
    ensures Warnings(entry, reply) == if !reply.Job? && Judge(entry, reply, refusals).Keep? then 1 else 0
  {
    hide MatchesOutcome, RejectedSubmission;
  }

  /** Where a carried-out verdict leaves the worker. */
  function After(q: Queue, v: Verdict): Phase
    requires q != []
  {
    if v.Reopen? then Refusing(q)
    else if v.Accept? && !v.next.Keep? then Settling(q, v.next)
    else Pass(q[1..])
  }

  /** Answers that only count as transport errors. */
  function Warnings(entry: Entry, reply: Reply): nat {
    if !reply.Job? && Judge(entry, reply, 0).Keep? then 1 else 0
  }

  function Noted(entry: Entry, targets: set<(string, string)>, reply: Reply): nat {
    if (entry.identity.destination, entry.identity.profile) in targets && !entry.state.Sending? then Warnings(entry, reply) else 0
  }

  lemma BadRequestVerdict(entry: Entry)
    requires entry.state.Pending?
    ensures Judge(entry, BadRequest, 0).GiveUp?
  {}

  /** Noting an event does not change what a verdict does. */
  lemma CarryLog(w: World, q: Queue, v: Verdict, e: Event)
    requires q != [] && w.process.Up?
    ensures
      var c, c' := Carry(w, q, v), Carry(w.(log := w.log + [e]), q, v);
      c'.disk == c.disk && c'.process == c.process
  {
    hide Changed, Count;
  }
}
