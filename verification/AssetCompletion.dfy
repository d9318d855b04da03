/** Why an entry counts as completed: an answer that was actually received vouches for it. */
module AssetCompletion {
  import opened Common
  import opened AssetOutbox
  import opened AssetDispatch

  /** The answer is about this entry's job, says it is done, and its verified outcome is the one asked for:
      the same region, environment, platform, resource version and platform hash, a verified catalog,
      and whatever else the identity requires. */
  predicate Verifies(reply: Reply, identity: Identity, s: State) {
    && reply.Job? && reply.keyed && reply.status.Done? && reply.outcome.Some?
    && reply.outcome.value.verification.region == identity.region
    && reply.outcome.value.verification.environment == identity.environment
    && reply.outcome.value.verification.platform == identity.platform
    && reply.outcome.value.verification.resourceVersion == identity.resourceVersion
    && reply.outcome.value.verification.platformHash == identity.platformHash
    && reply.outcome.value.verification.catalogVerified
    && (identity.requireFullCatalog ==> reply.outcome.value.verification.fullCatalog)
    && (identity.requireFullExport ==>
          && reply.outcome.value.exported.Some? && reply.outcome.value.exported.value.full
          && (reply.outcome.value.exported.value.retained || reply.outcome.value.publication.Some?))
    && (identity.requirePublication ==> reply.outcome.value.publication.Some?)
    && s == Completed(reply.id, reply.outcome.value.verification.catalog, reply.outcome.value.publication)
  }

  ghost predicate Answered(labels: seq<Label>, identity: Identity, s: State) {
    exists i :: 0 <= i < |labels| && labels[i].Answer? && Verifies(labels[i].reply, identity, s)
  }

  ghost predicate Vouched(labels: seq<Label>, e: Entry) {
    e.state.Completed? ==> Answered(labels, e.identity, e.state)
  }

  ghost predicate DiskVouched(labels: seq<Label>, d: Durable) {
    && (forall k :: k in d.ledger.entries ==> Vouched(labels, d.ledger.entries[k]))
    && (forall k :: k in d.archive ==> Vouched(labels, d.archive[k]))
  }

  /** Queued entries are in the ledger under the same identity. */
  ghost predicate QueueKnown(l: Ledger, q: Queue) {
    forall i :: 0 <= i < |q| ==> q[i].0 in l.entries && l.entries[q[i].0].identity == q[i].1.identity
  }

  ghost predicate VerdictVouched(labels: seq<Label>, identity: Identity, v: Verdict) {
    v.Finish? ==> Answered(labels, identity, Completed(v.job, v.catalog, v.publication))
  }

  ghost predicate PhaseVouched(labels: seq<Label>, w: World) {
    w.process.Up? ==>
      && QueueKnown(w.disk.ledger, QueueOf(w.process.phase))
      && (w.process.phase.Settling? && w.process.phase.queue != [] ==>
            !w.process.phase.verdict.Accept? && VerdictVouched(labels, w.process.phase.queue[0].1.identity, w.process.phase.verdict))
  }

  ghost predicate Inv(labels: seq<Label>, w: World) {
    DiskVouched(labels, w.disk) && PhaseVouched(labels, w)
  }

  /** A longer run vouches for more. */
  lemma StillAnswered(labels: seq<Label>, l: Label, identity: Identity, s: State)
    requires Answered(labels, identity, s)
    ensures Answered(labels + [l], identity, s)
  {
    hide Verifies;
    var i :| 0 <= i < |labels| && labels[i].Answer? && Verifies(labels[i].reply, identity, s);
    assert (labels + [l])[i] == labels[i];
  }

  lemma StillVouched(labels: seq<Label>, l: Label, w: World)
    requires Inv(labels, w)
    ensures Inv(labels + [l], w)
  {
    hide Answered, QueueKnown;
    forall k | k in w.disk.ledger.entries && w.disk.ledger.entries[k].state.Completed?
      ensures Answered(labels + [l], w.disk.ledger.entries[k].identity, w.disk.ledger.entries[k].state)
    {
      assert Vouched(labels, w.disk.ledger.entries[k]);
      StillAnswered(labels, l, w.disk.ledger.entries[k].identity, w.disk.ledger.entries[k].state);
    }
    forall k | k in w.disk.archive && w.disk.archive[k].state.Completed?
      ensures Answered(labels + [l], w.disk.archive[k].identity, w.disk.archive[k].state)
    {
      assert Vouched(labels, w.disk.archive[k]);
      StillAnswered(labels, l, w.disk.archive[k].identity, w.disk.archive[k].state);
    }
    if w.process.Up? && w.process.phase.Settling? && w.process.phase.queue != [] && w.process.phase.verdict.Finish? {
      var v := w.process.phase.verdict;
      StillAnswered(labels, l, w.process.phase.queue[0].1.identity, Completed(v.job, v.catalog, v.publication));
    }
  }

  /** Only completion completes. */
  lemma CompletedBy(s: State, a: Action)
    requires Transition(s, a).Ok? && Transition(s, a).value.Completed?
    ensures if a.Complete? then Transition(s, a).value == Completed(a.job, a.catalog, a.publication) else Transition(s, a).value == s
  {
    hide IsUuid, IsDigest, IsCode;
  }

  lemma ChangedVouched(labels: seq<Label>, d: Durable, k: Key, a: Action)
    requires DiskVouched(labels, d) && Changed(d.ledger, k, a).Ok?
    requires a.Complete? && k in d.ledger.entries ==>
      Answered(labels, d.ledger.entries[k].identity, Completed(a.job, a.catalog, a.publication))
    ensures DiskVouched(labels, d.(ledger := Changed(d.ledger, k, a).value))
    ensures forall q :: QueueKnown(d.ledger, q) ==> QueueKnown(Changed(d.ledger, k, a).value, q)
  {
    hide Transition, Answered;
    var l := Changed(d.ledger, k, a).value;
    if l.entries[k].state.Completed? {
      CompletedBy(d.ledger.entries[k].state, a);
    }
    assert Vouched(labels, d.ledger.entries[k]);
  }

  lemma WriteVouched(labels: seq<Label>, w: World, k: Key, a: Action, refusals: map<Key, nat>, phase: Phase)
    requires DiskVouched(labels, w.disk)
    requires a.Complete? && k in w.disk.ledger.entries ==>
      Answered(labels, w.disk.ledger.entries[k].identity, Completed(a.job, a.catalog, a.publication))
    requires QueueKnown(w.disk.ledger, QueueOf(phase))
    requires phase.Settling? && phase.queue != [] ==>
      !phase.verdict.Accept? && VerdictVouched(labels, phase.queue[0].1.identity, phase.verdict)
    ensures Inv(labels, Write(w, k, a, refusals, phase))
  {
    hide DiskVouched, QueueKnown, VerdictVouched, Changed, Answered;
    if Changed(w.disk.ledger, k, a).Ok? {
      ChangedVouched(labels, w.disk, k, a);
    }
  }

  lemma RestKnown(l: Ledger, q: Queue)
    requires QueueKnown(l, q) && q != []
    ensures QueueKnown(l, q[1..]) && q[0].0 in l.entries && l.entries[q[0].0].identity == q[0].1.identity
  {}

  lemma CarryVouched(labels: seq<Label>, w: World, q: Queue, v: Verdict)
    requires DiskVouched(labels, w.disk) && w.process.Up? && q != [] && QueueKnown(w.disk.ledger, q)
    requires VerdictVouched(labels, q[0].1.identity, if v.Accept? then v.next else v) && (v.Accept? ==> !v.next.Accept?)
    ensures Inv(labels, Carry(w, q, v))
  {
    hide DiskVouched, QueueKnown, Answered, Write, Count;
    RestKnown(w.disk.ledger, q);
    var k, refusals := q[0].0, w.process.refusals;
    match v
    case Keep =>
    case GiveUp(code) => WriteVouched(labels, w, k, Fail(code), refusals - {k}, Pass(q[1..]));
    case Reopen =>
    case Accept(job, next) =>
      WriteVouched(labels, w, k, Acknowledge(job), refusals - {k}, if next.Keep? then Pass(q[1..]) else Settling(q, next));
    case Finish(job, catalog, publication) =>
      WriteVouched(labels, w, k, Complete(job, catalog, publication), refusals, Pass(q[1..]));
  }

  /** A judgement of completion is what the answer says. */
  lemma JudgedFinish(labels: seq<Label>, entry: Entry, reply: Reply, refusals: nat)
    ensures
      var v := Judge(entry, reply, refusals);
      && VerdictVouched(labels + [Answer(reply)], entry.identity, if v.Accept? then v.next else v)
      && (v.Accept? ==> !v.next.Accept?)
  {
    hide RejectedSubmission;
    var v := Judge(entry, reply, refusals);
    var last := if v.Accept? then v.next else v;
    if last.Finish? {
      assert (labels + [Answer(reply)])[|labels|] == Answer(reply);
      assert Verifies(reply, entry.identity, Completed(last.job, last.catalog, last.publication));
    }
  }

  /** And the other way round: an answer that verifies the entry completes it, a pending one once it is
      acknowledged; one that is done but does not verify it fails it. */
  lemma VerifiedFinishes(entry: Entry, reply: Reply, refusals: nat, s: State)
    requires reply.Job? && reply.keyed && reply.status.Done?
    ensures
      var v := Judge(entry, reply, refusals);
      var last := if entry.state.Pending? then (if v.Accept? then v.next else Keep) else v;
      && (entry.state.Pending? ==> v.Accept? && v.job == reply.id)
      && (Verifies(reply, entry.identity, s) ==> s.Completed? && last == Finish(s.job, s.catalog, s.publication))
      && ((forall s' :: !Verifies(reply, entry.identity, s')) ==> last == GiveUp("outcome_mismatch"))
  {
    if reply.outcome.Some? && MatchesOutcome(entry.identity, reply.outcome.value) {
      var o := reply.outcome.value;
      assert Verifies(reply, entry.identity, Completed(reply.id, o.verification.catalog, o.publication));
    }
  }

  /** A submitted entry whose poll verifies it is completed, durably, in that step. */
  lemma PollCompletes(w: World, q: Queue, reply: Reply, s: State)
    requires w.process.Up? && w.process.phase == Pass(q) && q != [] && q[0].0 in w.disk.ledger.entries
    requires Verifies(reply, q[0].1.identity, s) && w.disk.ledger.entries[q[0].0] == q[0].1 && q[0].1.state == Submitted(reply.id)
    requires IsDigest(s.catalog) && (s.publication.Some? ==> IsUuid(s.publication.value))
    ensures
      var w' := Step(w, Answer(reply));
      && q[0].0 in w'.disk.ledger.entries && w'.disk.ledger.entries[q[0].0] == q[0].1.(state := s)
      && w'.process.Up? && w'.process.phase == Pass(q[1..])
  {
    hide Judge, IsUuid, IsDigest;
    VerifiedFinishes(q[0].1, reply, 0, s);
    StepPoll(w, q, reply);
  }

  lemma IdleVouched(labels: seq<Label>, w: World, l: Label)
    requires Inv(labels, w) && w.process.Up? && w.process.phase.Idle?
    ensures Inv(labels, StepIdle(w, l))
  {
    hide Answered, Changed, NextCursor, Batch;
    match l
    case AdoptJob(k, job) =>
      if Changed(w.disk.ledger, k, Adopt(job)).Ok? {
        ChangedVouched(labels, w.disk, k, Adopt(job));
      }
    case StartPass(limit) => LastKnown(w.disk.ledger, limit);
    case _ =>
  }

  lemma PassVouched(labels: seq<Label>, w: World, q: Queue, l: Label)
    requires Inv(labels, w) && w.process.Up? && w.process.phase == Pass(q) && q != []
    ensures Inv(labels + [l], StepPass(w, q, l))
  {
    hide Inv, DiskVouched, QueueKnown, Answered, Write, Carry, Judge;
    StillVouched(labels, l, w);
    InvFacts(labels, w);
    InvFacts(labels + [l], w);
    RestKnown(w.disk.ledger, q);
    var (k, entry) := q[0];
    var longer := labels + [l];
    match l
    case RemovedTarget => WriteVouched(longer, w, k, Fail("target_removed"), w.process.refusals - {k}, Pass(q[1..]));
    case Begin(now) => WriteVouched(longer, w, k, BeginSend(now), w.process.refusals, Begun(q));
    case Ambiguous => WriteVouched(longer, w, k, Fail("submission_ambiguous"), w.process.refusals - {k}, Pass(q[1..]));
    case Answer(reply) =>
      JudgedFinish(labels, entry, reply, 0);
      CarryVouched(longer, w, q, Judge(entry, reply, 0));
    case _ =>
  }

  lemma InvFacts(labels: seq<Label>, w: World)
    requires Inv(labels, w)
    ensures DiskVouched(labels, w.disk) && PhaseVouched(labels, w)
  {}

  lemma SentVouched(labels: seq<Label>, w: World, q: Queue, reply: Reply)
    requires Inv(labels, w) && w.process.Up? && w.process.phase == Sent(q) && q != [] && !reply.BadRequest?
    ensures Inv(labels + [Answer(reply)], Step(w, Answer(reply)))
  {
    hide Inv, DiskVouched, QueueKnown, Answered, Write, Carry, Judge, Count;
    StillVouched(labels, Answer(reply), w);
    InvFacts(labels + [Answer(reply)], w);
    var w' := if Definite(reply) then w.(log := w.log + [Refusal(q[0].0)]) else w;
    var refusals := Count(w.process.refusals, q[0].0);
    JudgedFinish(labels, q[0].1, reply, refusals);
    CarryVouched(labels + [Answer(reply)], w', q, Judge(q[0].1, reply, refusals));
  }

  /** Steps of a begun, refused or settling entry. */
  lemma EntryVouched(labels: seq<Label>, w: World, l: Label)
    requires Inv(labels, w) && w.process.Up? && (w.process.phase.Begun? || w.process.phase.Refusing? || w.process.phase.Settling?)
    ensures Inv(labels, Step(w, l))
  {
    hide DiskVouched, QueueKnown, Answered, Write, Carry, Judge, StepIdle, StepPass;
    var q := w.process.phase.queue;
    if q != [] {
      RestKnown(w.disk.ledger, q);
      match w.process.phase
      case Begun(_) =>
        CannotSendVerdict(q[0].1);
        CarryVouched(labels, w, q, Judge(q[0].1, BadRequest, 0));
      case Refusing(_) => WriteVouched(labels, w, q[0].0, Refuse, w.process.refusals, Pass(q[1..]));
      case Settling(_, v) => CarryVouched(labels, w, q, v);
    }
  }

  lemma CannotSendVerdict(entry: Entry)
    ensures Judge(entry, BadRequest, 0).Keep? || Judge(entry, BadRequest, 0).GiveUp?
  {}

  lemma StepVouched(labels: seq<Label>, w: World, l: Label)
    requires Inv(labels, w)
    ensures Inv(labels + [l], Step(w, l))
  {
    hide DiskVouched, QueueKnown, Answered, Write, Carry, Judge, StepIdle, StepPass, Inv;
    StillVouched(labels, l, w);
    if w.process.Down? || l.Restart? || l.Crash? {
      StepRest(labels + [l], w, l);
    } else {
      match w.process.phase
      case Idle => IdleVouched(labels + [l], w, l);
      case Pass(q) => if q != [] { PassVouched(labels, w, q, l); } else { StepRest(labels + [l], w, l); }
      case Sent(q) => if q != [] && l.Answer? && !l.reply.BadRequest? { SentVouched(labels, w, q, l.reply); } else { StepRest(labels + [l], w, l); }
      case _ => EntryVouched(labels + [l], w, l);
    }
  }

  /** Starting, stopping, ending a pass, and labels that are not enabled leave the files alone. */
  lemma StepRest(labels: seq<Label>, w: World, l: Label)
    requires Inv(labels, w)
    requires
      || w.process.Down? || l.Restart? || l.Crash? || w.process.phase == Pass([])
      || (w.process.phase.Sent? && (w.process.phase.queue == [] || !l.Answer? || l.reply.BadRequest?))
    ensures Inv(labels, Step(w, l))
  {
    hide DiskVouched, Answered;
  }

  lemma {:induction false} RunVouched(w: World, labels: seq<Label>)
    requires Inv([], w)
    ensures Inv(labels, Run(w, labels))
  {
    hide Inv, Step;
    if labels != [] {
      var init := labels[..|labels| - 1];
      RunVouched(w, init);
      StepVouched(init, Run(w, init), labels[|labels| - 1]);
      assert init + [labels[|labels| - 1]] == labels;
    }
  }

  /** In every run that starts without completed entries, each completed record, in the ledger or the
      archive, is vouched for by an answer received in that run. */
  lemma OnlyVerifiedCompletes(disk: Durable, labels: seq<Label>, k: Key)
    requires forall j :: j in disk.ledger.entries ==> !disk.ledger.entries[j].state.Completed?
    requires disk.archive == map[]
    ensures
      var d := Run(World(disk, Down, []), labels).disk;
      && (k in d.ledger.entries && d.ledger.entries[k].state.Completed? ==>
            Answered(labels, d.ledger.entries[k].identity, d.ledger.entries[k].state))
      && (k in d.archive && d.archive[k].state.Completed? ==> Answered(labels, d.archive[k].identity, d.archive[k].state))
  {
    hide Step, Answered;
    var w := World(disk, Down, []);
    RunVouched(w, labels);
    var d := Run(w, labels).disk;
    assert k in d.ledger.entries ==> Vouched(labels, d.ledger.entries[k]);
    assert k in d.archive ==> Vouched(labels, d.archive[k]);
  }
}
