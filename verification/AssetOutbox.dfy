/** The durable dispatch ledger: every transition is written to `outbox.json` before it takes effect
    in memory, and confirmed completions are archived before the ledger forgets them. */
module AssetOutbox {
  import opened Common

  datatype Error = Invalid | Storage | Full
  datatype Outcome<+T> = Ok(value: T) | Err(error: Error)

  /** The dispatch key: the SHA-256 digest of an identity as a number. Keys print as a fixed prefix
      and 64 lower-case hexadecimal digits, so their string order is the order of the numbers. */
  type Key = nat

  datatype Region = Jp | Cn | Hk | En | Kr

  datatype Identity = Identity(
    destination: string,
    region: Region,
    profile: string,
    profileRevision: string,
    environment: string,
    platform: string,
    resourceVersion: string,
    platformHash: string,
    requireFullCatalog: bool,
    requireFullExport: bool,
    requirePublication: bool
  )

  datatype State =
    | Pending
    | Sending(firstAttempt: nat)
    | Submitted(job: string)
    | Completed(job: string, catalog: string, publication: Option<string>)
    | Failed(failedJob: Option<string>, code: string)

  datatype Entry = Entry(identity: Identity, state: State)
  datatype Ledger = Ledger(cursor: Option<Key>, entries: map<Key, Entry>)

  // ---- Formats ----

  predicate LowerHex(c: char) {
    '0' <= c <= '9' || 'a' <= c <= 'f'
  }

  predicate IsDigest(v: string) {
    |v| == 64 && forall i :: 0 <= i < |v| ==> LowerHex(v[i])
  }

  predicate IsUuid(v: string) {
    && |v| == 36
    && forall i :: 0 <= i < 36 ==> if i in {8, 13, 18, 23} then v[i] == '-' else LowerHex(v[i])
  }

  predicate ComponentChar(c: char) {
    'a' <= c <= 'z' || 'A' <= c <= 'Z' || '0' <= c <= '9' || c in "-_."
  }

  predicate IsComponent(v: string) {
    && 0 < |v| <= 256 && v != "." && v != ".."
    && forall i :: 0 <= i < |v| ==> ComponentChar(v[i])
  }

  predicate IsCode(v: string) {
    0 < |v| <= 64 && forall i :: 0 <= i < |v| ==> 'a' <= v[i] <= 'z' || v[i] == '_'
  }

  predicate ValidIdentity(i: Identity) {
    && IsDigest(i.destination) && !i.region.Cn?
    && |i.profile| <= 64 && IsComponent(i.profile) && '.' !in i.profile
    && IsComponent(i.profileRevision) && IsComponent(i.environment)
    && IsComponent(i.resourceVersion) && IsComponent(i.platformHash)
    && (i.platform == "iOS" || i.platform == "Android")
  }

  predicate ValidState(s: State) {
    match s
    case Pending => true
    case Sending(_) => true
    case Submitted(job) => IsUuid(job)
    case Completed(job, catalog, publication) =>
      IsUuid(job) && IsDigest(catalog) && (publication.Some? ==> IsUuid(publication.value))
    case Failed(job, code) => (job.Some? ==> IsUuid(job.value)) && IsCode(code)
  }

  predicate Terminal(s: State) {
    s.Completed? || s.Failed?
  }

  // ---- Transitions of one entry ----

  datatype Action =
    | BeginSend(now: nat)
    | Refuse
    | Acknowledge(job: string)
    | Adopt(job: string)
    | Complete(job: string, catalog: string, publication: Option<string>)
    | Fail(code: string)

  function Transition(s: State, a: Action): Outcome<State> {
    match a
    case BeginSend(now) =>
      if s.Pending? then Ok(Sending(now)) else if s.Sending? then Ok(s) else Err(Invalid)
    case Refuse =>
      if s.Sending? then Ok(Pending) else Err(Invalid)
    case Acknowledge(job) =>
      if !IsUuid(job) then Err(Invalid)
      else if s.Sending? then Ok(Submitted(job))
      else if s == Submitted(job) then Ok(s) else Err(Invalid)
    case Adopt(job) =>
      if !IsUuid(job) then Err(Invalid)
      else if s.Sending? then Ok(Submitted(job))
      else if s == Failed(None, "submission_ambiguous") || s == Failed(None, "invalid_job_response") then Ok(Submitted(job))
      else if s == Submitted(job) then Ok(s) else Err(Invalid)
    case Complete(job, catalog, publication) =>
      if !IsDigest(catalog) || (publication.Some? && !IsUuid(publication.value)) then Err(Invalid)
      else
        var target := Completed(job, catalog, publication);
        if s == Submitted(job) then Ok(target) else if s == target then Ok(s) else Err(Invalid)
    case Fail(code) =>
      if !IsCode(code) then Err(Invalid)
      else if s.Pending? || s.Sending? then Ok(Failed(None, code))
      else if s.Submitted? then Ok(Failed(Some(s.job), code)) else Err(Invalid)
  }

  /** The table of transitions. The first attempt of a marked entry stays; only a marked entry is reopened;
      operators readmit marked entries and those that failed before any job was known; a job completes
      only the entry submitted under it; a failure keeps the job of a submitted entry, and nothing
      leaves a terminal state otherwise. */
  lemma TransitionTable(s: State, now: nat, job: string, catalog: string, publication: Option<string>, code: string)
    requires IsUuid(job) && IsDigest(catalog) && (publication.Some? ==> IsUuid(publication.value)) && IsCode(code)
    ensures Transition(s, BeginSend(now)) ==
      match s case Pending => Ok(Sending(now)) case Sending(first) => Ok(Sending(first)) case _ => Err(Invalid)
    ensures Transition(s, Refuse) == if s.Sending? then Ok(Pending) else Err(Invalid)
    ensures Transition(s, Acknowledge(job)) == if s.Sending? || s == Submitted(job) then Ok(Submitted(job)) else Err(Invalid)
    ensures Transition(s, Adopt(job)) ==
      if s.Sending? || s in {Submitted(job), Failed(None, "submission_ambiguous"), Failed(None, "invalid_job_response")}
      then Ok(Submitted(job)) else Err(Invalid)
    ensures Transition(s, Complete(job, catalog, publication)) ==
      if s in {Submitted(job), Completed(job, catalog, publication)} then Ok(Completed(job, catalog, publication)) else Err(Invalid)
    ensures Transition(s, Fail(code)) ==
      match s
      case Submitted(own) => Ok(Failed(Some(own), code))
      case Completed(_, _, _) => Err(Invalid)
      case Failed(_, _) => Err(Invalid)
      case _ => Ok(Failed(None, code))
  {
    hide IsUuid, IsDigest, IsCode;
  }

  /** Whatever is asked with arguments of the wrong form is refused. */
  lemma WrongArguments(s: State, job: string, catalog: string, publication: Option<string>, code: string)
    ensures !IsUuid(job) ==> Transition(s, Acknowledge(job)) == Transition(s, Adopt(job)) == Err(Invalid)
    ensures !IsDigest(catalog) || (publication.Some? && !IsUuid(publication.value)) ==>
      Transition(s, Complete(job, catalog, publication)) == Err(Invalid)
    ensures !IsCode(code) ==> Transition(s, Fail(code)) == Err(Invalid)
  {
    hide IsUuid, IsDigest, IsCode;
  }

  /** The state after a run of actions, refused ones leaving it as it was. */
  function StateAfter(s: State, actions: seq<Action>): State {
    if actions == [] then s
    else
      var before := StateAfter(s, actions[..|actions| - 1]);
      match Transition(before, actions[|actions| - 1])
      case Ok(next) => next
      case Err(_) => before
  }

  /** The job an entry was submitted under, if it was. */
  function JobOf(s: State): Option<string> {
    match s
    case Submitted(job) => Some(job)
    case Completed(job, _, _) => Some(job)
    case Failed(job, _) => job
    case _ => None
  }

  /** Over any run of actions, an entry that has a job keeps it and is never submitted again; one that is
      completed stays as it is. */
  lemma {:induction false} JobKept(s: State, actions: seq<Action>)
    requires JobOf(s).Some?
    ensures
      var s' := StateAfter(s, actions);
      JobOf(s') == JobOf(s) && !s'.Pending? && !s'.Sending? && (s.Completed? ==> s' == s)
  {
    hide IsUuid, IsDigest, IsCode;
    if actions != [] {
      JobKept(s, actions[..|actions| - 1]);
    }
  }

  function Changed(l: Ledger, key: Key, a: Action): Outcome<Ledger> {
    if key !in l.entries then Err(Invalid)
    else match Transition(l.entries[key].state, a)
      case Ok(s) => Ok(l.(entries := l.entries[key := l.entries[key].(state := s)]))
      case Err(e) => Err(e)
  }

  // ---- What is on disk ----

  datatype Durable = Durable(ledger: Ledger, archive: map<Key, Entry>)

  /** What `open` checks, for keys computed by `hash`. */
  predicate LedgerOk(l: Ledger, capacity: nat, hash: Identity -> Key) {
    |l.entries| <= capacity && EntriesOk(l, hash)
  }

  predicate EntriesOk(l: Ledger, hash: Identity -> Key) {
    && (l.cursor.Some? ==> l.cursor.value in l.entries)
    && forall k :: k in l.entries ==> EntryOk(k, l.entries[k], hash)
  }

  predicate EntryOk(k: Key, e: Entry, hash: Identity -> Key) {
    ValidIdentity(e.identity) && hash(e.identity) == k && ValidState(e.state)
  }

  /** Archived entries are valid completions, and agree with the ledger where it still has them. */
  ghost predicate ArchiveOk(d: Durable, hash: Identity -> Key) {
    && (forall k :: k in d.archive ==> EntryOk(k, d.archive[k], hash) && d.archive[k].state.Completed?)
    && (forall k :: k in d.archive && k in d.ledger.entries ==> d.ledger.entries[k] == d.archive[k])
  }

  ghost predicate DurableOk(d: Durable, hash: Identity -> Key) {
    EntriesOk(d.ledger, hash) && ArchiveOk(d, hash)
  }

  predicate Known(d: Durable, k: Key) {
    k in d.ledger.entries || k in d.archive
  }

  /** The record of a completed entry, wherever it is kept. */
  function CompletedRecord(d: Durable, k: Key): Option<Entry> {
    if k in d.archive then Some(d.archive[k])
    else if k in d.ledger.entries && d.ledger.entries[k].state.Completed? then Some(d.ledger.entries[k])
    else None
  }

  predicate CompletedAs(d: Durable, k: Key, job: string) {
    var record := CompletedRecord(d, k);
    record.Some? && record.value.state.Completed? && record.value.state.job == job
  }

  function IdentityOf(d: Durable, k: Key): Identity
    requires Known(d, k)
  {
    if k in d.ledger.entries then d.ledger.entries[k].identity else d.archive[k].identity
  }

  /** Nothing known is forgotten, no identity changes and completed records stay as they are. */
  ghost predicate Keeps(d: Durable, d': Durable) {
    && (forall k :: Known(d, k) ==> Known(d', k) && IdentityOf(d', k) == IdentityOf(d, k))
    && (forall k :: CompletedRecord(d, k).Some? ==> CompletedRecord(d', k) == CompletedRecord(d, k))
    && (forall k :: k in d.archive ==> k in d'.archive)
  }

  lemma KeepsTrans(a: Durable, b: Durable, c: Durable)
    requires Keeps(a, b) && Keeps(b, c)
    ensures Keeps(a, c)
  {}

  lemma TransitionValid(s: State, a: Action)
    requires ValidState(s) && Transition(s, a).Ok?
    ensures ValidState(Transition(s, a).value)
    ensures s.Completed? ==> Transition(s, a).value == s
  {
    hide IsUuid, IsDigest, IsCode;
  }

  lemma ChangeKeeps(d: Durable, key: Key, a: Action, hash: Identity -> Key)
    requires DurableOk(d, hash) && Changed(d.ledger, key, a).Ok?
    ensures
      var d' := d.(ledger := Changed(d.ledger, key, a).value);
      DurableOk(d', hash) && Keeps(d, d')
  {
    hide ValidIdentity, ValidState, Transition;
    var d' := d.(ledger := Changed(d.ledger, key, a).value);
    assert d'.ledger.entries.Keys == d.ledger.entries.Keys;
    TransitionValid(d.ledger.entries[key].state, a);
  }

  lemma ObserveKeeps(d: Durable, identity: Identity, hash: Identity -> Key)
    requires DurableOk(d, hash) && ValidIdentity(identity) && !Known(d, hash(identity))
    ensures
      var d' := d.(ledger := d.ledger.(entries := d.ledger.entries[hash(identity) := Entry(identity, Pending)]));
      DurableOk(d', hash) && Keeps(d, d')
  {
    hide EntryOk;
    NewEntry(identity, hash);
    var d' := d.(ledger := d.ledger.(entries := d.ledger.entries[hash(identity) := Entry(identity, Pending)]));
    assert d'.ledger.entries.Keys == d.ledger.entries.Keys + {hash(identity)};
  }

  lemma NewEntry(identity: Identity, hash: Identity -> Key)
    requires ValidIdentity(identity)
    ensures EntryOk(hash(identity), Entry(identity, Pending), hash)
  {}

  lemma CursorKeeps(d: Durable, cursor: Key, hash: Identity -> Key)
    requires DurableOk(d, hash) && cursor in d.ledger.entries
    ensures
      var d' := d.(ledger := d.ledger.(cursor := Some(cursor)));
      DurableOk(d', hash) && Keeps(d, d')
  {
    hide EntryOk;
  }

  /** The archive copy is written; the ledger still holds the entry. */
  lemma ArchiveKeeps(d: Durable, key: Key, hash: Identity -> Key)
    requires DurableOk(d, hash) && key in d.ledger.entries
    requires d.ledger.entries[key].state.Completed? && key !in d.archive
    ensures
      var d' := d.(archive := d.archive[key := d.ledger.entries[key]]);
      DurableOk(d', hash) && Keeps(d, d')
  {
    hide EntryOk;
  }

  function Forgotten(l: Ledger, key: Key): Ledger {
    Ledger(if l.cursor == Some(key) then None else l.cursor, l.entries - {key})
  }

  /** The ledger forgets an archived entry. */
  lemma ForgetKeeps(d: Durable, key: Key, hash: Identity -> Key)
    requires DurableOk(d, hash) && key in d.ledger.entries && key in d.archive
    ensures
      var d' := d.(ledger := Forgotten(d.ledger, key));
      DurableOk(d', hash) && Keeps(d, d')
  {
    hide EntryOk;
    var d' := d.(ledger := Forgotten(d.ledger, key));
    assert d'.ledger.entries.Keys == d.ledger.entries.Keys - {key};
    assert d'.ledger.entries.Keys < d.ledger.entries.Keys;
  }

  // ---- Runs: every durable state, so every state a crash can leave ----

  ghost predicate Trail(trail: seq<Durable>, hash: Identity -> Key) {
    && (forall i :: 0 <= i < |trail| ==> DurableOk(trail[i], hash))
    && (forall i :: 0 <= i < |trail| - 1 ==> Keeps(trail[i], trail[i + 1]))
  }

  lemma TrailExtends(trail: seq<Durable>, d: Durable, hash: Identity -> Key)
    requires Trail(trail, hash) && trail != []
    requires DurableOk(d, hash) && Keeps(trail[|trail| - 1], d)
    ensures Trail(trail + [d], hash)
  {
    hide DurableOk, Keeps;
    var trail' := trail + [d];
    forall i | 0 <= i < |trail'| - 1 ensures Keeps(trail'[i], trail'[i + 1]) {
      assert trail'[i] == trail[i];
    }
  }

  /** Between any two durable states of a run, whatever was observed is still known under the same
      identity, and completed records have not changed. */
  lemma {:induction false} NothingForgotten(trail: seq<Durable>, i: nat, j: nat, hash: Identity -> Key)
    requires Trail(trail, hash) && i <= j < |trail|
    ensures Keeps(trail[i], trail[j])
    decreases j
  {
    hide DurableOk;
    if i < j {
      NothingForgotten(trail, i, j - 1, hash);
      assert Keeps(trail[j - 1], trail[j - 1 + 1]);
      KeepsTrans(trail[i], trail[j - 1], trail[j]);
    }
  }

  // ---- Reconciliation batches rotate over the nonterminal entries ----

  function Live(l: Ledger): set<Key> {
    set k | k in l.entries && !Terminal(l.entries[k].state)
  }

  predicate AfterCursor(cursor: Option<Key>, k: Key) {
    cursor.None? || k > cursor.value
  }

  /** The rotation order: keys after the cursor first, each part ascending. */
  predicate Earlier(cursor: Option<Key>, j: Key, k: Key) {
    if AfterCursor(cursor, j) == AfterCursor(cursor, k) then j < k else AfterCursor(cursor, j)
  }

  predicate IsEarliest(cursor: Option<Key>, keys: set<Key>, m: Key) {
    m in keys && forall k :: k in keys && k != m ==> Earlier(cursor, m, k)
  }

  lemma EarliestExists(cursor: Option<Key>, keys: set<Key>)
    requires keys != {}
    ensures exists m :: IsEarliest(cursor, keys, m)
  {
    var x :| x in keys;
    if keys == {x} {
      assert IsEarliest(cursor, keys, x);
    } else {
      var rest := keys - {x};
      EarliestExists(cursor, rest);
      var m :| IsEarliest(cursor, rest, m);
      if Earlier(cursor, x, m) {
        forall k | k in keys && k != x ensures Earlier(cursor, x, k) {
          assert k == m || Earlier(cursor, m, k);
        }
        assert IsEarliest(cursor, keys, x);
      } else {
        assert IsEarliest(cursor, keys, m);
      }
    }
  }

  function Earliest(cursor: Option<Key>, keys: set<Key>): (m: Key)
    requires keys != {}
    ensures IsEarliest(cursor, keys, m)
  {
    EarliestExists(cursor, keys);
    var m :| IsEarliest(cursor, keys, m);
    m
  }

  /** The `limit` earliest of `keys`, in rotation order. */
  function Pick(cursor: Option<Key>, keys: set<Key>, limit: nat): (batch: seq<Key>)
    decreases limit
  {
    if limit == 0 || keys == {} then []
    else
      var m := Earliest(cursor, keys);
      [m] + Pick(cursor, keys - {m}, limit - 1)
  }

  function Batch(l: Ledger, limit: nat): seq<Key> {
    Pick(l.cursor, Live(l), limit)
  }

  /** A batch has no duplicates, is as large as it can be, and leaves out only later keys. */
  lemma {:induction false} PickFacts(cursor: Option<Key>, keys: set<Key>, limit: nat)
    ensures
      var batch := Pick(cursor, keys, limit);
      && |batch| == (if |keys| <= limit then |keys| else limit)
      && (forall i :: 0 <= i < |batch| ==> batch[i] in keys)
      && (forall i, j :: 0 <= i < j < |batch| ==> Earlier(cursor, batch[i], batch[j]) && batch[i] != batch[j])
      && (forall i, k :: 0 <= i < |batch| && k in keys && k !in batch ==> Earlier(cursor, batch[i], k))
    decreases limit
  {
    if limit > 0 && keys != {} {
      var m := Earliest(cursor, keys);
      PickFacts(cursor, keys - {m}, limit - 1);
    }
  }

  /** A batch in plain order: ascending above the cursor, then ascending up to it; live entries only, with
      nothing left out that comes before the last one; and the cursor moves to its last key. */
  lemma BatchRotates(l: Ledger, limit: nat)
    ensures
      var batch := Batch(l, limit);
      && (forall i :: 0 <= i < |batch| ==> batch[i] in l.entries && !l.entries[batch[i]].state.Completed? && !l.entries[batch[i]].state.Failed?)
      && (l.cursor.None? ==> forall i, j :: 0 <= i < j < |batch| ==> batch[i] < batch[j])
      && (l.cursor.Some? ==> forall i, j :: 0 <= i < j < |batch| ==>
            if batch[i] > l.cursor.value then batch[j] <= l.cursor.value || batch[i] < batch[j]
            else batch[i] < batch[j] <= l.cursor.value)
      && NextCursor(l, limit) == (if batch == [] then l.cursor else Some(batch[|batch| - 1]))
      && (|batch| < limit ==> forall k :: k in l.entries && k !in batch ==> l.entries[k].state.Completed? || l.entries[k].state.Failed?)
  {
    hide Pick;
    PickFacts(l.cursor, Live(l), limit);
    var batch := Batch(l, limit);
    if |batch| < limit {
      forall k | k in Live(l) ensures k in batch {
        if k !in batch {
          FullBatch(l, limit, k);
          assert false;
        }
      }
    }
  }

  /** Live keys that come before `k` in rotation order. */
  function Ahead(l: Ledger, k: Key): set<Key> {
    set j | j in Live(l) && Earlier(l.cursor, j, k)
  }

  function NextCursor(l: Ledger, limit: nat): Option<Key> {
    var batch := Batch(l, limit);
    if batch == [] then l.cursor else Some(batch[|batch| - 1])
  }

  /** Between two calls: the cursor is where the first call left it; entries may only become terminal. */
  ghost predicate NextCall(l: Ledger, l': Ledger, limit: nat) {
    && Live(l') <= Live(l)
    && l'.cursor == NextCursor(l, limit)
  }

  lemma EarlierFrom(c: Option<Key>, m: Key, j: Key, k: Key)
    requires Earlier(c, m, k) && Earlier(Some(m), j, k)
    ensures Earlier(c, j, k) && Earlier(c, m, j)
  {}

  /** A batch that leaves a live key out is full, and its keys come before that key. */
  lemma FullBatch(l: Ledger, limit: nat, k: Key)
    requires k in Live(l) && k !in Batch(l, limit)
    ensures
      var batch := Batch(l, limit);
      var chosen := set i | 0 <= i < |batch| :: batch[i];
      && |batch| == limit == |chosen| && chosen <= Ahead(l, k)
  {
    hide Pick, Earlier;
    var batch := Batch(l, limit);
    PickFacts(l.cursor, Live(l), limit);
    var chosen := set i | 0 <= i < |batch| :: batch[i];
    DistinctSize(batch);
    if |Live(l)| <= limit {
      SubsetEqual(chosen, Live(l));
      assert false;
    }
  }

  /** What is ahead of a left-out key at the next call was ahead of it before, and was not chosen. */
  lemma AheadStays(l: Ledger, l': Ledger, limit: nat, k: Key, j: Key)
    requires NextCall(l, l', limit) && k in Live(l) && k !in Batch(l, limit) && j in Ahead(l', k)
    ensures j in Ahead(l, k) && j !in Batch(l, limit)
  {
    hide Pick, Live;
    var batch := Batch(l, limit);
    PickFacts(l.cursor, Live(l), limit);
    if batch != [] {
      var m := batch[|batch| - 1];
      EarlierFrom(l.cursor, m, j, k);
    }
  }

  /** A live key left out of a batch has at least `limit` fewer keys ahead of it at the next call. */
  lemma AheadShrinks(l: Ledger, l': Ledger, limit: nat, k: Key)
    requires NextCall(l, l', limit) && k in Live(l) && k !in Batch(l, limit)
    ensures |Ahead(l', k)| + limit <= |Ahead(l, k)|
  {
    hide *;
    var batch := Batch(l, limit);
    var chosen := set i | 0 <= i < |batch| :: batch[i];
    FullBatch(l, limit, k);
    forall j | j in Ahead(l', k) ensures j in Ahead(l, k) && j !in chosen {
      AheadStays(l, l', limit, k, j);
    }
    assert chosen !! Ahead(l', k);
    SubsetSize(chosen + Ahead(l', k), Ahead(l, k));
  }

  lemma {:induction false} DistinctSize(s: seq<Key>)
    requires forall i, j :: 0 <= i < j < |s| ==> s[i] != s[j]
    ensures |set i | 0 <= i < |s| :: s[i]| == |s|
  {
    if s != [] {
      var t := s[..|s| - 1];
      DistinctSize(t);
      assert (set i | 0 <= i < |s| :: s[i]) == (set i | 0 <= i < |t| :: t[i]) + {s[|s| - 1]};
    }
  }

  lemma SubsetEqual(a: set<Key>, b: set<Key>)
    requires a <= b && |a| >= |b|
    ensures a == b
  {
    if exists x :: x in b && x !in a {
      var x :| x in b && x !in a;
      SubsetSize(a + {x}, b);
    }
  }

  /** Every entry that stays live is selected within ceil(n / limit) calls, n the live entries at the first. */
  lemma {:induction false} Fair(run: seq<Ledger>, limit: nat, k: Key)
    requires run != [] && |run| * limit >= |Live(run[0])|
    requires forall i :: 0 <= i < |run| ==> k in Live(run[i])
    requires forall i :: 0 <= i < |run| - 1 ==> NextCall(run[i], run[i + 1], limit)
    ensures exists i :: 0 <= i < |run| && k in Batch(run[i], limit)
  {
    if forall i :: 0 <= i < |run| ==> k !in Batch(run[i], limit) {
      var last := |run| - 1;
      assert last * limit + limit == |run| * limit;
      LeftOut(run, limit, k, last);
      AheadShrinks(run[last], run[last].(cursor := NextCursor(run[last], limit)), limit, k);
      assert Ahead(run[0], k) <= Live(run[0]) - {k};
      SubsetSize(Ahead(run[0], k), Live(run[0]) - {k});
    }
  }

  lemma {:induction false} LeftOut(run: seq<Ledger>, limit: nat, k: Key, n: nat)
    requires n < |run|
    requires forall i :: 0 <= i < |run| ==> k in Live(run[i]) && k !in Batch(run[i], limit)
    requires forall i :: 0 <= i < |run| - 1 ==> NextCall(run[i], run[i + 1], limit)
    ensures |Ahead(run[n], k)| + n * limit <= |Ahead(run[0], k)|
  {
    if n > 0 {
      LeftOut(run, limit, k, n - 1);
      AheadShrinks(run[n - 1], run[n - 1 + 1], limit, k);
      assert n * limit == (n - 1) * limit + limit;
    }
  }

  // ---- The rotation as the ledger map is iterated: ascending keys, split at the cursor ----

  /** Keys in map order. */
  function Ascending(keys: set<Key>): seq<Key> {
    if keys == {} then []
    else
      var m := Least(keys);
      [m] + Ascending(keys - {m})
  }

  function Side(sorted: seq<Key>, cursor: Option<Key>, after: bool): seq<Key> {
    if sorted == [] then []
    else (if AfterCursor(cursor, sorted[0]) == after then [sorted[0]] else []) + Side(sorted[1..], cursor, after)
  }

  function Rest(s: seq<Key>, i: nat): set<Key>
    requires i <= |s|
  {
    set n | i <= n < |s| :: s[n]
  }

  lemma {:induction false} AscendingFacts(keys: set<Key>)
    ensures forall k :: k in Ascending(keys) <==> k in keys
    ensures Increasing(Ascending(keys))
  {
    if keys != {} {
      var m := Least(keys);
      var tail := Ascending(keys - {m});
      AscendingFacts(keys - {m});
      assert forall k :: k in [m] + tail <==> k == m || k in tail;
      forall i, j | 0 <= i < j < |[m] + tail| ensures ([m] + tail)[i] < ([m] + tail)[j] {
        assert tail[j - 1] in tail;
      }
    }
  }

  /** A sequence in rotation order, without repeats. */
  ghost predicate Rotates(cursor: Option<Key>, s: seq<Key>) {
    forall i, j :: 0 <= i < j < |s| ==> s[i] != s[j] && Earlier(cursor, s[i], s[j])
  }

  ghost predicate Increasing(s: seq<Key>) {
    forall i, j :: 0 <= i < j < |s| ==> s[i] < s[j]
  }

  lemma {:induction false} SideMember(sorted: seq<Key>, cursor: Option<Key>, after: bool, k: Key)
    ensures k in Side(sorted, cursor, after) <==> k in sorted && AfterCursor(cursor, k) == after
  {
    if sorted != [] {
      hide AfterCursor;
      SideMember(sorted[1..], cursor, after, k);
      assert k in sorted <==> k == sorted[0] || k in sorted[1..];
    }
  }

  lemma {:induction false} SideIncreasing(sorted: seq<Key>, cursor: Option<Key>, after: bool)
    requires Increasing(sorted)
    ensures Increasing(Side(sorted, cursor, after))
  {
    if sorted != [] {
      hide AfterCursor;
      var tail := Side(sorted[1..], cursor, after);
      SideIncreasing(sorted[1..], cursor, after);
      forall n | 0 <= n < |tail| ensures sorted[0] < tail[n] {
        SideMember(sorted[1..], cursor, after, tail[n]);
      }
    }
  }

  lemma RotationOrder(sorted: seq<Key>, cursor: Option<Key>)
    requires Increasing(sorted)
    ensures Rotates(cursor, Side(sorted, cursor, true) + Side(sorted, cursor, false))
  {
    hide Side, AfterCursor;
    SideIncreasing(sorted, cursor, true);
    SideIncreasing(sorted, cursor, false);
    var a, b := Side(sorted, cursor, true), Side(sorted, cursor, false);
    forall n | 0 <= n < |a| ensures AfterCursor(cursor, a[n]) {
      SideMember(sorted, cursor, true, a[n]);
    }
    forall n | 0 <= n < |b| ensures !AfterCursor(cursor, b[n]) {
      SideMember(sorted, cursor, false, b[n]);
    }
  }

  lemma RotationMember(sorted: seq<Key>, cursor: Option<Key>, k: Key)
    ensures k in Side(sorted, cursor, true) + Side(sorted, cursor, false) <==> k in sorted
  {
    SideMember(sorted, cursor, true, k);
    SideMember(sorted, cursor, false, k);
  }

  /** The next key of the rotation is the next pick when it is live, and changes nothing otherwise. */
  lemma RestStep(rotated: seq<Key>, i: nat, cursor: Option<Key>, live: set<Key>, limit: nat)
    requires i < |rotated| && limit > 0 && Rotates(cursor, rotated)
    ensures
      var now, next := Rest(rotated, i) * live, Rest(rotated, i + 1) * live;
      if rotated[i] in live then Pick(cursor, now, limit) == [rotated[i]] + Pick(cursor, next, limit - 1)
      else now == next
  {
    hide Earlier;
    var now, next := Rest(rotated, i) * live, Rest(rotated, i + 1) * live;
    assert Rest(rotated, i) == Rest(rotated, i + 1) + {rotated[i]};
    if rotated[i] in live {
      assert now == next + {rotated[i]};
      assert rotated[i] !in Rest(rotated, i + 1);
      assert IsEarliest(cursor, now, rotated[i]);
      EarliestUnique(cursor, now, rotated[i], Earliest(cursor, now));
      assert now - {rotated[i]} == next;
    }
  }

  lemma EarliestUnique(cursor: Option<Key>, keys: set<Key>, m: Key, n: Key)
    requires IsEarliest(cursor, keys, m) && IsEarliest(cursor, keys, n)
    ensures m == n
  {
    assert m == n || (Earlier(cursor, m, n) && Earlier(cursor, n, m));
  }

  lemma LiveKey(l: Ledger, k: Key)
    requires k in l.entries
    ensures k in Live(l) <==> !Terminal(l.entries[k].state)
  {}

  /** The whole rotation holds every live key. */
  lemma RestAll(rotated: seq<Key>, l: Ledger)
    requires forall k :: k in l.entries ==> k in rotated
    ensures Rest(rotated, 0) * Live(l) == Live(l)
  {
    forall k | k in Live(l) ensures k in Rest(rotated, 0) {
      var n :| 0 <= n < |rotated| && rotated[n] == k;
    }
  }

  /** The keys of the map in rotation order. */
  function Rotation(l: Ledger): seq<Key> {
    var sorted := Ascending(l.entries.Keys);
    Side(sorted, l.cursor, true) + Side(sorted, l.cursor, false)
  }

  lemma RotationFacts(l: Ledger)
    ensures Rotates(l.cursor, Rotation(l))
    ensures forall i :: 0 <= i < |Rotation(l)| ==> Rotation(l)[i] in l.entries
    ensures Rest(Rotation(l), 0) * Live(l) == Live(l)
  {
    hide Side, Ascending, Rotates, Live;
    var sorted := Ascending(l.entries.Keys);
    var rotated := Rotation(l);
    AscendingFacts(l.entries.Keys);
    RotationOrder(sorted, l.cursor);
    forall k ensures k in rotated <==> k in l.entries {
      RotationMember(sorted, l.cursor, k);
    }
    RestAll(rotated, l);
  }

  lemma PickNone(cursor: Option<Key>, keys: set<Key>, limit: nat)
    ensures limit == 0 || keys == {} ==> Pick(cursor, keys, limit) == []
  {}

  lemma LastKnown(l: Ledger, limit: nat)
    ensures forall k :: k in Batch(l, limit) ==> k in l.entries
  {
    hide Pick;
    PickFacts(l.cursor, Live(l), limit);
  }

  method Select(l: Ledger, limit: nat) returns (batch: seq<(Key, Entry)>)
    ensures |batch| == |Batch(l, limit)|
    ensures forall n :: 0 <= n < |batch| ==>
      && batch[n].0 == Batch(l, limit)[n]
      && batch[n].0 in l.entries && batch[n].1 == l.entries[batch[n].0]
  {
    hide Pick, Rotates, Rest, Live, Terminal, Rotation;
    var rotated := Rotation(l);
    RotationFacts(l);
    batch := [];
    ghost var keys: seq<Key> := [];
    var i := 0;
    while i < |rotated| && |batch| < limit
      invariant 0 <= i <= |rotated| && |batch| == |keys| <= limit
      invariant keys + Pick(l.cursor, Rest(rotated, i) * Live(l), limit - |keys|) == Batch(l, limit)
      invariant forall n :: 0 <= n < |batch| ==> batch[n].0 == keys[n] && keys[n] in l.entries && batch[n].1 == l.entries[keys[n]]
    {
      var key := rotated[i];
      RestStep(rotated, i, l.cursor, Live(l), limit - |keys|);
      LiveKey(l, key);
      if !Terminal(l.entries[key].state) {
        batch := batch + [(key, l.entries[key])];
        keys := keys + [key];
      }
      i := i + 1;
    }
    assert i == |rotated| ==> Rest(rotated, i) * Live(l) == {} by { RestEmpty(rotated); }
    PickNone(l.cursor, Rest(rotated, i) * Live(l), limit - |keys|);
    assert keys == Batch(l, limit);
  }

  lemma RestEmpty(s: seq<Key>)
    ensures Rest(s, |s|) == {}
  {}

  // ---- The outbox ----

  /** What the files hold ends a sound trail, within the capacity. */
  ghost predicate Sound(disk: Durable, trail: seq<Durable>, capacity: nat, hash: Identity -> Key) {
    trail != [] && trail[|trail| - 1] == disk && Trail(trail, hash) && |disk.ledger.entries| <= capacity
  }

  class Outbox {
    const capacity: nat
    const hash: Identity -> Key
    /** The ledger in memory, and what the files hold. */
    var ledger: Ledger
    var disk: Durable
    ghost var trail: seq<Durable>

    ghost predicate Valid()
      reads this
    {
      ledger == disk.ledger && Sound(disk, trail, capacity, hash)
    }

    /** The invariant that `open` checks holds after every operation. */
    lemma StillOpens()
      requires Valid()
      ensures LedgerOk(ledger, capacity, hash)
    {
      DiskOk();
    }

    lemma DiskOk()
      requires Valid()
      ensures DurableOk(disk, hash)
    {}

    constructor (capacity: nat, hash: Identity -> Key, disk: Durable, ghost trail: seq<Durable>)
      requires Trail(trail, hash) && trail != [] && trail[|trail| - 1] == disk && |disk.ledger.entries| <= capacity
      ensures Valid() && this.disk == disk && this.trail == trail && this.capacity == capacity && this.hash == hash
    {
      hide Trail;
      this.capacity, this.hash, this.disk, this.trail := capacity, hash, disk, trail;
      this.ledger := disk.ledger;
    }

    /** Replace `outbox.json` atomically; memory follows only when that succeeded. */
    method Commit(next: Ledger, io: bool) returns (ok: bool)
      requires Valid()
      requires DurableOk(disk.(ledger := next), hash) && Keeps(disk, disk.(ledger := next)) && |next.entries| <= capacity
      modifies this
      ensures Valid() && ok == io
      ensures disk == (if io then old(disk).(ledger := next) else old(disk))
      ensures trail == (if io then old(trail) + [disk] else old(trail))
    {
      hide DurableOk, Keeps, Trail;
      if !io {
        return false;
      }
      TrailExtends(trail, disk.(ledger := next), hash);
      disk := disk.(ledger := next);
      trail := trail + [disk];
      ledger := next;
      return true;
    }

    /** Any single-entry transition; `io` says whether the write succeeds. */
    method Change(key: Key, action: Action, io: bool) returns (r: Outcome<()>)
      requires Valid()
      modifies this
      ensures Valid() && old(trail) <= trail
      ensures
        match Changed(old(ledger), key, action)
        case Err(e) => r == Err(e) && disk == old(disk)
        case Ok(l) => if io then r == Ok(()) && disk == old(disk).(ledger := l) else r == Err(Storage) && disk == old(disk)
    {
      hide Changed, DurableOk, Keeps, Trail;
      var next := Changed(ledger, key, action);
      if next.Err? {
        return Err(next.error);
      }
      DiskOk();
      ChangeKeeps(disk, key, action, hash);
      ChangeSize(ledger, key, action);
      var ok := Commit(next.value, io);
      r := if ok then Ok(()) else Err(Storage);
    }

    /** Record an identity once; known identities keep their state. `ioArchive` says whether the archive
        can be read. */
    method Observe(identity: Identity, ioArchive: bool, io: bool) returns (r: Outcome<Key>)
      requires Valid()
      modifies this
      ensures Valid() && old(trail) <= trail
      ensures r.Ok? ==> ValidIdentity(identity) && r.value == hash(identity) && Known(disk, r.value)
      ensures r.Ok? && Known(old(disk), r.value) ==> disk == old(disk)
      ensures r.Ok? && !Known(old(disk), r.value) ==>
        disk == old(disk).(ledger := old(ledger).(entries := old(ledger).entries[r.value := Entry(identity, Pending)]))
      ensures r.Err? ==> disk == old(disk)
      ensures r == Err(Invalid) <==> !ValidIdentity(identity)
      ensures ValidIdentity(identity) ==>
        var key := hash(identity);
        && (key in old(ledger).entries ==> r.Ok?)
        && (key !in old(ledger).entries && !ioArchive ==> r == Err(Storage))
        && (ioArchive && Known(old(disk), key) ==> r.Ok?)
        && (r == Err(Full) <==> ioArchive && !Known(old(disk), key) && |old(ledger).entries| >= capacity)
        && (r == Err(Storage) <==>
              key !in old(ledger).entries && (!ioArchive || (key !in old(disk).archive && |old(ledger).entries| < capacity && !io)))
    {
      hide ValidIdentity, DurableOk, Keeps, Trail;
      if !ValidIdentity(identity) {
        return Err(Invalid);
      }
      var key := hash(identity);
      if key in ledger.entries {
        return Ok(key);
      }
      if !ioArchive {
        return Err(Storage);
      }
      if key in disk.archive {
        return Ok(key);
      }
      if |ledger.entries| >= capacity {
        return Err(Full);
      }
      DiskOk();
      ObserveKeeps(disk, identity, hash);
      ObserveSize(ledger, key, Entry(identity, Pending));
      var ok := Commit(ledger.(entries := ledger.entries[key := Entry(identity, Pending)]), io);
      r := if ok then Ok(key) else Err(Storage);
    }

    /** Rotate over the nonterminal entries; the selection is durable before it is returned. */
    method NextBatch(limit: nat, io: bool) returns (r: Outcome<seq<(Key, Entry)>>)
      requires Valid()
      modifies this
      ensures Valid() && old(trail) <= trail
      ensures r == Err(Invalid) <==> !(1 <= limit <= 256)
      ensures r.Err? ==> disk == old(disk)
      ensures r == Err(Storage) <==> 1 <= limit <= 256 && Batch(old(ledger), limit) != [] && !io
      ensures r.Ok? ==>
        && disk == old(disk).(ledger := old(ledger).(cursor := NextCursor(old(ledger), limit)))
        && |r.value| == |Batch(old(ledger), limit)|
        && forall i :: 0 <= i < |r.value| ==>
             && r.value[i].0 == Batch(old(ledger), limit)[i]
             && r.value[i].0 in old(ledger).entries && r.value[i].1 == old(ledger).entries[r.value[i].0]
    {
      hide DurableOk, Keeps, Trail, Pick, Live;
      if !(1 <= limit <= 256) {
        return Err(Invalid);
      }
      var batch := Select(ledger, limit);
      LastKnown(ledger, limit);
      if batch != [] {
        DiskOk();
        CursorKeeps(disk, batch[|batch| - 1].0, hash);
        var ok := Commit(ledger.(cursor := Some(batch[|batch| - 1].0)), io);
        if !ok {
          return Err(Storage);
        }
      }
      r := Ok(batch);
    }

    /** Write the archive copy, then let the ledger forget the entry; reading the archive and each write
        may fail. */
    method ArchiveCompleted(key: Key, job: string, ioRead: bool, ioArchive: bool, ioLedger: bool) returns (r: Outcome<Entry>)
      requires Valid()
      modifies this
      ensures Valid() && old(trail) <= trail
      ensures r.Ok? ==>
        && r.value.state.Completed? && r.value.state.job == job
        && disk.archive == old(disk).archive[key := r.value]
        && disk.ledger.entries == old(ledger).entries - {key}
        && disk.ledger.cursor == (if old(ledger).cursor == Some(key) then None else old(ledger).cursor)
      ensures r == Err(Invalid) ==> disk == old(disk)
      ensures r == Err(Invalid) <==> !IsUuid(job) || (ioRead && !CompletedAs(old(disk), key, job))
      ensures IsUuid(job) && !ioRead ==> r == Err(Storage) && disk == old(disk)
      ensures r.Err? ==>
        || disk == old(disk)
        || (key in old(ledger).entries && disk == old(disk).(archive := old(disk).archive[key := old(ledger).entries[key]]))
    {
      hide DurableOk, Keeps, Trail, IsUuid;
      if !IsUuid(job) {
        return Err(Invalid);
      }
      if !ioRead {
        return Err(Storage);
      }
      DiskOk();
      Copies(disk, key, hash);
      var archived := if key in disk.archive then Some(disk.archive[key]) else None;
      if key !in ledger.entries && archived.None? {
        return Err(Invalid);
      }
      var entry := if key in ledger.entries then ledger.entries[key] else archived.value;
      if !(entry.state.Completed? && entry.state.job == job) {
        return Err(Invalid);
      }
      if archived.Some? && archived.value != entry {
        return Err(Storage);
      }
      if archived.None? {
        if !ioArchive {
          return Err(Storage);
        }
        ArchiveKeeps(disk, key, hash);
        TrailExtends(trail, disk.(archive := disk.archive[key := entry]), hash);
        disk := disk.(archive := disk.archive[key := entry]);
        trail := trail + [disk];
      }
      if key in ledger.entries {
        DiskOk();
        ForgetKeeps(disk, key, hash);
        ForgetSize(ledger, key);
        var ok := Commit(Forgotten(ledger, key), ioLedger);
        if !ok {
          return Err(Storage);
        }
      }
      return Ok(entry);
    }
  }

  /** Open a directory: whatever ledger it holds is checked, then written back. The archive is read only
      later, entry by entry. `trail` has the durable states of earlier processes, if any are known. */
  method Open(capacity: nat, hash: Identity -> Key, disk: Durable, io: bool, ghost trail: seq<Durable>)
    returns (r: Outcome<Outbox>)
    requires ArchiveOk(disk, hash)
    requires trail != [] ==> Trail(trail, hash) && trail[|trail| - 1] == disk
    ensures r == Err(Invalid) <==> !(1 <= capacity <= 100_000)
    ensures r == Err(Storage) <==> 1 <= capacity <= 100_000 && (!LedgerOk(disk.ledger, capacity, hash) || !io)
    ensures r.Ok? ==>
      && fresh(r.value) && r.value.Valid() && r.value.disk == disk && trail + [disk] <= r.value.trail
      && r.value.capacity == capacity && r.value.hash == hash
  {
    hide EntriesOk, ArchiveOk, Keeps, Trail;
    if !(1 <= capacity <= 100_000) {
      return Err(Invalid);
    }
    if !LedgerOk(disk.ledger, capacity, hash) {
      return Err(Storage);
    }
    FirstTrail(disk, hash);
    var outbox := new Outbox(capacity, hash, disk, if trail == [] then [disk] else trail);
    KeepsRefl(disk);
    var ok := outbox.Commit(disk.ledger, io);
    r := if ok then Ok(outbox) else Err(Storage);
  }

  lemma FirstTrail(disk: Durable, hash: Identity -> Key)
    requires DurableOk(disk, hash)
    ensures Trail([disk], hash)
  {
    hide DurableOk, Keeps;
  }

  lemma ChangeSize(l: Ledger, key: Key, a: Action)
    requires Changed(l, key, a).Ok?
    ensures |Changed(l, key, a).value.entries| == |l.entries|
  {
    hide Transition;
    assert Changed(l, key, a).value.entries.Keys == l.entries.Keys;
  }

  lemma ObserveSize(l: Ledger, key: Key, e: Entry)
    ensures |l.entries[key := e]| <= |l.entries| + 1
  {
    assert l.entries[key := e].Keys == l.entries.Keys + {key};
  }

  lemma ForgetSize(l: Ledger, key: Key)
    ensures |Forgotten(l, key).entries| <= |l.entries|
  {
    assert Forgotten(l, key).entries.Keys == l.entries.Keys - {key};
  }

  lemma KeepsRefl(d: Durable)
    ensures Keeps(d, d)
  {}

  lemma Copies(d: Durable, key: Key, hash: Identity -> Key)
    requires DurableOk(d, hash)
    ensures key in d.archive ==> d.archive[key].state.Completed?
    ensures key in d.archive && key in d.ledger.entries ==> d.ledger.entries[key] == d.archive[key]
    ensures key !in d.ledger.entries ==> Forgotten(d.ledger, key) == d.ledger
  {}
}
