/** Reports of many calls, interleaved with the attempts that decide who is to blame. Recording an
    attempt sweeps the pool in the same step; a report reads the charge, lands, and settles. */
module ChargeSettlement {
  import opened Common
  import opened PathHealth
  import opened AccountCharges

  datatype Report = Report(account: Account, signal: Signal, charge: Charge, landed: bool)

  /** `history` and `books` record what happened; the rest is the program's state. */
  datatype World = World(
    path: State,
    health: map<Account, Health>,
    pending: map<nat, Report>,
    history: History,
    books: map<Account, Books>
  )

  datatype Label =
    | Attempted(attempt: Attempt)
    | Charged(id: nat, account: Account, signal: Signal)
    | Landed(id: nat, now: nat)
    | Settled(id: nat)

  predicate InStreak(r: Report) {
    r.charge.ToAccount? && r.charge.streak.Some?
  }

  function Swept(health: map<Account, Health>, pool: PoolPolicy, streak: Option<nat>): map<Account, Health> {
    if streak.None? then health
    else map name | name in health :: Revoked(health[name], pool, streak.value)
  }

  function AllBooksSwept(books: map<Account, Books>, streak: Option<nat>): map<Account, Books> {
    if streak.None? then books
    else map name | name in books :: BooksSwept(books[name], streak.value)
  }

  /** The settlement of a landed report. */
  ghost function Settlement(p: Policy, pool: PoolPolicy, w: World, r: Report): World
    requires r.account in w.health && r.account in w.books && InStreak(r)
  {
    var h, e := w.health[r.account], r.charge.streak.value;
    if w.path.lastAttributed == e then w.(health := w.health[r.account := Revoked(h, pool, e)])
    else if e in SharedStreaks(p, w.history) && h.pathStreak == e then
      w.(books := w.books[r.account := BooksPassed(w.books[r.account], h)])
    else w
  }

  ghost function Step(p: Policy, pool: PoolPolicy, w: World, l: Label): World {
    match l
    case Attempted(a) =>
      var blamed := Blamed(p, w.path, a);
      w.(path := After(p, w.path, a), history := w.history + [a],
         health := Swept(w.health, pool, blamed), books := AllBooksSwept(w.books, blamed))
    case Charged(id, name, signal) =>
      if id in w.pending || name !in w.health then w
      else w.(pending := w.pending[id := Report(name, signal, ChargeOf(w.path), false)])
    case Landed(id, now) =>
      if id !in w.pending || w.pending[id].landed || w.pending[id].account !in w.health || w.pending[id].account !in w.books then w
      else
        var r := w.pending[id];
        var h, b := w.health[r.account], w.books[r.account];
        w.(health := w.health[r.account := Reported(h, pool, r.signal, r.charge, now)],
           books := w.books[r.account := BooksLanded(b, h, r.signal, r.charge, SharedStreaks(p, w.history))],
           pending := w.pending[id := r.(landed := true)])
    case Settled(id) =>
      if id !in w.pending || !w.pending[id].landed || w.pending[id].account !in w.health || w.pending[id].account !in w.books then w
      else
        var r := w.pending[id];
        (if InStreak(r) then Settlement(p, pool, w, r) else w).(pending := w.pending - {id})
  }

  ghost function Run(p: Policy, pool: PoolPolicy, w: World, labels: seq<Label>): World {
    if labels == [] then w else Step(p, pool, Run(p, pool, w, labels[..|labels| - 1]), labels[|labels| - 1])
  }

  // ---- The invariant of every run ----

  predicate Owes(r: Report, name: Account, streak: nat) {
    r.landed && r.account == name && r.charge == ToAccount(Some(streak))
  }

  ghost predicate Owed(w: World, name: Account)
    requires name in w.health
  {
    exists id :: id in w.pending && Owes(w.pending[id], name, w.health[name].pathStreak)
  }

  ghost predicate AccountOk(p: Policy, pool: PoolPolicy, w: World, name: Account)
    requires name in w.health
  {
    && name in w.books
    && ThresholdOk(w.health[name], pool)
    && Agrees(w.health[name], w.books[name], SharedStreaks(p, w.history), w.path.lastAttributed, Owed(w, name))
  }

  ghost predicate ReportOk(w: World, r: Report) {
    r.account in w.health && (InStreak(r) ==> r.charge.streak.value >= 1)
  }

  ghost predicate Inv(p: Policy, pool: PoolPolicy, w: World) {
    && Explains(p, w.history, w.path)
    && (forall name :: name in w.health ==> AccountOk(p, pool, w, name))
    && (forall id :: id in w.pending ==> ReportOk(w, w.pending[id]))
  }

  ghost predicate PoliciesOk(p: Policy, pool: PoolPolicy) {
    PolicyOk(p) && 1 <= pool.threshold <= 100
  }

  /** What an attempt does to the set of shared streaks. */
  lemma Blames(p: Policy, w: World, a: Attempt)
    requires PolicyOk(p) && Explains(p, w.history, w.path)
    ensures
      var s' := After(p, w.path, a);
      var before, after := SharedStreaks(p, w.history), SharedStreaks(p, w.history + [a]);
      && Explains(p, w.history + [a], s')
      && (if Blamed(p, w.path, a).Some?
          then Blamed(p, w.path, a) == Some(s'.epoch) && s'.lastAttributed == s'.epoch
               && s'.epoch !in before && after == before + {s'.epoch}
          else after == before && s'.lastAttributed == w.path.lastAttributed)
      && w.path.epoch <= s'.epoch
      && (s'.epoch != w.path.epoch ==> a.fault && w.path.failures == 0)
  {
    hide Shared, Trailing, Streaks, LastShared, SharedStreaks;
    var h := w.history;
    TrailingSnoc(h, a);
    SharedStreaksSnoc(p, h, a);
    SharedPast(p, h);
    EmptyNotShared(p);
    if a.fault {
      FaultExplained(p, h, w.path, a);
      if Trailing(h) != [] {
        SharedCurrent(p, h);
      }
    } else {
      HealthyExplained(p, h, w.path, a);
    }
  }

  lemma OwedMore(h: Health, b: Books, shared: set<nat>, last: nat, owed: bool, owed': bool)
    requires Agrees(h, b, shared, last, owed) && (owed ==> owed')
    ensures Agrees(h, b, shared, last, owed')
  {
    hide Balanced;
  }

  lemma RevokedFacts(h: Health, pool: PoolPolicy, streak: nat)
    ensures Revoked(h, pool, streak).pathStreak == h.pathStreak
  {}

  lemma AttemptKeeps(p: Policy, pool: PoolPolicy, w: World, a: Attempt)
    requires PoliciesOk(p, pool) && Inv(p, pool, w)
    ensures Inv(p, pool, Step(p, pool, w, Attempted(a)))
  {
    hide Agrees, Explains, SharedStreaks, After, Revoked, ThresholdOk, Blamed, BooksSwept;
    var w' := Step(p, pool, w, Attempted(a));
    var blamed := Blamed(p, w.path, a);
    Blames(p, w, a);
    forall name | name in w'.health ensures AccountOk(p, pool, w', name) {
      assert AccountOk(p, pool, w, name);
      assert w'.health[name] == if blamed.Some? then Revoked(w.health[name], pool, blamed.value) else w.health[name];
      if blamed.Some? {
        RevokedFacts(w.health[name], pool, blamed.value);
        ThresholdKept(w.health[name], pool, Nothing, ToPath, 0, blamed.value);
        Sweeps(w.health[name], pool, w.books[name], SharedStreaks(p, w.history), w.path.lastAttributed, Owed(w, name), blamed.value);
      }
      assert Owed(w', name) == Owed(w, name);
    }
  }

  lemma ChargeKeeps(p: Policy, pool: PoolPolicy, w: World, id: nat, name: Account, signal: Signal)
    requires PoliciesOk(p, pool) && Inv(p, pool, w)
    ensures Inv(p, pool, Step(p, pool, w, Charged(id, name, signal)))
  {
    hide Agrees, SharedStreaks, ThresholdOk, LastShared, Shared, Streaks, Trailing;
    var w' := Step(p, pool, w, Charged(id, name, signal));
    SharedPast(p, w.history);
    forall other | other in w'.health ensures AccountOk(p, pool, w', other) {
      assert AccountOk(p, pool, w, other);
      StillOwed(w, w', id, other);
      OwedMore(w.health[other], w.books[other], SharedStreaks(p, w.history), w.path.lastAttributed, Owed(w, other), Owed(w', other));
    }
  }

  /** Reports other than `id` still owe what they owed. */
  lemma StillOwed(w: World, w': World, id: nat, name: Account)
    requires name in w.health && name in w'.health && w'.health[name].pathStreak == w.health[name].pathStreak
    requires forall i :: i in w.pending && i != id ==> i in w'.pending && w'.pending[i] == w.pending[i]
    requires id in w.pending && Owes(w.pending[id], name, w.health[name].pathStreak) ==>
      id in w'.pending && w'.pending[id] == w.pending[id]
    ensures Owed(w, name) ==> Owed(w', name)
  {
    if Owed(w, name) {
      var i :| i in w.pending && Owes(w.pending[i], name, w.health[name].pathStreak);
      assert i in w'.pending && w'.pending[i] == w.pending[i];
    }
  }

  lemma LandKeeps(p: Policy, pool: PoolPolicy, w: World, id: nat, now: nat)
    requires PoliciesOk(p, pool) && Inv(p, pool, w)
    ensures Inv(p, pool, Step(p, pool, w, Landed(id, now)))
  {
    hide Agrees, SharedStreaks, ThresholdOk, Explains, Reported, BooksLanded;
    var w' := Step(p, pool, w, Landed(id, now));
    if w' != w {
      var r := w.pending[id];
      forall name | name in w'.health ensures AccountOk(p, pool, w', name) {
        assert AccountOk(p, pool, w, name);
        if name == r.account {
          LandsOn(p, pool, w, id, now);
        } else {
          StillOwed(w, w', id, name);
          OwedMore(w.health[name], w.books[name], SharedStreaks(p, w.history), w.path.lastAttributed, Owed(w, name), Owed(w', name));
        }
      }
      forall i | i in w'.pending ensures ReportOk(w', w'.pending[i]) {
        assert ReportOk(w, w.pending[i]);
      }
    }
  }

  lemma LandsOn(p: Policy, pool: PoolPolicy, w: World, id: nat, now: nat)
    requires PoliciesOk(p, pool) && Inv(p, pool, w) && id in w.pending && !w.pending[id].landed
    requires w.pending[id].account in w.health && w.pending[id].account in w.books
    ensures AccountOk(p, pool, Step(p, pool, w, Landed(id, now)), w.pending[id].account)
  {
    hide Agrees, SharedStreaks, ThresholdOk, Explains, Reported, BooksLanded;
    var w', r := Step(p, pool, w, Landed(id, now)), w.pending[id];
    var name, h, shared, last := r.account, w.health[r.account], SharedStreaks(p, w.history), w.path.lastAttributed;
    assert AccountOk(p, pool, w, name);
    Lands(h, pool, w.books[name], shared, last, Owed(w, name), r.signal, r.charge, now);
    ThresholdKept(h, pool, r.signal, r.charge, now, 0);
    if w'.health[name].pathStreak == h.pathStreak {
      StillOwed(w, w', id, name);
    }
    if r.charge == ToAccount(Some(w'.health[name].pathStreak)) {
      assert Owes(w'.pending[id], name, w'.health[name].pathStreak);
    }
    var owed := w'.health[name].pathStreak != h.pathStreak || Owed(w, name) || r.charge == ToAccount(Some(h.pathStreak));
    OwedMore(w'.health[name], w'.books[name], shared, last, owed, Owed(w', name));
  }

  lemma SettleKeeps(p: Policy, pool: PoolPolicy, w: World, id: nat)
    requires PoliciesOk(p, pool) && Inv(p, pool, w)
    ensures Inv(p, pool, Step(p, pool, w, Settled(id)))
  {
    hide Agrees, SharedStreaks, ThresholdOk, Explains, Revoked, BooksPassed;
    var w' := Step(p, pool, w, Settled(id));
    if w' != w {
      var r := w.pending[id];
      forall name | name in w'.health ensures AccountOk(p, pool, w', name) {
        assert AccountOk(p, pool, w, name);
        if name == r.account {
          SettlesOn(p, pool, w, id);
        } else {
          StillOwed(w, w', id, name);
          OwedMore(w.health[name], w.books[name], SharedStreaks(p, w.history), w.path.lastAttributed, Owed(w, name), Owed(w', name));
        }
      }
      forall i | i in w'.pending ensures ReportOk(w', w'.pending[i]) {
        assert ReportOk(w, w.pending[i]);
      }
    }
  }

  lemma SettlesOn(p: Policy, pool: PoolPolicy, w: World, id: nat)
    requires PoliciesOk(p, pool) && Inv(p, pool, w) && id in w.pending && w.pending[id].landed
    requires w.pending[id].account in w.health && w.pending[id].account in w.books
    ensures AccountOk(p, pool, Step(p, pool, w, Settled(id)), w.pending[id].account)
  {
    hide SharedStreaks, ThresholdOk, Revoked, LastShared, Shared, Streaks, Trailing, Balanced, BooksPassed;
    var w', r := Step(p, pool, w, Settled(id)), w.pending[id];
    var name, h, shared, last := r.account, w.health[r.account], SharedStreaks(p, w.history), w.path.lastAttributed;
    assert AccountOk(p, pool, w, name) && ReportOk(w, r);
    if InStreak(r) {
      var e := r.charge.streak.value;
      RevokedFacts(h, pool, e);
      ThresholdKept(h, pool, Nothing, ToPath, 0, e);
      if last == e {
        LastSharedIn(p, w.history);
        Withdraws(h, pool, w.books[name], shared, last, Owed(w, name));
      } else if e in shared && h.pathStreak == e {
        PassesOver(h, w.books[name], shared, last, Owed(w, name));
      }
      if h.pathStreak != e {
        StillOwed(w, w', id, name);
      }
    } else {
      StillOwed(w, w', id, name);
    }
  }

  lemma StepKeeps(p: Policy, pool: PoolPolicy, w: World, l: Label)
    requires PoliciesOk(p, pool) && Inv(p, pool, w)
    ensures Inv(p, pool, Step(p, pool, w, l))
  {
    hide Inv, Step;
    match l
    case Attempted(a) => AttemptKeeps(p, pool, w, a);
    case Charged(id, name, signal) => ChargeKeeps(p, pool, w, id, name, signal);
    case Landed(id, now) => LandKeeps(p, pool, w, id, now);
    case Settled(id) => SettleKeeps(p, pool, w, id);
  }

  lemma {:induction false} RunKeeps(p: Policy, pool: PoolPolicy, names: set<Account>, labels: seq<Label>)
    requires PoliciesOk(p, pool)
    ensures Inv(p, pool, Run(p, pool, Beginning(names), labels))
  {
    if labels == [] {
      BeginningOk(p, pool, names);
    } else {
      hide Inv, Step;
      RunKeeps(p, pool, names, labels[..|labels| - 1]);
      StepKeeps(p, pool, Run(p, pool, Beginning(names), labels[..|labels| - 1]), labels[|labels| - 1]);
    }
  }

  function Beginning(names: set<Account>): World {
    World(INITIAL, map name | name in names :: HEALTHY, map[], [], map name | name in names :: BLANK)
  }

  lemma BeginningOk(p: Policy, pool: PoolPolicy, names: set<Account>)
    requires PoliciesOk(p, pool)
    ensures Inv(p, pool, Beginning(names))
  {
    EmptyNotShared(p);
  }

  // ---- What every run adds up to ----

  /** The charges since the last success that belong to no shared streak. */
  ghost function Due(p: Policy, w: World, name: Account): nat
    requires name in w.books
  {
    Unshared(w.books[name].charges, SharedStreaks(p, w.history))
  }

  /** In every run, however reports and streaks interleave: once every report has settled, an account's
      failures are its charges since its last success that belong to no shared streak, plus the
      stranded ones; so the two agree exactly when nothing was stranded. At any time an account that is
      not disabled is cooling down exactly when it has reached the threshold. */
  lemma ChargesExact(p: Policy, pool: PoolPolicy, names: set<Account>, labels: seq<Label>, name: Account)
    requires PoliciesOk(p, pool)
    ensures
      var w := Run(p, pool, Beginning(names), labels);
      name in w.health ==>
        && name in w.books
        && ThresholdOk(w.health[name], pool)
        && (w.pending == map[] && |w.books[name].charges| <= U32_MAX ==>
              && w.health[name].failures == Due(p, w, name) + w.books[name].stranded
              && (w.health[name].failures == Due(p, w, name) <==> w.books[name].stranded == 0))
  {
    hide Step, SharedStreaks, Unshared, CountOf, Explains, ThresholdOk, Run;
    RunKeeps(p, pool, names, labels);
    var w := Run(p, pool, Beginning(names), labels);
    if name in w.health {
      assert AccountOk(p, pool, w, name);
    }
  }

  /** A report goes through: it is charged by the path as it stands, lands on its account, and settles; when
      nothing comes in between, the account is left with the report's effect, less the streak if that is the
      one last attributed, and the report is gone. */
  lemma ReportGoesThrough(p: Policy, pool: PoolPolicy, w: World, id: nat, name: Account, signal: Signal, now: nat)
    requires id !in w.pending && name in w.health && name in w.books
    ensures
      var w' := Step(p, pool, Step(p, pool, Step(p, pool, w, Charged(id, name, signal)), Landed(id, now)), Settled(id));
      var charge := ChargeOf(w.path);
      var landed := Reported(w.health[name], pool, signal, charge, now);
      && w'.pending == w.pending && w'.path == w.path && w'.history == w.history
      && name in w'.health && name in w'.books
      && w'.books[name].charges == Booked(w.books[name].charges, signal, charge)
      && w'.health == w.health[name :=
           if charge.ToAccount? && charge.streak.Some? && charge.streak.value == w.path.lastAttributed
           then Revoked(landed, pool, w.path.lastAttributed) else landed]
  {
    hide Reported, Revoked, SharedStreaks, ChargeOf;
    var w1 := Step(p, pool, w, Charged(id, name, signal));
    var w2 := Step(p, pool, w1, Landed(id, now));
    assert w2.pending - {id} == w.pending;
  }

  // ---- When nothing is stranded ----

  /** No new streak begins while a report still carries the number of the last one. */
  ghost predicate Calm(w: World, l: Label) {
    l.Attempted? && l.attempt.fault && w.path.failures == 0 ==>
      forall id :: id in w.pending ==> !InStreak(w.pending[id])
  }

  ghost predicate AllCalm(p: Policy, pool: PoolPolicy, w: World, labels: seq<Label>) {
    forall i :: 0 <= i < |labels| ==> Calm(Run(p, pool, w, labels[..i]), labels[i])
  }

  ghost predicate Tidy(epoch: nat, h: Health, b: Books) {
    && b.stranded == 0 && b.parked == 0 && h.pathStreak <= epoch
    && forall s: nat :: Loose(b, s) > 0 ==> s < h.pathStreak
  }

  ghost predicate Settling(w: World) {
    && (forall name :: name in w.health && name in w.books ==> Tidy(w.path.epoch, w.health[name], w.books[name]))
    && (forall id :: id in w.pending && InStreak(w.pending[id]) ==> w.pending[id].charge.streak.value == w.path.epoch)
  }

  lemma CalmSweep(p: Policy, pool: PoolPolicy, w: World, a: Attempt, name: Account)
    requires PolicyOk(p) && Explains(p, w.history, w.path) && name in w.health && name in w.books
    requires Tidy(w.path.epoch, w.health[name], w.books[name])
    ensures
      var w' := Step(p, pool, w, Attempted(a));
      name in w'.health && name in w'.books && Tidy(w'.path.epoch, w'.health[name], w'.books[name])
  {
    hide Explains, SharedStreaks, After, Revoked, Blamed;
    Blames(p, w, a);
    var blamed := Blamed(p, w.path, a);
    if blamed.Some? {
      RevokedFacts(w.health[name], pool, blamed.value);
      assert Loose(w.books[name], blamed.value) == 0;
    }
  }

  lemma CalmAttempt(p: Policy, pool: PoolPolicy, w: World, a: Attempt)
    requires PoliciesOk(p, pool) && Inv(p, pool, w) && Settling(w) && Calm(w, Attempted(a))
    ensures Settling(Step(p, pool, w, Attempted(a)))
  {
    hide Explains, SharedStreaks, After, Revoked, Blamed, Tidy;
    var w' := Step(p, pool, w, Attempted(a));
    Blames(p, w, a);
    forall name | name in w'.health && name in w'.books ensures Tidy(w'.path.epoch, w'.health[name], w'.books[name]) {
      assert Tidy(w.path.epoch, w.health[name], w.books[name]);
      CalmSweep(p, pool, w, a, name);
    }
  }

  lemma TidyLands(epoch: nat, h: Health, b: Books, pool: PoolPolicy, signal: Signal, charge: Charge, shared: set<nat>, now: nat)
    requires Tidy(epoch, h, b) && (charge.ToAccount? && charge.streak.Some? ==> charge.streak.value == epoch)
    requires h.pathStreak != epoch && h.pathStreak in shared ==> Unparked(h, b) == 0
    ensures Tidy(epoch, Reported(h, pool, signal, charge, now), BooksLanded(b, h, signal, charge, shared))
  {
    hide Transient;
    StreakOf(h, pool, None, now);
    if charge.ToAccount? {
      StreakOf(h, pool, charge.streak, now);
    }
    var b' := BooksLanded(b, h, signal, charge, shared);
    forall s: nat | Loose(b', s) > 0 ensures Loose(b, s) > 0 || (s == h.pathStreak && b'.loose != b.loose) {
      assert s != h.pathStreak ==> Loose(b', s) == Loose(b, s) || b' == BLANK;
    }
  }

  lemma CalmLand(p: Policy, pool: PoolPolicy, w: World, id: nat, now: nat)
    requires PoliciesOk(p, pool) && Inv(p, pool, w) && Settling(w)
    ensures Settling(Step(p, pool, w, Landed(id, now)))
  {
    hide Explains, SharedStreaks, Tidy, Reported, BooksLanded, AccountOk;
    var w' := Step(p, pool, w, Landed(id, now));
    if w' != w {
      var r := w.pending[id];
      var name := r.account;
      if w.health[name].pathStreak != w.path.epoch {
        NothingOwed(p, pool, w, name);
      }
      TidyLands(w.path.epoch, w.health[name], w.books[name], pool, r.signal, r.charge, SharedStreaks(p, w.history), now);
    }
  }

  /** Nothing of an older streak is left to withdraw. */
  lemma NothingOwed(p: Policy, pool: PoolPolicy, w: World, name: Account)
    requires Inv(p, pool, w) && Settling(w) && name in w.health && name in w.books && w.health[name].pathStreak != w.path.epoch
    ensures w.health[name].pathStreak in SharedStreaks(p, w.history) ==> Unparked(w.health[name], w.books[name]) == 0
  {
    hide SharedStreaks, ThresholdOk, Explains, Balanced;
    assert AccountOk(p, pool, w, name);
    forall i | i in w.pending ensures !Owes(w.pending[i], name, w.health[name].pathStreak) {
      assert InStreak(w.pending[i]) ==> w.pending[i].charge.streak.value == w.path.epoch;
    }
  }

  lemma CalmSettle(p: Policy, pool: PoolPolicy, w: World, id: nat)
    requires PoliciesOk(p, pool) && Inv(p, pool, w) && Settling(w)
    ensures Settling(Step(p, pool, w, Settled(id)))
  {
    hide SharedStreaks, Revoked, LastShared, Shared, Streaks, Trailing, AccountOk;
    var w' := Step(p, pool, w, Settled(id));
    if w' != w {
      var r := w.pending[id];
      assert ReportOk(w, r);
      if InStreak(r) {
        LastSharedCurrent(p, w.history);
        RevokedFacts(w.health[r.account], pool, r.charge.streak.value);
      }
      forall name | name in w'.health && name in w'.books ensures Tidy(w'.path.epoch, w'.health[name], w'.books[name]) {
        assert Tidy(w.path.epoch, w.health[name], w.books[name]);
      }
    }
  }

  lemma CalmStep(p: Policy, pool: PoolPolicy, w: World, l: Label)
    requires PoliciesOk(p, pool) && Inv(p, pool, w) && Settling(w) && Calm(w, l)
    ensures Settling(Step(p, pool, w, l))
  {
    match l
    case Attempted(a) => CalmAttempt(p, pool, w, a);
    case Charged(_, _, _) =>
    case Landed(id, now) => CalmLand(p, pool, w, id, now);
    case Settled(id) => CalmSettle(p, pool, w, id);
  }

  lemma {:induction false} CalmRun(p: Policy, pool: PoolPolicy, names: set<Account>, labels: seq<Label>)
    requires PoliciesOk(p, pool) && AllCalm(p, pool, Beginning(names), labels)
    ensures Settling(Run(p, pool, Beginning(names), labels))
  {
    if labels != [] {
      hide Inv, Step, Calm, Settling;
      var init := labels[..|labels| - 1];
      assert forall i :: 0 <= i < |init| ==> init[..i] == labels[..i] && init[i] == labels[i];
      assert AllCalm(p, pool, Beginning(names), init);
      CalmRun(p, pool, names, init);
      RunKeeps(p, pool, names, init);
      CalmStep(p, pool, Run(p, pool, Beginning(names), init), labels[|labels| - 1]);
    }
  }

  /** While no streak begins between a report's charge and its settlement, nothing is stranded: failures
      are exactly the charges of no shared streak, and nothing is withdrawn twice. */
  lemma ChargesSettle(p: Policy, pool: PoolPolicy, names: set<Account>, labels: seq<Label>, name: Account)
    requires PoliciesOk(p, pool) && AllCalm(p, pool, Beginning(names), labels)
    ensures
      var w := Run(p, pool, Beginning(names), labels);
      name in w.health && w.pending == map[] ==>
        name in w.books && (|w.books[name].charges| <= U32_MAX ==> w.health[name].failures == Due(p, w, name))
  {
    hide Step, Run, Due, AllCalm;
    CalmRun(p, pool, names, labels);
    ChargesExact(p, pool, names, labels, name);
    var w := Run(p, pool, Beginning(names), labels);
    assert name in w.health && name in w.books ==> Tidy(w.path.epoch, w.health[name], w.books[name]);
  }

  // ---- A report that comes too late ----

  const LATE_POLICY := Policy(true, 2, 5)
  const LATE_POOL := PoolPolicy(2, 30)

  /** A report of "a" is charged in streak 1, and both that streak and the next one are attributed
      before it lands. */
  const LATE_LABELS: seq<Label> := [
    Attempted(Attempt(Some("a"), true, 0)),
    Charged(0, "a", PathClass),
    Attempted(Attempt(Some("b"), true, 1)),
    Attempted(Attempt(None, false, 2)),
    Attempted(Attempt(None, true, 3)),
    Landed(0, 4),
    Settled(0)
  ]

  ghost function LateRun(n: nat): World
    requires n <= 7
  {
    Run(LATE_POLICY, LATE_POOL, Beginning({"a"}), LATE_LABELS[..n])
  }

  lemma LateStep(n: nat)
    requires n < 7
    ensures LateRun(n + 1) == Step(LATE_POLICY, LATE_POOL, LateRun(n), LATE_LABELS[n])
  {
    hide Step;
    var labels := LATE_LABELS;
    assert labels[..n + 1][..n] == labels[..n];
  }

  lemma LateBeginning()
    ensures LateRun(0) == World(INITIAL, map["a" := HEALTHY], map[], [], map["a" := BLANK])
  {
    var labels := LATE_LABELS;
    assert labels[..0] == [];
  }

  /** The path along the way: streak 1 of "a" and "b", an answer, and an anonymous streak 2. */
  lemma LatePath()
    ensures
      var p, s1 := LATE_POLICY, State(1, 1, Some("a"), false, 0, None, false);
      var s2, s3 := State(2, 1, Some("a"), true, 1, Some(6), false), State(0, 1, None, false, 1, None, false);
      && After(p, INITIAL, Attempt(Some("a"), true, 0)) == s1
      && After(p, s1, Attempt(Some("b"), true, 1)) == s2
      && After(p, s2, Attempt(None, false, 2)) == s3
      && After(p, s3, Attempt(None, true, 3)) == State(1, 2, None, true, 2, None, false)
  {}

  /** A sweep finds nothing on a healthy account. */
  lemma LateAttempt(w: World, a: Attempt)
    requires w.health == map["a" := HEALTHY] && w.books == map["a" := BLANK]
    ensures Step(LATE_POLICY, LATE_POOL, w, Attempted(a)) == w.(path := After(LATE_POLICY, w.path, a), history := w.history + [a])
  {
    hide After, Blamed;
    var blamed := Blamed(LATE_POLICY, w.path, a);
    if blamed.Some? {
      assert Revoked(HEALTHY, LATE_POOL, blamed.value) == HEALTHY && BooksSwept(BLANK, blamed.value) == BLANK;
      assert Swept(w.health, LATE_POOL, blamed) == w.health;
      assert AllBooksSwept(w.books, blamed) == w.books;
    }
  }

  lemma LateCharge(w: World)
    requires w.health == map["a" := HEALTHY] && w.pending == map[] && w.path == State(1, 1, Some("a"), false, 0, None, false)
    ensures Step(LATE_POLICY, LATE_POOL, w, Charged(0, "a", PathClass)) ==
      w.(pending := map[0 := Report("a", PathClass, ToAccount(Some(1)), false)])
  {}

  /** Five steps in, the report is on its way and streak 2 is the last one attributed. */
  lemma LateMiddle()
    ensures
      var w := LateRun(5);
      && w.path.lastAttributed == 2
      && w.health == map["a" := HEALTHY] && w.books == map["a" := BLANK]
      && w.pending == map[0 := Report("a", PathClass, ToAccount(Some(1)), false)]
      && w.history == [Attempt(Some("a"), true, 0), Attempt(Some("b"), true, 1), Attempt(None, false, 2), Attempt(None, true, 3)]
  {
    hide Run, LateRun, Step, After;
    LatePath();
    LateBeginning();
    LateStep(0);
    LateAttempt(LateRun(0), Attempt(Some("a"), true, 0));
    LateStep(1);
    LateCharge(LateRun(1));
    LateStep(2);
    LateAttempt(LateRun(2), Attempt(Some("b"), true, 1));
    LateStep(3);
    LateAttempt(LateRun(3), Attempt(None, false, 2));
    LateStep(4);
    LateAttempt(LateRun(4), Attempt(None, true, 3));
  }

  lemma LateShared(h: History)
    requires h == [Attempt(Some("a"), true, 0), Attempt(Some("b"), true, 1), Attempt(None, false, 2), Attempt(None, true, 3)]
    ensures 1 in SharedStreaks(LATE_POLICY, h)
  {
    hide SharedStreaks, Shared, Trailing, Streaks;
    var p, a, b := LATE_POLICY, h[0], h[1];
    assert h == [] + [a] + [b] + [h[2]] + [h[3]];
    SharedStreaksSnoc(p, [] + [a] + [b] + [h[2]], h[3]);
    SharedStreaksSnoc(p, [] + [a] + [b], h[2]);
    SharedStreaksSnoc(p, [] + [a], b);
    TrailingSnoc([] + [a], b);
    TrailingSnoc([], a);
    EmptyTrailing();
    SharedSnoc(p, [] + [a], b);
  }

  lemma EmptyTrailing()
    ensures Trailing([]) == [] && Streaks([]) == 0
  {}

  lemma LateLanding(w: World)
    requires w.health == map["a" := HEALTHY] && w.books == map["a" := BLANK]
    requires w.pending == map[0 := Report("a", PathClass, ToAccount(Some(1)), false)]
    ensures Step(LATE_POLICY, LATE_POOL, w, Landed(0, 4)) ==
      w.(health := map["a" := Health(1, 1, 1, None, None, false)],
         books := map["a" := Books([Some(1)], map[0 := 0], 0, 0)],
         pending := map[0 := Report("a", PathClass, ToAccount(Some(1)), true)])
  {
    hide SharedStreaks;
    assert Reported(HEALTHY, LATE_POOL, PathClass, ToAccount(Some(1)), 4) == Health(1, 1, 1, None, None, false);
    LateBooks(SharedStreaks(LATE_POLICY, w.history));
  }

  lemma LateBooks(shared: set<nat>)
    ensures BooksLanded(BLANK, HEALTHY, PathClass, ToAccount(Some(1)), shared) == Books([Some(1)], map[0 := 0], 0, 0)
  {}

  lemma LateSettlement(w: World)
    requires w.path.lastAttributed == 2 && 1 in SharedStreaks(LATE_POLICY, w.history)
    requires w.health == map["a" := Health(1, 1, 1, None, None, false)] && w.books == map["a" := Books([Some(1)], map[0 := 0], 0, 0)]
    requires w.pending == map[0 := Report("a", PathClass, ToAccount(Some(1)), true)]
    ensures Step(LATE_POLICY, LATE_POOL, w, Settled(0)) ==
      w.(books := map["a" := Books([Some(1)], map[0 := 0], 1, 1)], pending := map[])
  {
    hide SharedStreaks;
    assert map[0 := Report("a", PathClass, ToAccount(Some(1)), true)] - {0} == map[];
  }

  /** The settlement of streak 1 meets streak 2 as the latest attributed one and withdraws nothing: the
      account keeps a failure that was the path's. */
  lemma LateReport()
    ensures
      var w := LateRun(7);
      && w.pending == map[] && "a" in w.health && "a" in w.books
      && w.health["a"].failures == 1 && w.books["a"].stranded == 1 && Due(LATE_POLICY, w, "a") == 0
  {
    hide Run, LateRun, SharedStreaks, Due, Step;
    LateMiddle();
    LateStep(5);
    LateLanding(LateRun(5));
    LateShared(LateRun(5).history);
    LateStep(6);
    LateSettlement(LateRun(6));
    LateExact();
  }

  lemma LateExact()
    ensures
      var w := LateRun(7);
      w.pending == map[] && "a" in w.health && "a" in w.books && |w.books["a"].charges| <= U32_MAX ==>
        w.health["a"].failures == Due(LATE_POLICY, w, "a") + w.books["a"].stranded
  {
    hide Run, Due;
    var labels := LATE_LABELS;
    ChargesExact(LATE_POLICY, LATE_POOL, {"a"}, labels[..7], "a");
  }
}
