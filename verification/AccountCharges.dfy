/** Account health beside path health: what is charged to an account, and what is withdrawn once the
    streak it belongs to turns out to be the path's fault. */
module AccountCharges {
  import opened Common
  import opened PathHealth

  datatype PoolPolicy = PoolPolicy(threshold: nat, cooldown: nat)

  datatype Health = Health(
    failures: nat,
    pathFailures: nat,
    pathStreak: nat,
    until: Option<nat>,
    thresholdUntil: Option<nat>,
    disabled: bool
  )

  const HEALTHY := Health(0, 0, 0, None, None, false)

  // ---- What a reported call says about its account ----

  datatype CallResult = Success | Timeout | Transport | Protocol | Grpc(status: nat) | OtherError

  /** What a result means for the account; the last three come from a Global account's error codes. */
  datatype Signal = Succeeded | Denied | PathClass | Busy | Nothing | Disabled | Cooled(until: nat)

  /** Maintenance and stale version headers say nothing about the account, whatever the result. */
  predicate NotAboutAccount(code: Option<string>) {
    code in {Some("UNDER_MAINTENANCE"), Some("MASTER_VERSION_MISMATCH"), Some("CLIENT_UPDATE_REQUIRED")}
  }

  function StaticSignal(result: CallResult, code: Option<string>): Signal {
    if NotAboutAccount(code) then Nothing
    else match result
      case Success => Succeeded
      case Timeout => PathClass
      case Transport => PathClass
      case Protocol => PathClass
      case Grpc(status) =>
        if status == 7 || status == 16 then Denied
        else if status == 14 then PathClass
        else if status == 8 || status == 13 then Busy
        else Nothing
      case OtherError => Nothing
  }

  // ---- Health transitions ----

  function Transient(h: Health, p: PoolPolicy, streak: Option<nat>, now: nat): Health {
    var h1 := h.(failures := Saturated(h.failures + 1));
    var h2 :=
      if streak.None? then h1
      else
        var before := if h.pathStreak != streak.value then 0 else h.pathFailures;
        h1.(pathStreak := streak.value, pathFailures := Saturated(before + 1));
    if h2.failures >= p.threshold then h2.(thresholdUntil := Some(now + p.cooldown)) else h2
  }

  function Later(a: Option<nat>, b: nat): Option<nat> {
    if a.Some? && a.value > b then a else Some(b)
  }

  function Reported(h: Health, p: PoolPolicy, signal: Signal, charge: Charge, now: nat): Health {
    match signal
    case Succeeded => h.(failures := 0, pathFailures := 0, until := None, thresholdUntil := None)
    case Denied => h.(disabled := true, failures := Saturated(h.failures + 1))
    case PathClass => if charge.ToAccount? then Transient(h, p, charge.streak, now) else h
    case Busy => Transient(h, p, None, now)
    case Disabled => h.(disabled := true)
    case Cooled(until) => h.(until := Later(h.until, until))
    case Nothing => h
  }

  function Revoked(h: Health, p: PoolPolicy, streak: nat): Health {
    if h.pathStreak != streak || h.pathFailures == 0 then h
    else
      var failures := if h.failures >= h.pathFailures then h.failures - h.pathFailures else 0;
      h.(failures := failures, pathFailures := 0,
         thresholdUntil := if failures < p.threshold then None else h.thresholdUntil)
  }

  class AccountHealth {
    var failures: nat
    var pathFailures: nat
    var pathStreak: nat
    var until: Option<nat>
    var thresholdUntil: Option<nat>
    var disabled: bool

    function Now(): Health
      reads this
    {
      Health(failures, pathFailures, pathStreak, until, thresholdUntil, disabled)
    }

    constructor ()
      ensures Now() == HEALTHY
    {
      failures, pathFailures, pathStreak, until, thresholdUntil, disabled := 0, 0, 0, None, None, false;
    }

    method Fail(p: PoolPolicy, streak: Option<nat>, now: nat)
      modifies this
      ensures Now() == Transient(old(Now()), p, streak, now)
    {
      failures := Saturated(failures + 1);
      if streak.Some? {
        if pathStreak != streak.value {
          pathStreak, pathFailures := streak.value, 0;
        }
        pathFailures := Saturated(pathFailures + 1);
      }
      if failures >= p.threshold {
        thresholdUntil := Some(now + p.cooldown);
      }
    }

    /** A static account's call is reported. */
    method Report(p: PoolPolicy, result: CallResult, code: Option<string>, charge: Charge, now: nat)
      modifies this
      ensures Now() == Reported(old(Now()), p, StaticSignal(result, code), charge, now)
    {
      if NotAboutAccount(code) {
        return;
      }
      match result
      case Success =>
        failures, pathFailures := 0, 0;
        until, thresholdUntil := None, None;
      case Grpc(status) =>
        if status == 7 || status == 16 {
          disabled := true;
          failures := Saturated(failures + 1);
        } else if status == 14 {
          PathFault(p, charge, now);
        } else if status == 8 || status == 13 {
          Fail(p, None, now);
        }
      case OtherError =>
      case _ => PathFault(p, charge, now);
    }

    /** A path-class fault, paid as the charge says. */
    method PathFault(p: PoolPolicy, charge: Charge, now: nat)
      modifies this
      ensures Now() == Reported(old(Now()), p, PathClass, charge, now)
    {
      if charge.ToAccount? {
        Fail(p, charge.streak, now);
      }
    }

    /** Signal cooldowns only ever grow. */
    method CoolDown(instant: nat)
      modifies this
      ensures Now() == old(Now()).(until := until) && until.Some? && instant <= until.value
      ensures until == Some(instant) || until == old(until)
      ensures old(until).Some? ==> old(until).value <= until.value
    {
      until := Later(until, instant);
    }

    method Revoke(p: PoolPolicy, streak: nat)
      modifies this
      ensures Now() == Revoked(old(Now()), p, streak)
    {
      if pathStreak != streak || pathFailures == 0 {
        return;
      }
      failures := if failures >= pathFailures then failures - pathFailures else 0;
      pathFailures := 0;
      if failures < p.threshold {
        thresholdUntil := None;
      }
    }
  }

  // ---- What a report does, result by result ----

  /** A success clears everything but `disabled`; 7 and 16 disable the account and count; 8 and 13 count; a path
      fault or 14 counts exactly when it is charged to the account; anything else, and any result under a
      maintenance or version code, leaves the account alone. */
  lemma ReportTable(h: Health, p: PoolPolicy, result: CallResult, code: Option<string>, charge: Charge, now: nat)
    requires code != Some("UNDER_MAINTENANCE") && code != Some("MASTER_VERSION_MISMATCH") && code != Some("CLIENT_UPDATE_REQUIRED")
    ensures
      var h' := Reported(h, p, StaticSignal(result, code), charge, now);
      && (result.Success? ==> h' == Health(0, 0, h.pathStreak, None, None, h.disabled))
      && (result in {Grpc(7), Grpc(16)} ==> h' == h.(disabled := true, failures := Saturated(h.failures + 1)))
      && (result in {Grpc(8), Grpc(13)} ==>
            && h'.failures == Saturated(h.failures + 1) && h'.pathFailures == h.pathFailures && h'.pathStreak == h.pathStreak
            && h'.disabled == h.disabled && h'.until == h.until
            && h'.thresholdUntil == if h'.failures >= p.threshold then Some(now + p.cooldown) else h.thresholdUntil)
      && (result in {Timeout, Transport, Protocol, Grpc(14)} && charge.ToPath? ==> h' == h)
      && (result in {Timeout, Transport, Protocol, Grpc(14)} && charge.ToAccount? ==>
            && h'.failures == Saturated(h.failures + 1) && h'.disabled == h.disabled && h'.until == h.until
            && h'.thresholdUntil == (if h'.failures >= p.threshold then Some(now + p.cooldown) else h.thresholdUntil)
            && (charge.streak.None? ==> h'.pathFailures == h.pathFailures && h'.pathStreak == h.pathStreak)
            && (charge.streak.Some? ==> h'.pathStreak == charge.streak.value)
            && (charge.streak.Some? ==> h'.pathFailures == if h.pathStreak == charge.streak.value then Saturated(h.pathFailures + 1) else 1))
      && (result.OtherError? || (result.Grpc? && result.status !in {7, 8, 13, 14, 16}) ==> h' == h)
  {}

  lemma ReportIgnores(h: Health, p: PoolPolicy, result: CallResult, code: Option<string>, charge: Charge, now: nat)
    requires code in {Some("UNDER_MAINTENANCE"), Some("MASTER_VERSION_MISMATCH"), Some("CLIENT_UPDATE_REQUIRED")}
    ensures Reported(h, p, StaticSignal(result, code), charge, now) == h
  {}

  /** Withdrawing a streak takes off exactly what the account tracks of it, and lifts the threshold cooldown
      exactly when what is left is below the threshold. */
  lemma RevokeTable(h: Health, p: PoolPolicy, streak: nat)
    ensures
      var h' := Revoked(h, p, streak);
      && (h.pathStreak != streak || h.pathFailures == 0 ==> h' == h)
      && (h.pathStreak == streak && 0 < h.pathFailures <= h.failures ==>
            h' == h.(failures := h.failures - h.pathFailures, pathFailures := 0,
                     thresholdUntil := if h.failures - h.pathFailures < p.threshold then None else h.thresholdUntil))
  {}

  // ---- Streaks that were the path's fault ----

  ghost function SharedStreaks(p: Policy, h: History): set<nat> {
    if h == [] then {}
    else SharedStreaks(p, h[..|h| - 1]) + (if Shared(p, Trailing(h)) then {Streaks(h)} else {})
  }

  lemma SharedStreaksSnoc(p: Policy, h: History, a: Attempt)
    ensures SharedStreaks(p, h + [a]) ==
      SharedStreaks(p, h) + (if Shared(p, Trailing(h + [a])) then {Streaks(h + [a])} else {})
  {
    hide Shared;
    assert (h + [a])[..|h|] == h;
  }

  lemma {:induction false} SharedPast(p: Policy, h: History)
    ensures forall e :: e in SharedStreaks(p, h) ==> 1 <= e <= Streaks(h)
    ensures Trailing(h) != [] ==> Streaks(h) >= 1
  {
    if h != [] {
      hide Shared;
      var init := h[..|h| - 1];
      SharedPast(p, init);
      EmptyNotShared(p);
    }
  }

  /** The streak in progress is among them exactly when it is shared by now. */
  lemma {:induction false} SharedCurrent(p: Policy, h: History)
    requires Trailing(h) != []
    ensures Streaks(h) in SharedStreaks(p, h) <==> Shared(p, Trailing(h))
  {
    var init, a := h[..|h| - 1], h[|h| - 1];
    assert h == init + [a];
    hide Shared;
    TrailingSnoc(init, a);
    SharedStreaksSnoc(p, init, a);
    SharedSnoc(p, Trailing(init), a);
    SharedPast(p, init);
    if Trailing(init) != [] {
      SharedCurrent(p, init);
    }
  }

  /** `attributed(epoch)` answers correctly for the latest streak. */
  lemma {:induction false} LastSharedCurrent(p: Policy, h: History)
    requires Streaks(h) >= 1
    ensures LastShared(p, h) == Streaks(h) <==> Streaks(h) in SharedStreaks(p, h)
  {
    hide Shared;
    if h != [] {
      var init, a := h[..|h| - 1], h[|h| - 1];
      assert h == init + [a];
      SharedStreaksSnoc(p, init, a);
      LastSharedSnoc(p, init, a);
      TrailingSnoc(init, a);
      LastSharedPast(p, init);
      SharedPast(p, init);
      if !Shared(p, Trailing(h)) && Streaks(init) == Streaks(h) {
        LastSharedCurrent(p, init);
      }
    }
  }

  lemma {:induction false} LastSharedPast(p: Policy, h: History)
    ensures LastShared(p, h) <= Streaks(h)
  {
    hide Shared;
    if h != [] {
      LastSharedPast(p, h[..|h| - 1]);
    }
  }

  /** The latest attributed streak is one of them. */
  lemma {:induction false} LastSharedIn(p: Policy, h: History)
    requires LastShared(p, h) >= 1
    ensures LastShared(p, h) in SharedStreaks(p, h)
  {
    hide Shared;
    if h != [] && !Shared(p, Trailing(h)) {
      LastSharedIn(p, h[..|h| - 1]);
    }
  }

  // ---- What an account ought to be charged ----

  /** Charges since the last success: the streak of each, or none. */
  type Charges = seq<Option<nat>>

  function Booked(cs: Charges, signal: Signal, charge: Charge): Charges {
    match signal
    case Succeeded => []
    case Denied => cs + [None]
    case Busy => cs + [None]
    case PathClass => if charge.ToAccount? then cs + [charge.streak] else cs
    case _ => cs
  }

  /** Charges that belong to no shared streak. */
  ghost function Unshared(cs: Charges, shared: set<nat>): nat {
    if cs == [] then 0
    else
      var c := cs[|cs| - 1];
      Unshared(cs[..|cs| - 1], shared) + (if c.Some? && c.value in shared then 0 else 1)
  }

  function CountOf(cs: Charges, streak: nat): nat {
    if cs == [] then 0 else CountOf(cs[..|cs| - 1], streak) + (if cs[|cs| - 1] == Some(streak) then 1 else 0)
  }

  lemma CountsSnoc(cs: Charges, c: Option<nat>, shared: set<nat>, streak: nat)
    ensures Unshared(cs + [c], shared) == Unshared(cs, shared) + (if c.Some? && c.value in shared then 0 else 1)
    ensures CountOf(cs + [c], streak) == CountOf(cs, streak) + (if c == Some(streak) then 1 else 0)
  {
    assert (cs + [c])[..|cs|] == cs;
  }

  lemma {:induction false} CountsBounded(cs: Charges, shared: set<nat>, streak: nat)
    requires streak !in shared
    ensures CountOf(cs, streak) <= Unshared(cs, shared)
  {
    if cs != [] {
      CountsBounded(cs[..|cs| - 1], shared, streak);
    }
  }

  /** Sharing one more streak removes exactly its charges. */
  lemma {:induction false} ShareOne(cs: Charges, shared: set<nat>, streak: nat)
    requires streak !in shared
    ensures Unshared(cs, shared) == Unshared(cs, shared + {streak}) + CountOf(cs, streak)
  {
    if cs != [] {
      ShareOne(cs[..|cs| - 1], shared, streak);
    }
  }

  // ---- One account's books ----

  /** Beside the charges since the last success: how many charges of each streak the account no longer
      tracks, because one of another streak landed; how many of those it tracks a settlement has passed
      over; and how many charges of shared streaks have been stranded at these guards. */
  datatype Books = Books(charges: Charges, loose: map<nat, nat>, parked: nat, stranded: nat)

  const BLANK := Books([], map[], 0, 0)

  function Loose(b: Books, streak: nat): nat {
    if streak in b.loose then b.loose[streak] else 0
  }

  /** Tracked charges that no settlement has passed over. */
  function Unparked(h: Health, b: Books): nat {
    if h.pathFailures >= b.parked then h.pathFailures - b.parked else 0
  }

  /** A charge of another streak lands: the ones tracked so far are let go, and stranded if their streak
      is shared by then. */
  ghost function Overtaken(b: Books, h: Health, shared: set<nat>): Books {
    b.(loose := b.loose[h.pathStreak := Loose(b, h.pathStreak) + h.pathFailures],
       parked := 0,
       stranded := b.stranded + if h.pathStreak in shared then Unparked(h, b) else 0)
  }

  ghost function BooksLanded(b: Books, h: Health, signal: Signal, charge: Charge, shared: set<nat>): Books {
    if signal.Succeeded? then BLANK
    else
      var other := signal.PathClass? && charge.ToAccount? && charge.streak.Some? && charge.streak.value != h.pathStreak;
      (if other then Overtaken(b, h, shared) else b).(charges := Booked(b.charges, signal, charge))
  }

  /** A streak is attributed: its charges that are no longer tracked stay. */
  function BooksSwept(b: Books, streak: nat): Books {
    b.(stranded := b.stranded + Loose(b, streak))
  }

  /** A settlement of a shared streak that is not the latest attributed one withdraws nothing. */
  function BooksPassed(b: Books, h: Health): Books {
    b.(stranded := b.stranded + Unparked(h, b), parked := h.pathFailures)
  }

  predicate ThresholdOk(h: Health, p: PoolPolicy) {
    !h.disabled ==> (h.thresholdUntil.Some? <==> h.failures >= p.threshold)
  }

  /** Below the width of the counters, failures are the charges of no shared streak, the stranded ones, and
      those of the tracked streak, if it is shared, whose withdrawal someone still owes. */
  ghost predicate Agrees(h: Health, b: Books, shared: set<nat>, last: nat, owed: bool) {
    && h.failures <= |b.charges| && b.parked <= h.pathFailures <= |b.charges| && h.pathFailures <= U32_MAX
    && (b.parked > 0 ==> h.pathStreak in shared && h.pathStreak != last)
    && (h.pathStreak in shared && h.pathFailures > b.parked ==> owed)
    && (|b.charges| <= U32_MAX ==> Balanced(h, b, shared))
  }

  ghost predicate Balanced(h: Health, b: Books, shared: set<nat>) {
    && h.failures == Unshared(b.charges, shared) + b.stranded + (if h.pathStreak in shared then Unparked(h, b) else 0)
    && (forall s :: s !in shared ==> CountOf(b.charges, s) == Loose(b, s) + (if h.pathStreak == s then h.pathFailures else 0))
  }

  lemma ThresholdKept(h: Health, p: PoolPolicy, signal: Signal, charge: Charge, now: nat, streak: nat)
    requires ThresholdOk(h, p) && 1 <= p.threshold <= 100
    ensures ThresholdOk(Reported(h, p, signal, charge, now), p) && ThresholdOk(Revoked(h, p, streak), p)
  {}

  lemma LandStreak(h: Health, p: PoolPolicy, b: Books, shared: set<nat>, last: nat, owed: bool, streak: nat, now: nat)
    requires Agrees(h, b, shared, last, owed)
    ensures Agrees(Transient(h, p, Some(streak), now), BooksLanded(b, h, PathClass, ToAccount(Some(streak)), shared), shared, last, true)
  {
    hide Unshared, CountOf;
    forall s ensures CountOf(b.charges + [Some(streak)], s) == CountOf(b.charges, s) + (if s == streak then 1 else 0) {
      CountsSnoc(b.charges, Some(streak), shared, s);
    }
    CountsSnoc(b.charges, Some(streak), shared, streak);
  }

  lemma LandPlain(h: Health, p: PoolPolicy, b: Books, shared: set<nat>, last: nat, owed: bool, now: nat)
    requires Agrees(h, b, shared, last, owed)
    ensures
      var b' := b.(charges := b.charges + [None]);
      && Agrees(Transient(h, p, None, now), b', shared, last, owed)
      && Agrees(h.(disabled := true, failures := Saturated(h.failures + 1)), b', shared, last, owed)
  {
    hide Unshared, CountOf;
    forall s ensures CountOf(b.charges + [None], s) == CountOf(b.charges, s) {
      CountsSnoc(b.charges, None, shared, s);
    }
    CountsSnoc(b.charges, None, shared, 0);
  }

  lemma LandBlank(h: Health, shared: set<nat>, last: nat, owed: bool)
    requires h.failures == 0 && h.pathFailures == 0
    ensures Agrees(h, BLANK, shared, last, owed)
  {}

  /** A report lands. */
  lemma Lands(h: Health, p: PoolPolicy, b: Books, shared: set<nat>, last: nat, owed: bool, signal: Signal, charge: Charge, now: nat)
    requires Agrees(h, b, shared, last, owed)
    ensures
      var h' := Reported(h, p, signal, charge, now);
      && Agrees(h', BooksLanded(b, h, signal, charge, shared), shared, last,
                h'.pathStreak != h.pathStreak || owed || charge == ToAccount(Some(h.pathStreak)))
      && (h'.pathStreak == h.pathStreak || charge == ToAccount(Some(h'.pathStreak)))
  {
    hide Transient, Unshared, CountOf, Balanced, Overtaken;
    var h' := Reported(h, p, signal, charge, now);
    match signal
    case Succeeded => LandBlank(h', shared, last, owed);
    case Denied => LandPlain(h, p, b, shared, last, owed, now);
    case Busy =>
      LandPlain(h, p, b, shared, last, owed, now);
      StreakOf(h, p, None, now);
    case PathClass =>
      if charge.ToAccount? {
        StreakOf(h, p, charge.streak, now);
        if charge.streak.Some? {
          LandStreak(h, p, b, shared, last, owed, charge.streak.value, now);
        } else {
          LandPlain(h, p, b, shared, last, owed, now);
        }
      }
    case _ => SameCounts(h, h', b, shared);
  }

  lemma SameCounts(h: Health, h': Health, b: Books, shared: set<nat>)
    requires h'.failures == h.failures && h'.pathFailures == h.pathFailures && h'.pathStreak == h.pathStreak
    ensures Balanced(h, b, shared) ==> Balanced(h', b, shared)
  {}

  lemma StreakOf(h: Health, p: PoolPolicy, streak: Option<nat>, now: nat)
    ensures Transient(h, p, streak, now).pathStreak == if streak.Some? then streak.value else h.pathStreak
  {}

  /** Settling against the latest attributed streak withdraws what is left of it. */
  lemma Withdraws(h: Health, p: PoolPolicy, b: Books, shared: set<nat>, last: nat, owed: bool)
    requires Agrees(h, b, shared, last, owed) && last in shared
    ensures Agrees(Revoked(h, p, last), b, shared, last, owed && h.pathStreak != last)
  {
    hide Unshared, CountOf;
  }

  /** Settling against an older shared streak strands what is left of it. */
  lemma PassesOver(h: Health, b: Books, shared: set<nat>, last: nat, owed: bool)
    requires Agrees(h, b, shared, last, owed) && h.pathStreak in shared && h.pathStreak != last
    ensures Agrees(h, BooksPassed(b, h), shared, last, false)
  {
    hide Unshared, CountOf;
  }

  /** The sweep that goes with an attribution withdraws the streak's tracked charges from every account. */
  lemma Sweeps(h: Health, p: PoolPolicy, b: Books, shared: set<nat>, last: nat, owed: bool, streak: nat)
    requires Agrees(h, b, shared, last, owed) && streak !in shared
    ensures Agrees(Revoked(h, p, streak), BooksSwept(b, streak), shared + {streak}, streak, owed)
  {
    hide Unshared, CountOf;
    ShareOne(b.charges, shared, streak);
    CountsBounded(b.charges, shared, streak);
  }
}
