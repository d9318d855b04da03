/** Health of one shared upstream path: a breaker that blames a streak of faults on the account that
    saw them until a second source, or an anonymous call, shows that the path itself is at fault. */
module PathHealth {
  import opened Common

  const MAX_PROBE_INTERVAL: nat := 5_000

  type Account = string

  datatype Transition = Steady | Opened | ProbeFailed | Recovered
  datatype Change = Change(transition: Transition, attributed: Option<nat>)

  /** Who pays for a path-class fault. */
  datatype Charge = ToAccount(streak: Option<nat>) | ToPath

  datatype Policy = Policy(distinctSources: bool, threshold: nat, interval: nat)

  datatype State = State(
    failures: nat,
    epoch: nat,
    firstSource: Option<Account>,
    attributed: bool,
    lastAttributed: nat,
    openUntil: Option<nat>,
    probing: bool
  )

  const INITIAL := State(0, 0, None, false, 0, None, false)

  // ---- One attempt ----

  /** An attempt sent by an account, or anonymously, at an instant. */
  datatype Attempt = Attempt(source: Option<Account>, fault: bool, at: nat)

  function AfterHealthy(s: State): State {
    s.(failures := 0, attributed := false, firstSource := None, openUntil := None)
  }

  /** The streak after one more fault, before the breaker is looked at. */
  function Streak(p: Policy, s: State, source: Option<Account>): State {
    var s1 := if s.failures == 0 then s.(epoch := s.epoch + 1, firstSource := None, attributed := false) else s;
    var s2 := s1.(failures := Saturated(s1.failures + 1));
    if s2.attributed then s2
    else if source.Some? && p.distinctSources && s2.firstSource.None? then s2.(firstSource := source)
    else if source.Some? && p.distinctSources && s2.firstSource == source then s2
    else s2.(attributed := true, lastAttributed := s2.epoch)
  }

  function AfterFault(p: Policy, s: State, source: Option<Account>, now: nat): State {
    var s1 := Streak(p, s, source);
    if s1.attributed && s1.failures >= p.threshold then s1.(openUntil := Some(now + p.interval)) else s1
  }

  function After(p: Policy, s: State, a: Attempt): State {
    if a.fault then AfterFault(p, s, a.source, a.at) else AfterHealthy(s)
  }

  /** Who pays for a path-class fault reported now. */
  function ChargeOf(s: State): Charge {
    if s.attributed || s.openUntil.Some? then ToPath
    else ToAccount(if s.failures > 0 then Some(s.epoch) else None)
  }

  /** The streak an attempt has just attributed to the path. */
  function Blamed(p: Policy, s: State, a: Attempt): Option<nat> {
    var s' := After(p, s, a);
    if a.fault && s'.attributed && (s.failures == 0 || !s.attributed) then Some(s'.epoch) else None
  }

  // ---- A history of attempts ----

  type History = seq<Attempt>

  /** The faults since the last healthy answer. */
  function Trailing(h: History): History {
    if h == [] || !h[|h| - 1].fault then [] else Trailing(h[..|h| - 1]) + [h[|h| - 1]]
  }

  /** A streak is the path's fault: on SDK paths always, else once it holds an anonymous fault or two accounts. */
  ghost predicate Shared(p: Policy, run: History) {
    && run != []
    && (!p.distinctSources
        || (exists i :: 0 <= i < |run| && run[i].source.None?)
        || (exists i, j :: 0 <= i < j < |run| && run[i].source != run[j].source))
  }

  /** The number of streaks begun. */
  function Streaks(h: History): nat {
    if h == [] then 0
    else
      var init := h[..|h| - 1];
      Streaks(init) + (if h[|h| - 1].fault && Trailing(init) == [] then 1 else 0)
  }

  /** The number of the last streak that was the path's fault, 0 if none was. */
  ghost function LastShared(p: Policy, h: History): nat {
    if h == [] then 0
    else if Shared(p, Trailing(h)) then Streaks(h)
    else LastShared(p, h[..|h| - 1])
  }

  /** The state is a function of the history: of its trailing faults, except for the streak numbers. */
  ghost predicate Explains(p: Policy, h: History, s: State) {
    var run := Trailing(h);
    && s.failures == Saturated(|run|)
    && s.epoch == Streaks(h)
    && (s.attributed <==> Shared(p, run))
    && s.lastAttributed == LastShared(p, h)
    && (!s.attributed ==> s.firstSource == if run == [] then None else run[0].source)
    && s.openUntil == (if Shared(p, run) && |run| >= p.threshold then Some(run[|run| - 1].at + p.interval) else None)
  }

  ghost predicate PolicyOk(p: Policy) {
    1 <= p.threshold <= 100
  }

  lemma TrailingSnoc(h: History, a: Attempt)
    ensures Trailing(h + [a]) == if a.fault then Trailing(h) + [a] else []
    ensures Streaks(h + [a]) == Streaks(h) + (if a.fault && Trailing(h) == [] then 1 else 0)
  {
    assert (h + [a])[..|h|] == h;
  }

  lemma LastSharedSnoc(p: Policy, h: History, a: Attempt)
    ensures LastShared(p, h + [a]) == if Shared(p, Trailing(h + [a])) then Streaks(h + [a]) else LastShared(p, h)
  {
    hide Shared;
    assert (h + [a])[..|h|] == h;
  }

  /** One more fault makes a streak shared exactly when it was, or it is anonymous or by another account. */
  lemma SharedSnoc(p: Policy, run: History, a: Attempt)
    ensures Shared(p, run + [a]) <==>
      Shared(p, run) || !p.distinctSources || a.source.None? || (run != [] && run[0].source != a.source)
  {
    var next := run + [a];
    assert next[|run|] == a;
    assert forall i :: 0 <= i < |run| ==> next[i] == run[i];
    assert run != [] && !Shared(p, run) ==> forall i :: 0 < i < |run| ==> run[0].source == run[i].source;
    if Shared(p, run) && p.distinctSources {
      if i :| 0 <= i < |run| && run[i].source.None? {
        assert next[i].source.None?;
      } else {
        var i, j :| 0 <= i < j < |run| && run[i].source != run[j].source;
        assert next[i].source != next[j].source;
      }
    }
    if run != [] && run[0].source != a.source {
      assert next[0].source != next[|run|].source;
    }
  }

  /** Faults of one account are not shared: they all come from the first one's source. */
  lemma NotShared(p: Policy, run: History)
    requires !Shared(p, run) && run != []
    ensures p.distinctSources && run[0].source.Some?
  {}

  lemma FaultExplained(p: Policy, h: History, s: State, a: Attempt)
    requires PolicyOk(p) && Explains(p, h, s) && a.fault
    ensures Explains(p, h + [a], AfterFault(p, s, a.source, a.at))
  {
    hide Shared, Trailing, Streaks, LastShared;
    TrailingSnoc(h, a);
    LastSharedSnoc(p, h, a);
    SharedSnoc(p, Trailing(h), a);
    EmptyNotShared(p);
    if s.attributed {
      LastSharedNow(p, h);
    }
    if Trailing(h) != [] && !s.attributed {
      NotShared(p, Trailing(h));
    }
  }

  lemma LastSharedNow(p: Policy, h: History)
    requires Shared(p, Trailing(h))
    ensures LastShared(p, h) == Streaks(h)
  {}

  /** What the fields say, read off the explanation. */
  lemma Meaning(p: Policy, h: History, s: State)
    requires PolicyOk(p) && Explains(p, h, s)
    ensures (s.attributed <==> Shared(p, Trailing(h))) && s.epoch == Streaks(h)
    ensures s.openUntil.Some? <==> s.attributed && s.failures >= p.threshold
    ensures s.failures == 0 ==> !s.attributed
  {}

  lemma EmptyNotShared(p: Policy)
    ensures !Shared(p, [])
  {}

  lemma HealthyExplained(p: Policy, h: History, s: State, a: Attempt)
    requires Explains(p, h, s) && !a.fault
    ensures Explains(p, h + [a], AfterHealthy(s))
  {
    hide Shared, Trailing, Streaks, LastShared;
    TrailingSnoc(h, a);
    LastSharedSnoc(p, h, a);
    EmptyNotShared(p);
  }

  function Replay(p: Policy, h: History): State {
    if h == [] then INITIAL else After(p, Replay(p, h[..|h| - 1]), h[|h| - 1])
  }

  /** After any attempts the breaker is what the trailing run of faults says. */
  lemma {:induction false} TrailingRunDecides(p: Policy, h: History)
    requires PolicyOk(p)
    ensures Explains(p, h, Replay(p, h))
  {
    if h == [] {
      EmptyNotShared(p);
    } else {
      hide Explains, AfterFault, AfterHealthy;
      var init, a := h[..|h| - 1], h[|h| - 1];
      TrailingRunDecides(p, init);
      assert h == init + [a];
      if a.fault {
        FaultExplained(p, init, Replay(p, init), a);
      } else {
        HealthyExplained(p, init, Replay(p, init), a);
      }
    }
  }

  // ---- The shared object ----

  datatype Ticket = Ticket(probe: bool, id: nat)

  class Path {
    const policy: Policy
    var failures: nat
    var epoch: nat
    var firstSource: Option<Account>
    var attributed: bool
    var lastAttributed: nat
    var openUntil: Option<nat>
    var probing: bool
    ghost var history: History
    /** Probe tickets handed out and not dropped yet, and how many tickets were handed out. */
    ghost var probes: set<nat>
    var issued: nat

    function Now(): State
      reads this
    {
      State(failures, epoch, firstSource, attributed, lastAttributed, openUntil, probing)
    }

    /** The fields are explained by the history, and a probe is marked exactly while its one ticket lives. */
    ghost predicate Valid()
      reads this
    {
      && PolicyOk(policy) && Explains(policy, history, Now())
      && |probes| <= 1 && (probing <==> |probes| == 1)
      && forall id :: id in probes ==> id < issued
    }

    constructor (distinctSources: bool, threshold: nat, cooldown: nat)
      requires 1 <= threshold <= 100
      ensures Valid() && history == [] && probes == {} && Now() == INITIAL
      ensures policy == Policy(distinctSources, threshold, if cooldown < 5_000 then cooldown else 5_000)
    {
      policy := Policy(distinctSources, threshold, if cooldown < MAX_PROBE_INTERVAL then cooldown else MAX_PROBE_INTERVAL);
      failures, epoch, firstSource, attributed, lastAttributed, openUntil, probing := 0, 0, None, false, 0, None, false;
      history, probes, issued := [], {}, 0;
    }

    method Record(a: Attempt) returns (change: Change)
      requires Valid()
      modifies this
      ensures Valid() && history == old(history) + [a] && probes == old(probes) && issued == old(issued)
      ensures Now() == After(policy, old(Now()), a) && change.attributed == Blamed(policy, old(Now()), a)
      ensures change.attributed ==
        if !Shared(policy, Trailing(old(history))) && Shared(policy, Trailing(history)) then Some(Streaks(history)) else None
      ensures change.transition ==
        if !a.fault then (if old(openUntil).Some? then Recovered else Steady)
        else if openUntil.None? then Steady
        else if old(openUntil).None? then Opened
        else if probing then ProbeFailed else Steady
    {
      hide Shared, Trailing, Streaks, LastShared, PolicyOk, Explains;
      change := Change(Steady, None);
      ghost var s := Now();
      Meaning(policy, history, s);
      if !a.fault {
        HealthyExplained(policy, history, s, a);
        Meaning(policy, history + [a], AfterHealthy(s));
        failures, attributed, firstSource := 0, false, None;
        if openUntil.Some? {
          openUntil := None;
          change := change.(transition := Recovered);
        }
      } else {
        FaultExplained(policy, history, s, a);
        Meaning(policy, history + [a], AfterFault(policy, s, a.source, a.at));
        change := Fault(a);
      }
      history := history + [a];
    }

    /** The fault branch, on the fields alone. */
    method Fault(a: Attempt) returns (change: Change)
      modifies this`failures, this`epoch, this`firstSource, this`attributed, this`lastAttributed, this`openUntil
      ensures Now() == AfterFault(policy, old(Now()), a.source, a.at)
      ensures change.attributed ==
        if attributed && (old(failures) == 0 || !old(attributed)) then Some(epoch) else None
      ensures change.transition ==
        if attributed && failures >= policy.threshold
        then (if old(openUntil).None? then Opened else if probing then ProbeFailed else Steady)
        else Steady
    {
      change := Change(Steady, None);
      if failures == 0 {
        epoch := epoch + 1;
        firstSource, attributed := None, false;
      }
      failures := Saturated(failures + 1);
      if !attributed {
        var shared := true;
        if a.source.Some? && policy.distinctSources {
          if firstSource.None? {
            firstSource := a.source;
            shared := false;
          } else {
            shared := firstSource != a.source;
          }
        }
        if shared {
          attributed, lastAttributed := true, epoch;
          change := change.(attributed := Some(epoch));
        }
      }
      if attributed && failures >= policy.threshold {
        var open := openUntil.Some?;
        openUntil := Some(a.at + policy.interval);
        change := change.(transition := if !open then Opened else if probing then ProbeFailed else Steady);
      }
    }

    /** Always while closed; one probe at a time once the open interval has passed. */
    method Admit(now: nat) returns (r: Option<Ticket>)
      requires Valid()
      modifies this
      ensures Valid() && history == old(history) && Now() == old(Now()).(probing := probing)
      ensures r.None? <==> openUntil.Some? && (openUntil.value > now || old(probing))
      ensures r.None? ==> probes == old(probes)
      ensures r.Some? ==> (r.value.probe <==> openUntil.Some?) && probes == old(probes) + (if r.value.probe then {r.value.id} else {})
      ensures r.Some? && r.value.probe ==> old(probes) == {} && probing
    {
      hide Explains;
      var probe := false;
      if openUntil.Some? {
        if openUntil.value > now || probing {
          return None;
        }
        probe := true;
      }
      ExplainsProbing(policy, history, Now(), probing || probe);
      probing := probing || probe;
      if probe {
        assert probes == {};
        probes := probes + {issued};
      }
      r := Some(Ticket(probe, issued));
      issued := issued + 1;
    }

    /** Dropping a probe's ticket lets the next probe in. */
    method Drop(t: Ticket)
      requires Valid() && (t.probe ==> t.id in probes)
      modifies this
      ensures Valid() && history == old(history) && probes == (if t.probe then {} else old(probes))
      ensures Now() == if t.probe then old(Now()).(probing := false) else old(Now())
    {
      hide Explains;
      if t.probe {
        OnlyOne(probes, t.id);
        ExplainsProbing(policy, history, Now(), false);
        probing, probes := false, {};
      }
    }

    function Charge(): (c: Charge)
      requires Valid()
      reads this
      ensures c.ToPath? <==> Shared(policy, Trailing(history))
      ensures c.ToAccount? ==> c.streak == if Trailing(history) == [] then None else Some(Streaks(history))
    {
      ChargeOf(Now())
    }

    predicate Attributed(streak: nat)
      requires Valid()
      reads this
      ensures Attributed(streak) <==> LastShared(policy, history) == streak
    {
      lastAttributed == streak
    }
  }

  lemma ExplainsProbing(p: Policy, h: History, s: State, probing: bool)
    requires Explains(p, h, s)
    ensures Explains(p, h, s.(probing := probing))
  {}

  lemma OnlyOne(ids: set<nat>, id: nat)
    requires id in ids && |ids| <= 1
    ensures ids == {id}
  {
    assert |ids - {id}| == 0;
  }
}
