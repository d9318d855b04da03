/** Failing over along an ordered list of targets, each behind a small breaker. */
module NodeRouting {
  import opened Common
  import opened PeerExecution

  datatype Config = Config(threshold: nat, cooldown: nat)

  datatype Transition = Steady | CooldownStarted | ProbeFailed | Recovered

  // ---- One target's health ----

  /** The failures since the last success, in the order calls finished. */
  function Trailing(finished: seq<bool>): nat {
    if finished == [] || !finished[|finished| - 1] then 0 else Trailing(finished[..|finished| - 1]) + 1
  }

  lemma TrailingSnoc(finished: seq<bool>, failed: bool)
    ensures Trailing(finished + [failed]) == if failed then Trailing(finished) + 1 else 0
  {
    assert (finished + [failed])[..|finished|] == finished;
  }

  datatype Permit = Permit(probe: bool, id: nat)

  class Target {
    const remote: bool
    var failures: nat
    var openUntil: Option<nat>
    var probing: bool
    var issued: nat
    /** Whether each finished call failed, and the probe permits handed out and not dropped. */
    ghost var finished: seq<bool>
    ghost var probes: set<nat>

    /** Cooling down exactly when the trailing failures reach the threshold; a probe is marked exactly
        while its one permit lives. */
    ghost predicate Valid(c: Config)
      reads this
    {
      && 1 <= c.threshold <= 100
      && failures == Saturated(Trailing(finished))
      && (openUntil.Some? <==> Trailing(finished) >= c.threshold)
      && |probes| <= 1 && (probing <==> |probes| == 1)
      && forall id :: id in probes ==> id < issued
    }

    constructor (remote: bool, ghost c: Config)
      requires 1 <= c.threshold <= 100
      ensures Valid(c) && finished == [] && probes == {} && this.remote == remote
    {
      this.remote := remote;
      failures, openUntil, probing, issued, finished, probes := 0, None, false, 0, [], {};
    }

    method Admit(now: nat, ghost c: Config) returns (r: Option<Permit>)
      requires Valid(c)
      modifies this
      ensures Valid(c) && finished == old(finished) && openUntil == old(openUntil)
      ensures r.None? <==> openUntil.Some? && (openUntil.value > now || old(probing))
      ensures r.None? ==> probes == old(probes)
      ensures r.Some? ==> (r.value.probe <==> openUntil.Some?) && probes == old(probes) + (if r.value.probe then {r.value.id} else {})
    {
      hide Trailing;
      if openUntil.Some? {
        if openUntil.value > now || probing {
          return None;
        }
        probing := true;
        assert probes == {};
        probes := probes + {issued};
      }
      r := Some(Permit(openUntil.Some?, issued));
      issued := issued + 1;
    }

    method Finish(p: Permit, failed: bool, now: nat, c: Config) returns (t: Transition)
      requires Valid(c)
      modifies this
      ensures Valid(c) && finished == old(finished) + [failed] && probes == old(probes) && probing == old(probing) && issued == old(issued)
      ensures openUntil == if Trailing(finished) >= c.threshold then Some(now + c.cooldown) else None
      ensures t ==
        if !failed then (if old(openUntil).Some? then Recovered else Steady)
        else if openUntil.None? then Steady
        else if p.probe then ProbeFailed
        else if old(openUntil).None? then CooldownStarted else Steady
    {
      hide Trailing;
      TrailingSnoc(finished, failed);
      t := Steady;
      if failed {
        failures := Saturated(failures + 1);
        if failures >= c.threshold {
          var cooling := openUntil.Some?;
          openUntil := Some(now + c.cooldown);
          t := if p.probe then ProbeFailed else if cooling then Steady else CooldownStarted;
        }
      } else {
        failures := 0;
        if openUntil.Some? {
          openUntil := None;
          t := Recovered;
        }
      }
      finished := finished + [failed];
    }

    method Drop(p: Permit, ghost c: Config)
      requires Valid(c) && (p.probe ==> p.id in probes)
      modifies this
      ensures Valid(c) && finished == old(finished) && openUntil == old(openUntil)
      ensures probes == if p.probe then {} else old(probes)
    {
      hide Trailing;
      if p.probe {
        assert |probes - {p.id}| == 0;
        probing, probes := false, {};
      }
    }

    /** A call that arrives now is let through. */
    predicate Admits(now: nat)
      reads this
    {
      openUntil.Some? ==> openUntil.value <= now && !probing
    }

    /** One attempt under a permit; a refused admission leaves the target as it was. */
    method Serve(c: Config, now: nat, v: Visit) returns (admitted: bool)
      requires Valid(c)
      modifies this
      ensures Valid(c)
      ensures admitted == old(Admits(now))
      ensures finished == if admitted then old(finished) + [TargetFault(Attempted(v).answer)] else old(finished)
    {
      hide Trailing, Attempted, TargetFault;
      var permit := Admit(now, c);
      admitted := permit.Some?;
      if admitted {
        var _ := Finish(permit.value, TargetFault(Attempted(v).answer), now, c);
        Drop(permit.value, c);
      }
    }
  }

  // ---- The router ----

  /** Errors that count against the target, and may send the call to the next one. */
  predicate TargetFault(a: Answer) {
    a.Error? &&
    (a.error.Transport? || a.error.Proxy? || a.error.Timeout? || a.error.Protocol? || a.error.PeerIdentityMismatch?
     || a.error.PeerAccountUnavailable? || a.error.AccountUnavailable? || a.error.UnsupportedRegionOperation?)
  }

  /** The call goes on to the next target. */
  predicate FailsOver(v: Visit, authenticated: bool) {
    TargetFault(Attempted(v).answer) && (Attempted(v).notExecuted || !authenticated)
  }

  /** The targets among those tried that sent the route's game RPC. */
  ghost function Senders(tried: seq<nat>, visits: nat -> Visit): set<nat> {
    set i: nat | i < |tried| && Attempted(visits(tried[i])).sent
  }

  /** Exactly which errors count against a target, and when an attempt that ends in one is passed on: an
      anonymous call always, an authenticated one only where the attempt proves it was not executed. */
  lemma FailsOverExactly(v: Visit, authenticated: bool)
    ensures
      var a := Attempted(v);
      FailsOver(v, authenticated) <==>
        && a.answer in {Error(Transport), Error(Proxy), Error(Timeout), Error(Protocol), Error(PeerIdentityMismatch),
                        Error(PeerAccountUnavailable), Error(AccountUnavailable), Error(UnsupportedRegionOperation)}
        && (authenticated ==> a.notExecuted)
  {
    hide Attempted;
  }

  /** The targets below `bound`: those that admit the call were tried, in order, and the others were not;
      the first `passed` of them passed the call on. */
  ghost predicate Tried(tried: seq<nat>, admits: seq<bool>, bound: nat, passed: nat, visits: nat -> Visit, authenticated: bool) {
    && passed <= |tried| && bound <= |admits|
    && (forall i :: 0 <= i < bound ==> (i in tried <==> admits[i]))
    && (forall i :: 0 <= i < |tried| ==> tried[i] < bound)
    && (forall i, j :: 0 <= i < j < |tried| ==> tried[i] < tried[j])
    && (forall i :: 0 <= i < passed ==> FailsOver(visits(tried[i]), authenticated))
  }

  lemma TriedSnoc(tried: seq<nat>, admits: seq<bool>, n: nat, visits: nat -> Visit, authenticated: bool)
    requires n < |admits| && Tried(tried, admits, n, |tried|, visits, authenticated)
    ensures admits[n] ==> Tried(tried + [n], admits, n + 1, |tried|, visits, authenticated)
    ensures admits[n] && FailsOver(visits(n), authenticated) ==> Tried(tried + [n], admits, n + 1, |tried| + 1, visits, authenticated)
    ensures !admits[n] ==> Tried(tried, admits, n + 1, |tried|, visits, authenticated)
  {
    hide FailsOver;
    var more := tried + [n];
    assert forall i :: i in more <==> i in tried || i == n;
    assert n !in tried;
  }

  /** Passing on an authenticated call proves that the target did not send it, so at most the last one did. */
  lemma AtMostOneSender(tried: seq<nat>, admits: seq<bool>, bound: nat, passed: nat, visits: nat -> Visit)
    requires Tried(tried, admits, bound, passed, visits, true) && |tried| <= passed + 1
    requires forall i :: 0 <= i < bound ==> VisitOk(visits(i))
    ensures |Senders(tried, visits)| <= 1
    ensures forall i :: i in Senders(tried, visits) ==> i == |tried| - 1 == passed
  {
    hide Attempted, VisitOk;
    forall i | i in Senders(tried, visits) ensures i == |tried| - 1 == passed {
      if i < passed {
        ProofHolds(visits(tried[i]));
      }
    }
    assert Senders(tried, visits) <= {passed};
    if Senders(tried, visits) != {} {
      assert Senders(tried, visits) == {passed};
    }
  }

  ghost predicate AllValid(targets: seq<Target>, c: Config)
    reads set i | 0 <= i < |targets| :: targets[i]
  {
    forall i :: 0 <= i < |targets| ==> targets[i].Valid(c)
  }

  ghost predicate Distinct(targets: seq<Target>) {
    forall i, j :: 0 <= i < j < |targets| ==> targets[i] != targets[j]
  }

  /** Which targets would admit the call when it reaches them. */
  ghost function Admissions(targets: seq<Target>, clock: nat -> nat): (admits: seq<bool>)
    reads set i | 0 <= i < |targets| :: targets[i]
    ensures |admits| == |targets|
  {
    seq(|targets|, i requires 0 <= i < |targets| reads set k | 0 <= k < |targets| :: targets[k] => targets[i].Admits(clock(i)))
  }

  /** What each target's calls came to. */
  ghost function Finished(targets: seq<Target>): (f: seq<seq<bool>>)
    reads set i | 0 <= i < |targets| :: targets[i]
    ensures |f| == |targets|
  {
    seq(|targets|, i requires 0 <= i < |targets| reads set k | 0 <= k < |targets| :: targets[k] => targets[i].finished)
  }

  /** The targets from `n` on have not been touched; those before it have one call more if they admitted it. */
  ghost predicate Reached(targets: seq<Target>, n: nat, clock: nat -> nat, visits: nat -> Visit, admits: seq<bool>, was: seq<seq<bool>>)
    reads set i | 0 <= i < |targets| :: targets[i]
  {
    && |admits| == |targets| == |was|
    && (forall i :: n <= i < |targets| ==> targets[i].Admits(clock(i)) == admits[i])
    && (forall i :: 0 <= i < |targets| ==>
          targets[i].finished == if i < n && admits[i] then was[i] + [TargetFault(Attempted(visits(i)).answer)] else was[i])
  }

  method ServeAt(targets: seq<Target>, n: nat, c: Config, clock: nat -> nat, visits: nat -> Visit,
                 ghost admits: seq<bool>, ghost was: seq<seq<bool>>) returns (admitted: bool)
    requires n < |targets| && AllValid(targets, c) && Distinct(targets) && Reached(targets, n, clock, visits, admits, was)
    modifies targets[n]
    ensures AllValid(targets, c) && Reached(targets, n + 1, clock, visits, admits, was) && admitted == admits[n]
  {
    hide Attempted, TargetFault;
    assert targets[n].Valid(c);
    assert forall i :: 0 <= i < |targets| && i != n ==> targets[i] != targets[n];
    admitted := targets[n].Serve(c, clock(n), visits(n));
  }

  /** How far the call got: `reach` targets were considered in time, and it stopped there because there
      are no more, because the deadline had passed, or because the last one did not pass it on. */
  ghost predicate Stopped(tried: seq<nat>, passed: nat, reach: nat, total: nat, late: bool, clock: nat -> nat, deadline: nat,
                          visits: nat -> Visit, authenticated: bool) {
    && reach <= total && (forall i :: 0 <= i < reach ==> clock(i) < deadline)
    && (late <==> passed == |tried| && reach < total)
    && (late ==> clock(reach) >= deadline)
    && (passed < |tried| ==> tried != [] && tried[|tried| - 1] == reach - 1 && !FailsOver(visits(reach - 1), authenticated))
  }

  /** Target `i` is the first that admits the call and does not pass it on, and it is reached in time. */
  ghost predicate FirstAnswer(admits: seq<bool>, clock: nat -> nat, deadline: nat, visits: nat -> Visit, authenticated: bool, i: nat) {
    && i < |admits| && admits[i] && !FailsOver(visits(i), authenticated)
    && (forall j :: 0 <= j <= i ==> clock(j) < deadline)
    && (forall j :: 0 <= j < i ==> !admits[j] || FailsOver(visits(j), authenticated))
  }

  /** One routed call over the targets in priority order; `visits` has what happens at each, `clock` the
      time at which it is reached. */
  method CallInner(targets: seq<Target>, c: Config, authenticated: bool, deadline: nat, clock: nat -> nat, visits: nat -> Visit)
    returns (r: Answer, ghost tried: seq<nat>, ghost passed: nat, ghost reach: nat, ghost late: bool)
    requires AllValid(targets, c) && Distinct(targets) && forall i :: 0 <= i < |targets| ==> VisitOk(visits(i))
    modifies set i | 0 <= i < |targets| :: targets[i]
    ensures AllValid(targets, c) && Reached(targets, reach, clock, visits, old(Admissions(targets, clock)), old(Finished(targets)))
    ensures |tried| <= passed + 1 && Tried(tried, old(Admissions(targets, clock)), reach, passed, visits, authenticated)
    ensures Stopped(tried, passed, reach, |targets|, late, clock, deadline, visits, authenticated)
    ensures r ==
      if late then Error(Timeout)
      else if tried == [] then Error(NodeUnavailable)
      else Attempted(visits(tried[|tried| - 1])).answer
    ensures forall i: nat :: FirstAnswer(old(Admissions(targets, clock)), clock, deadline, visits, authenticated, i) ==>
      r == Attempted(visits(i)).answer
    ensures authenticated ==> |Senders(tried, visits)| <= 1
  {
    hide FirstAnswer, Attempted, VisitOk, Senders, AllValid, Distinct, TargetFault, Tried, Reached, Admissions, Finished;
    tried, passed, late := [], 0, false;
    r := Error(NodeUnavailable);
    ghost var admits, was := Admissions(targets, clock), Finished(targets);
    ReachedNone(targets, clock, visits);
    TriedNone(admits, visits, authenticated);
    var n := 0;
    while n < |targets|
      invariant n <= |targets| && passed == |tried| && !late
      invariant forall i :: 0 <= i < n ==> clock(i) < deadline
      invariant AllValid(targets, c) && Tried(tried, admits, n, |tried|, visits, authenticated)
      invariant Reached(targets, n, clock, visits, admits, was)
      invariant r == if tried == [] then Error(NodeUnavailable) else Attempted(visits(tried[|tried| - 1])).answer
    {
      if clock(n) >= deadline {
        r, late := Error(Timeout), true;
        break;
      }
      var admitted := ServeAt(targets, n, c, clock, visits, admits, was);
      TriedSnoc(tried, admits, n, visits, authenticated);
      n := n + 1;
      if admitted {
        var execution := Attempted(visits(n - 1));
        var stop := !execution.notExecuted && authenticated;
        r, tried := execution.answer, tried + [n - 1];
        if !TargetFault(execution.answer) || stop {
          break;
        }
        passed := passed + 1;
      }
    }
    reach := n;
    forall i: nat | FirstAnswer(admits, clock, deadline, visits, authenticated, i) ensures r == Attempted(visits(i)).answer {
      FirstAnswerDecides(tried, admits, passed, reach, late, clock, deadline, visits, authenticated, i);
    }
    if authenticated {
      AtMostOneSender(tried, admits, reach, passed, visits);
    }
  }

  lemma ReachedNone(targets: seq<Target>, clock: nat -> nat, visits: nat -> Visit)
    ensures Reached(targets, 0, clock, visits, Admissions(targets, clock), Finished(targets))
  {}

  lemma TriedNone(admits: seq<bool>, visits: nat -> Visit, authenticated: bool)
    ensures Tried([], admits, 0, 0, visits, authenticated)
  {}

  /** The call ends with the first target that admits it and does not pass it on, if it is reached in time. */
  lemma FirstAnswerDecides(tried: seq<nat>, admits: seq<bool>, passed: nat, reach: nat, late: bool,
                           clock: nat -> nat, deadline: nat, visits: nat -> Visit, authenticated: bool, i: nat)
    requires |tried| <= passed + 1 && Tried(tried, admits, reach, passed, visits, authenticated)
    requires Stopped(tried, passed, reach, |admits|, late, clock, deadline, visits, authenticated)
    requires FirstAnswer(admits, clock, deadline, visits, authenticated, i)
    ensures !late && tried != [] && tried[|tried| - 1] == i
  {
    hide FailsOver;
    assert tried != [] ==> tried[|tried| - 1] in tried;
    if reach <= i && passed < |tried| {
      assert false;
    }
    assert i in tried;
    var k :| 0 <= k < |tried| && tried[k] == i;
    assert k == passed;
  }

  /** When every target refuses the call or passes it on, in time, all that admit it were tried. */
  lemma AllFailOver(tried: seq<nat>, admits: seq<bool>, passed: nat, reach: nat, total: nat, late: bool,
                    clock: nat -> nat, deadline: nat, visits: nat -> Visit, authenticated: bool)
    requires |tried| <= passed + 1 && total == |admits| && Tried(tried, admits, reach, passed, visits, authenticated)
    requires Stopped(tried, passed, reach, total, late, clock, deadline, visits, authenticated)
    requires forall j :: 0 <= j < total ==> clock(j) < deadline && (!admits[j] || FailsOver(visits(j), authenticated))
    ensures !late && reach == total && forall i :: 0 <= i < total ==> (i in tried <==> admits[i])
  {
    hide FailsOver;
    assert tried != [] ==> tried[|tried| - 1] in tried;
    if passed < |tried| {
      assert false;
    }
  }

  /** A call that reaches the game at each target and whose answers are all lost. */
  function LostAnswer(): Visit {
    Remote(Lost(BrokenReply), None, true,
           Course(true, true, None, None, None, true, true, None, None, None, true, false, None, None, PeerExecution.Success(""), None))
  }

  /** An anonymous call moves on after any target fault, so it may be sent by several targets. */
  lemma AnonymousMayRepeat()
    ensures
      var visits := (_: nat) => LostAnswer();
      && (forall i :: 0 <= i < 2 ==> VisitOk(visits(i)))
      && Tried([0, 1], [true, true], 2, 2, visits, false) && Senders([0, 1], visits) == {0, 1}
  {
    var visits := (_: nat) => LostAnswer();
    assert Attempted(LostAnswer()) == Attempt(true, Error(Transport), false);
    assert forall i :: 0 <= i < 2 ==> Attempted(visits([0, 1][i])).sent;
  }
}
