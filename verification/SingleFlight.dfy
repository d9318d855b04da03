/** Shared execution of identical in-flight reads, as the interleaved steps of its callers. */
module SingleFlight {
  type Key = nat
  /** An outcome, errors included. */
  type Value = nat

  /** What a caller is doing. `Leaving` is a cancelled caller that has let go of its registration but
      not yet of the cell; `ran` says whether it was running its fetch. */
  datatype Phase = Waiting | Running | Fetched(value: Value) | Leaving(ran: bool) | Done(value: Value) | Gone

  datatype Caller = Caller(key: Key, cell: nat, leader: bool, released: bool, phase: Phase, joined: nat)

  /** `early` is recorded when the outcome is published while the registration is still in the map. */
  datatype Cell = Empty | Busy(caller: nat) | Ready(value: Value, at: nat, early: bool)

  /** `owners` has the caller that created each cell. */
  datatype World = World(inflight: map<Key, nat>, cells: seq<Cell>, owners: seq<nat>, callers: seq<Caller>, clock: nat)

  datatype Label =
    | Arrive(key: Key)
    | Start(caller: nat)
    | FetchDone(caller: nat, value: Value)
    | Publish(caller: nat)
    | Read(caller: nat)
    | Release(caller: nat)
    | Cancel(caller: nat)
    | Leave(caller: nat)

  // ---- Steps ----

  function Tick(w: World): World {
    w.(clock := w.clock + 1)
  }

  function Arrived(w: World, key: Key): World {
    var id := |w.callers|;
    if key in w.inflight then
      w.(callers := w.callers + [Caller(key, w.inflight[key], false, true, Waiting, w.clock)])
    else
      w.(inflight := w.inflight[key := |w.cells|],
         cells := w.cells + [Empty],
         owners := w.owners + [id],
         callers := w.callers + [Caller(key, |w.cells|, true, false, Waiting, w.clock)])
  }

  /** Remove the entry this registration inserted, once. */
  function Unmapped(w: World, c: nat): map<Key, nat>
    requires c < |w.callers|
  {
    var caller := w.callers[c];
    if !caller.released && caller.key in w.inflight && w.inflight[caller.key] == caller.cell then w.inflight - {caller.key}
    else w.inflight
  }

  function Moved(w: World, c: nat, phase: Phase, release: bool): World
    requires c < |w.callers|
  {
    var caller := w.callers[c];
    w.(inflight := if release then Unmapped(w, c) else w.inflight,
       callers := w.callers[c := caller.(phase := phase, released := caller.released || release)])
  }

  function WithCell(w: World, x: nat, cell: Cell): World {
    if x < |w.cells| then w.(cells := w.cells[x := cell]) else w
  }

  /** One step; a label that is not enabled changes nothing but the clock. */
  function Step(w: World, l: Label): World {
    Tick(if l.Arrive? then Arrived(w, l.key) else if l.caller < |w.callers| then Acted(w, l) else w)
  }

  function CellOf(w: World, c: nat): Cell
    requires c < |w.callers|
  {
    if w.callers[c].cell < |w.cells| then w.cells[w.callers[c].cell] else Empty
  }

  predicate OwnerReleased(w: World, x: nat) {
    x < |w.owners| && w.owners[x] < |w.callers| ==> w.callers[w.owners[x]].released
  }

  function Acted(w: World, l: Label): World
    requires !l.Arrive? && l.caller < |w.callers|
  {
    var c := l.caller;
    var me := w.callers[c];
    match l
    case Start(_) =>
      if me.phase.Waiting? && CellOf(w, c).Empty? then WithCell(Moved(w, c, Running, false), me.cell, Busy(c)) else w
    case FetchDone(_, v) =>
      if me.phase.Running? then Moved(w, c, Fetched(v), me.leader) else w
    case Publish(_) =>
      if me.phase.Fetched?
      then WithCell(Moved(w, c, Done(me.phase.value), false), me.cell, Ready(me.phase.value, w.clock, !OwnerReleased(w, me.cell)))
      else w
    case Read(_) =>
      if me.phase.Waiting? && CellOf(w, c).Ready? then Moved(w, c, Done(CellOf(w, c).value), false) else w
    case Release(_) =>
      if me.phase.Done? then Moved(w, c, me.phase, true) else w
    case Cancel(_) =>
      if me.phase.Waiting? || me.phase.Running? then Moved(w, c, Leaving(me.phase.Running?), true) else w
    case Leave(_) =>
      if !me.phase.Leaving? then w
      else if me.phase.ran then WithCell(Moved(w, c, Gone, false), me.cell, Empty)
      else Moved(w, c, Gone, false)
  }

  function Run(w: World, labels: seq<Label>): World {
    if labels == [] then w else Step(Run(w, labels[..|labels| - 1]), labels[|labels| - 1])
  }

  const IDLE := World(map[], [], [], [], 0)

  // ---- The invariant ----

  /** The caller holds its cell. */
  predicate Holds(p: Phase) {
    p.Running? || p.Fetched? || p == Leaving(true)
  }

  ghost predicate CallerOk(w: World, c: nat)
    requires c < |w.callers|
  {
    var me := w.callers[c];
    && me.cell < |w.cells| && me.cell < |w.owners| && w.owners[me.cell] < |w.callers|
    && w.callers[w.owners[me.cell]].key == me.key
    && (me.leader <==> w.owners[me.cell] == c)
    && (!me.leader ==> me.released)
    && (me.leader && me.phase.Fetched? ==> me.released)
    && me.joined < w.clock
    && (Holds(me.phase) ==> w.cells[me.cell] == Busy(c))
    && (me.phase.Done? ==> w.cells[me.cell].Ready? && w.cells[me.cell].value == me.phase.value)
    && (w.cells[me.cell].Ready? ==> me.joined < w.cells[me.cell].at || w.cells[me.cell].early)
  }

  ghost predicate CellOk(w: World, x: nat)
    requires x < |w.cells|
  {
    && x < |w.owners| && w.owners[x] < |w.callers|
    && w.callers[w.owners[x]].cell == x
    && (!w.callers[w.owners[x]].released ==> Lookup(w, w.callers[w.owners[x]].key, x))
    && (w.cells[x].Busy? ==> HeldBy(w, w.cells[x].caller, x))
    && (w.cells[x].Ready? ==> w.cells[x].early || w.callers[w.owners[x]].released)
  }

  predicate HeldBy(w: World, c: nat, x: nat) {
    c < |w.callers| && w.callers[c].cell == x && Holds(w.callers[c].phase)
  }

  predicate Lookup(w: World, k: Key, x: nat) {
    k in w.inflight && w.inflight[k] == x
  }

  ghost predicate EntryOk(w: World, k: Key)
    requires k in w.inflight
  {
    var x := w.inflight[k];
    && x < |w.cells| && x < |w.owners| && w.owners[x] < |w.callers|
    && w.callers[w.owners[x]].key == k && !w.callers[w.owners[x]].released
  }

  ghost predicate Inv(w: World) {
    && |w.owners| == |w.cells|
    && (forall c :: 0 <= c < |w.callers| ==> CallerOk(w, c))
    && (forall x :: 0 <= x < |w.cells| ==> CellOk(w, x))
    && (forall k :: k in w.inflight ==> EntryOk(w, k))
  }

  lemma ArriveKeeps(w: World, key: Key)
    requires Inv(w)
    ensures Inv(Step(w, Arrive(key)))
  {
    var w' := Step(w, Arrive(key));
    if key in w.inflight {
      assert EntryOk(w, key);
      assert CellOk(w, w.inflight[key]);
    }
    forall c | 0 <= c < |w'.callers| ensures CallerOk(w', c) {
      if c < |w.callers| {
        assert CallerOk(w, c);
      }
    }
    forall x | 0 <= x < |w'.cells| ensures CellOk(w', x) {
      if x < |w.cells| {
        assert CellOk(w, x);
      }
    }
    forall k | k in w'.inflight ensures EntryOk(w', k) {
      if k in w.inflight {
        assert EntryOk(w, k);
      }
    }
  }

  /** A caller's move, with the new content of its cell. */
  function Changed(w: World, c: nat, phase: Phase, release: bool, cell: Cell): World
    requires c < |w.callers|
  {
    Tick(WithCell(Moved(w, c, phase, release), w.callers[c].cell, cell))
  }

  /** The moves that are allowed: only the holder of a cell changes it, and a published outcome stays. */
  ghost predicate Proper(w: World, c: nat, phase: Phase, release: bool, cell: Cell)
    requires c < |w.callers|
  {
    var me, now := w.callers[c], CellOf(w, c);
    && (cell == now || now.Empty? || now == Busy(c))
    && (Holds(phase) <==> cell == Busy(c))
    && (cell.Busy? ==> cell == now || cell == Busy(c))
    && (phase.Done? ==> cell.Ready? && cell.value == phase.value)
    && (cell.Ready? && cell != now ==> cell.at == w.clock && cell.early == !OwnerReleased(w, me.cell))
    && (phase.Fetched? && me.leader ==> release || me.released)
  }

  lemma ChangedCaller(w: World, c: nat, phase: Phase, release: bool, cell: Cell, d: nat)
    requires Inv(w) && c < |w.callers| && Proper(w, c, phase, release, cell) && d < |w.callers|
    ensures CallerOk(Changed(w, c, phase, release, cell), d)
  {
    assert CallerOk(w, c) && CallerOk(w, d);
    assert CellOk(w, w.callers[c].cell);
  }

  lemma ChangedCell(w: World, c: nat, phase: Phase, release: bool, cell: Cell, x: nat)
    requires Inv(w) && c < |w.callers| && Proper(w, c, phase, release, cell) && x < |w.cells|
    ensures CellOk(Changed(w, c, phase, release, cell), x)
  {
    assert CallerOk(w, c) && CellOk(w, x);
    assert CellOk(w, w.callers[c].cell);
  }

  lemma ChangedEntry(w: World, c: nat, phase: Phase, release: bool, cell: Cell, k: Key)
    requires Inv(w) && c < |w.callers| && k in Changed(w, c, phase, release, cell).inflight
    ensures EntryOk(Changed(w, c, phase, release, cell), k)
  {
    assert CallerOk(w, c) && EntryOk(w, k);
    assert CellOk(w, w.callers[c].cell) && CellOk(w, w.inflight[k]);
  }

  lemma ChangedKeeps(w: World, c: nat, phase: Phase, release: bool, cell: Cell)
    requires Inv(w) && c < |w.callers| && Proper(w, c, phase, release, cell)
    ensures Inv(Changed(w, c, phase, release, cell))
  {
    hide CallerOk, CellOk, EntryOk, Proper, Unmapped;
    var w' := Changed(w, c, phase, release, cell);
    forall d | 0 <= d < |w'.callers| ensures CallerOk(w', d) { ChangedCaller(w, c, phase, release, cell, d); }
    forall x | 0 <= x < |w'.cells| ensures CellOk(w', x) { ChangedCell(w, c, phase, release, cell, x); }
    forall k | k in w'.inflight ensures EntryOk(w', k) { ChangedEntry(w, c, phase, release, cell, k); }
  }

  lemma TickKeeps(w: World)
    requires Inv(w)
    ensures Inv(Tick(w))
  {
    hide Holds;
    forall c | 0 <= c < |w.callers| ensures CallerOk(Tick(w), c) { assert CallerOk(w, c); }
    forall x | 0 <= x < |w.cells| ensures CellOk(Tick(w), x) { assert CellOk(w, x); }
    forall k | k in w.inflight ensures EntryOk(Tick(w), k) { assert EntryOk(w, k); }
  }

  /** What a label asks for, when it is enabled. */
  lemma ActedIsProper(w: World, l: Label)
    requires Inv(w) && !l.Arrive? && l.caller < |w.callers|
    ensures Acted(w, l) == w || exists phase, release, cell ::
      Proper(w, l.caller, phase, release, cell) && Step(w, l) == Changed(w, l.caller, phase, release, cell)
  {
    var c := l.caller;
    var me, now := w.callers[c], CellOf(w, c);
    assert CallerOk(w, c);
    assert CellOk(w, me.cell);
    assert w.cells[me.cell := now] == w.cells;
    if Acted(w, l) != w {
      match l
      case Start(_) => Witness(w, l, Running, false, Busy(c));
      case FetchDone(_, v) => Witness(w, l, Fetched(v), me.leader, now);
      case Publish(_) => Witness(w, l, Done(me.phase.value), false, Ready(me.phase.value, w.clock, !OwnerReleased(w, me.cell)));
      case Read(_) => Witness(w, l, Done(now.value), false, now);
      case Release(_) => Witness(w, l, me.phase, true, now);
      case Cancel(_) => Witness(w, l, Leaving(me.phase.Running?), true, now);
      case Leave(_) => Witness(w, l, Gone, false, if me.phase.ran then Empty else now);
    }
  }

  lemma Witness(w: World, l: Label, phase: Phase, release: bool, cell: Cell)
    requires !l.Arrive? && l.caller < |w.callers|
    requires Proper(w, l.caller, phase, release, cell) && Step(w, l) == Changed(w, l.caller, phase, release, cell)
    ensures exists phase, release, cell ::
      Proper(w, l.caller, phase, release, cell) && Step(w, l) == Changed(w, l.caller, phase, release, cell)
  {
    hide Proper, Step, Changed;
  }

  lemma StepKeeps(w: World, l: Label)
    requires Inv(w)
    ensures Inv(Step(w, l))
  {
    hide Inv, Acted, Arrived, Proper, Changed;
    if l.Arrive? {
      ArriveKeeps(w, l.key);
    } else if l.caller < |w.callers| {
      ActedIsProper(w, l);
      if Acted(w, l) == w {
        TickKeeps(w);
      } else {
        var phase, release, cell :|
          Proper(w, l.caller, phase, release, cell) && Step(w, l) == Changed(w, l.caller, phase, release, cell);
        ChangedKeeps(w, l.caller, phase, release, cell);
      }
    } else {
      TickKeeps(w);
    }
  }

  lemma {:induction false} RunKeeps(w: World, labels: seq<Label>)
    requires Inv(w)
    ensures Inv(Run(w, labels))
  {
    hide Inv, Step;
    if labels != [] {
      RunKeeps(w, labels[..|labels| - 1]);
      StepKeeps(Run(w, labels[..|labels| - 1]), labels[|labels| - 1]);
    }
  }

  lemma Always(labels: seq<Label>)
    ensures Inv(Run(IDLE, labels))
  {
    hide Run;
    RunKeeps(IDLE, labels);
  }

  // ---- What every interleaving guarantees ----

  /** At most one fetch runs per cell. */
  lemma OneFetch(labels: seq<Label>, c: nat, d: nat)
    ensures
      var w := Run(IDLE, labels);
      && c < |w.callers| && d < |w.callers| && w.callers[c].cell == w.callers[d].cell
      && w.callers[c].phase.Running? && w.callers[d].phase.Running?
      ==> c == d
  {
    Always(labels);
    var w := Run(IDLE, labels);
    assert c < |w.callers| ==> CallerOk(w, c);
    assert d < |w.callers| ==> CallerOk(w, d);
  }

  predicate Registered(w: World, c: nat, k: Key) {
    c < |w.callers| && w.callers[c].key == k && !w.callers[c].released
  }

  /** Map entries and unreleased registrations correspond one to one. */
  lemma EntriesAreRegistrations(labels: seq<Label>, k: Key)
    ensures
      var w := Run(IDLE, labels);
      && (k in w.inflight <==> exists c :: Registered(w, c, k))
      && (forall c, d :: Registered(w, c, k) && Registered(w, d, k) ==> c == d)
  {
    hide Run;
    Always(labels);
    var w := Run(IDLE, labels);
    if k in w.inflight {
      assert EntryOk(w, k);
      assert Registered(w, w.owners[w.inflight[k]], k);
    }
    forall c | 0 <= c < |w.callers| && !w.callers[c].released
      ensures Lookup(w, w.callers[c].key, w.callers[c].cell) && w.owners[w.callers[c].cell] == c
    {
      assert CallerOk(w, c);
      assert CellOk(w, w.callers[c].cell);
    }
  }

  /** A published outcome stays. */
  lemma PublishedStays(labels: seq<Label>, l: Label, x: nat)
    requires x < |Run(IDLE, labels).cells| && Run(IDLE, labels).cells[x].Ready?
    ensures x < |Step(Run(IDLE, labels), l).cells| && Step(Run(IDLE, labels), l).cells[x] == Run(IDLE, labels).cells[x]
  {
    hide Run, Acted, Inv, Proper, Changed;
    Always(labels);
    var w := Run(IDLE, labels);
    if !l.Arrive? && l.caller < |w.callers| && Acted(w, l) != w {
      ActedIsProper(w, l);
      var phase, release, cell :|
        Proper(w, l.caller, phase, release, cell) && Step(w, l) == Changed(w, l.caller, phase, release, cell);
      ChangedStays(w, l.caller, phase, release, cell, x);
    }
  }

  lemma ChangedStays(w: World, c: nat, phase: Phase, release: bool, cell: Cell, x: nat)
    requires Inv(w) && c < |w.callers| && Proper(w, c, phase, release, cell) && x < |w.cells| && w.cells[x].Ready?
    ensures x < |Changed(w, c, phase, release, cell).cells| && Changed(w, c, phase, release, cell).cells[x] == w.cells[x]
  {
    hide Unmapped, OwnerReleased;
    assert CallerOk(w, c);
  }

  /** Callers of one cell that finished got the same outcome. */
  lemma SameOutcome(labels: seq<Label>, c: nat, d: nat)
    ensures
      var w := Run(IDLE, labels);
      && c < |w.callers| && d < |w.callers| && w.callers[c].cell == w.callers[d].cell
      && w.callers[c].phase.Done? && w.callers[d].phase.Done?
      ==> w.callers[c].phase.value == w.callers[d].phase.value
  {
    Always(labels);
    var w := Run(IDLE, labels);
    assert c < |w.callers| ==> CallerOk(w, c);
    assert d < |w.callers| ==> CallerOk(w, d);
  }

  /** An outcome published once the registration is gone (by the registering caller, or by a waiter
      promoted after its cancellation) reaches only callers that joined before it existed. */
  lemma OnlyEarlierCallers(labels: seq<Label>, c: nat)
    ensures
      var w := Run(IDLE, labels);
      c < |w.callers| && CellOf(w, c).Ready? && !CellOf(w, c).early ==> w.callers[c].joined < CellOf(w, c).at
  {
    Always(labels);
    var w := Run(IDLE, labels);
    assert c < |w.callers| ==> CallerOk(w, c);
  }

  /** Who publishes early: a joiner, while the registering caller has not released. */
  lemma EarlyExactly(labels: seq<Label>, c: nat)
    requires
      var w := Run(IDLE, labels);
      c < |w.callers| && w.callers[c].phase.Fetched?
    ensures
      var w := Run(IDLE, labels);
      var cell := w.callers[c].cell;
      && cell < |w.owners| && w.owners[cell] < |w.callers|
      && CellOf(Step(w, Publish(c)), c).Ready?
      && (CellOf(Step(w, Publish(c)), c).early <==> w.owners[cell] != c && !w.callers[w.owners[cell]].released)
  {
    hide Run;
    Always(labels);
    var w := Run(IDLE, labels);
    assert CallerOk(w, c);
  }

  /** And then a caller that arrives after the outcome does receive it. */
  lemma LateCaller(labels: seq<Label>, x: nat)
    requires
      var w := Run(IDLE, labels);
      x < |w.cells| && w.cells[x].Ready? && x < |w.owners| && w.owners[x] < |w.callers| && !w.callers[w.owners[x]].released
    ensures
      var w := Run(IDLE, labels);
      var key, late := w.callers[w.owners[x]].key, |w.callers|;
      var w' := Step(Step(w, Arrive(key)), Read(late));
      && late < |w'.callers| && w'.callers[late].phase == Done(w.cells[x].value)
      && w'.callers[late].joined >= w.cells[x].at
  {
    hide Run;
    Always(labels);
    RunClock(labels, x);
    var w := Run(IDLE, labels);
    assert CellOk(w, x);
  }

  /** Outcomes are never published in the future, and a published one stays. */
  lemma {:induction false} RunClock(labels: seq<Label>, x: nat)
    ensures
      var w := Run(IDLE, labels);
      x < |w.cells| && w.cells[x].Ready? ==> w.cells[x].at <= w.clock
  {
    if labels != [] {
      hide Unmapped;
      RunClock(labels[..|labels| - 1], x);
    }
  }

  /** The order in which the second caller overtakes the first. */
  lemma Overtaken(v: Value)
    ensures
      var w := Run(IDLE, [Arrive(0), Arrive(0), Start(1), FetchDone(1, v), Publish(1)]);
      |w.cells| == 1 && w.cells[0] == Ready(v, 4, true) && 0 in w.inflight
  {
    hide Run;
    var l1 := [] + [Arrive(0)];
    var l2 := l1 + [Arrive(0)];
    var l3 := l2 + [Start(1)];
    var l4 := l3 + [FetchDone(1, v)];
    var l5 := l4 + [Publish(1)];
    RunSnoc([], Arrive(0));
    RunSnoc(l1, Arrive(0));
    RunSnoc(l2, Start(1));
    RunSnoc(l3, FetchDone(1, v));
    RunSnoc(l4, Publish(1));
    assert l5 == [Arrive(0), Arrive(0), Start(1), FetchDone(1, v), Publish(1)];
    assert Run(IDLE, l2).callers ==
      [Caller(0, 0, true, false, Waiting, 0), Caller(0, 0, false, true, Waiting, 1)];
  }

  lemma RunSnoc(labels: seq<Label>, l: Label)
    ensures Run(IDLE, labels + [l]) == Step(Run(IDLE, labels), l)
    ensures Run(IDLE, []) == IDLE
  {
    hide Step;
    assert (labels + [l])[..|labels|] == labels;
  }

  // ---- That calls get on ----

  /** A caller of a key that nobody is running opens a cell of its own; one of a key in flight joins. */
  lemma ArrivalLaw(labels: seq<Label>, key: Key)
    ensures
      var w, id := Run(IDLE, labels), |Run(IDLE, labels).callers|;
      var w' := Step(w, Arrive(key));
      && |w'.callers| == id + 1 && w'.callers[..id] == w.callers && w'.callers[id].key == key && w'.callers[id].phase == Waiting
      && key in w'.inflight && w'.inflight[key] == w'.callers[id].cell && w'.callers[id].cell < |w'.cells|
      && (key in w.inflight ==> w'.callers[id].cell == w.inflight[key] && w'.cells == w.cells && w'.inflight == w.inflight)
      && (key !in w.inflight ==> w'.callers[id].cell == |w.cells| && w'.cells == w.cells + [Empty] && !w'.callers[id].released)
  {
    hide Run;
    Always(labels);
    var w := Run(IDLE, labels);
    assert key in w.inflight ==> EntryOk(w, key);
  }

  /** A waiting caller whose cell is free runs its fetch; the outcome is published and is the caller's own; a
      caller that registered the cell has left the map by then. */
  lemma Completes(labels: seq<Label>, c: nat, v: Value)
    requires c < |Run(IDLE, labels).callers| && Run(IDLE, labels).callers[c].phase.Waiting? && CellOf(Run(IDLE, labels), c).Empty?
    ensures
      var w := Run(IDLE, labels);
      var w' := Step(Step(Step(w, Start(c)), FetchDone(c, v)), Publish(c));
      && |w'.callers| == |w.callers| && w'.callers[c].phase == Done(v) && CellOf(w', c).Ready? && CellOf(w', c).value == v
      && (w.callers[c].leader ==> w'.callers[c].released && !(w.callers[c].key in w'.inflight && w'.inflight[w.callers[c].key] == w.callers[c].cell))
  {
    hide Run;
    Always(labels);
    var w := Run(IDLE, labels);
    assert CallerOk(w, c);
    assert CellOk(w, w.callers[c].cell);
  }

  /** Whoever waits on a published cell receives its outcome. */
  lemma WaitersReceive(w: World, c: nat)
    requires c < |w.callers| && w.callers[c].phase.Waiting? && CellOf(w, c).Ready?
    ensures Step(w, Read(c)).callers[c].phase == Done(CellOf(w, c).value) && Step(w, Read(c)).cells == w.cells
  {}

  /** When the running caller is cancelled, its entry leaves the map and the cell is free for a waiter. */
  lemma CancellationFrees(labels: seq<Label>, c: nat)
    requires c < |Run(IDLE, labels).callers| && Run(IDLE, labels).callers[c].phase.Running?
    ensures
      var w := Run(IDLE, labels);
      var w' := Step(Step(w, Cancel(c)), Leave(c));
      && |w'.callers| == |w.callers| && w'.callers[c].phase == Gone && w'.callers[c].released && CellOf(w', c).Empty?
      && forall d :: 0 <= d < |w.callers| && d != c ==> w'.callers[d] == w.callers[d]
  {
    hide Run;
    Always(labels);
    var w := Run(IDLE, labels);
    assert CallerOk(w, c);
  }
}
