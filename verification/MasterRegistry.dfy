/** The committed publication chain of a Master directory: snapshots linked to their predecessors
    behind the CURRENT pointer, and a retention boundary behind which snapshots are removed. */
module MasterRegistry {
  import opened Common

  /** A snapshot directory name. */
  datatype Name = Name(text: string)

  /** `publication.json`: absent on legacy snapshots. */
  datatype Publication = Publication(previous: Option<Name>)
  datatype Snapshot = Snapshot(publication: Option<Publication>)

  /** What the directory holds: installed snapshots, CURRENT and `retention.json`. */
  datatype Root = Root(snapshots: map<Name, Snapshot>, current: Option<Name>, boundary: Option<Name>)

  /** A directory with its history: every committed snapshot, oldest first; the index below which
      snapshots are gone; the index of the boundary (0 when none is recorded). */
  datatype Registry = Registry(root: Root, chain: seq<Name>, low: nat, edge: nat)

  predicate Distinct(names: seq<Name>) {
    forall i, j :: 0 <= i < j < |names| ==> names[i] != names[j]
  }

  predicate Present(g: Registry, i: nat)
    requires i < |g.chain|
  {
    g.chain[i] in g.root.snapshots
  }

  predicate LegacyRoot(g: Registry) {
    g.chain != [] && Present(g, 0) && g.root.snapshots[g.chain[0]].publication.None?
  }

  /** The record of a surviving snapshot names its chain predecessor. */
  predicate Linked(g: Registry, i: nat)
    requires i < |g.chain| && Present(g, i)
  {
    var record := g.root.snapshots[g.chain[i]].publication;
    if i == 0 then record.None? || record.value.previous.None?
    else record == Some(Publication(Some(g.chain[i - 1])))
  }

  ghost predicate Inv(g: Registry) {
    && Distinct(g.chain)
    && g.root.current == (if g.chain == [] then None else Some(g.chain[|g.chain| - 1]))
    && g.low <= g.edge
    && (g.chain == [] ==> g.edge == 0 && g.root.boundary.None?)
    && (g.chain != [] ==> g.edge < |g.chain|)
    && (g.root.boundary.None? ==> g.edge == 0)
    && (g.root.boundary.Some? ==> g.root.boundary.value == g.chain[g.edge])
    && (forall i :: g.low <= i < |g.chain| ==> Present(g, i))
    && (forall i :: 0 < i < g.low ==> !Present(g, i))
    && (0 < g.low && Present(g, 0) ==> LegacyRoot(g))
    && (forall i :: 0 <= i < |g.chain| && Present(g, i) ==> Linked(g, i))
  }

  /** What writers may do between two reads: publish, move the boundary to newer snapshots, remove. */
  ghost predicate Evolves(a: Registry, b: Registry) {
    && a.chain <= b.chain
    && a.low <= b.low && a.edge <= b.edge
    && (a.root.boundary.Some? ==> b.root.boundary.Some?)
    && (LegacyRoot(a) ==> LegacyRoot(b))
    && (forall i :: 0 <= i < |a.chain| && Present(b, i) ==>
          Present(a, i) && b.root.snapshots[a.chain[i]] == a.root.snapshots[a.chain[i]])
  }

  lemma EvolvesTrans(a: Registry, b: Registry, c: Registry)
    requires Evolves(a, b) && Evolves(b, c)
    ensures Evolves(a, c)
  {
    forall i | 0 <= i < |a.chain| && Present(c, i)
      ensures Present(a, i) && c.root.snapshots[a.chain[i]] == a.root.snapshots[a.chain[i]]
    {
      assert a.chain[i] == b.chain[i] == c.chain[i];
    }
  }

  lemma EvolvesRefl(a: Registry)
    ensures Evolves(a, a)
  {}

  // ---- The writer's atomic directory changes ----

  /** A snapshot directory is renamed into place; CURRENT does not name it yet. */
  function Installed(g: Registry, name: Name): Registry {
    g.(root := g.root.(snapshots := g.root.snapshots[name := Snapshot(Some(Publication(g.root.current)))]))
  }

  /** CURRENT is replaced. */
  function Switched(g: Registry, name: Name): Registry {
    g.(root := g.root.(current := Some(name)), chain := g.chain + [name])
  }

  /** `retention.json` is replaced. */
  function Marked(g: Registry, edge: nat): Registry
    requires edge < |g.chain|
  {
    g.(root := g.root.(boundary := Some(g.chain[edge])), edge := edge)
  }

  /** Index of the oldest snapshot a pass may remove: a legacy root is never removed. */
  function FirstRemovable(g: Registry): nat {
    if g.low == 0 && LegacyRoot(g) then 1 else g.low
  }

  /** The oldest removable snapshot is renamed away. */
  function Removed(g: Registry): Registry
    requires FirstRemovable(g) < |g.chain|
  {
    var i := FirstRemovable(g);
    g.(root := g.root.(snapshots := g.root.snapshots - {g.chain[i]}), low := i + 1)
  }

  lemma InstallKeeps(g: Registry, name: Name)
    requires Inv(g) && name !in g.chain && name !in g.root.snapshots
    ensures Inv(Installed(g, name)) && Evolves(g, Installed(g, name))
  {
    var h := Installed(g, name);
    assert forall i :: 0 <= i < |g.chain| ==> Present(h, i) == Present(g, i);
    assert forall i :: 0 <= i < |g.chain| && Present(g, i) ==> Linked(h, i) == Linked(g, i);
  }

  lemma SwitchSame(g: Registry, name: Name, i: nat)
    requires i < |g.chain|
    ensures Switched(g, name).chain[i] == g.chain[i]
    ensures Present(Switched(g, name), i) == Present(g, i)
    ensures Present(g, i) ==> Linked(Switched(g, name), i) == Linked(g, i)
    ensures LegacyRoot(Switched(g, name)) == LegacyRoot(g)
  {}

  lemma SwitchKeeps(g: Registry, name: Name)
    requires Inv(g) && name !in g.chain && name in g.root.snapshots
    requires g.root.snapshots[name] == Snapshot(Some(Publication(g.root.current)))
    ensures Inv(Switched(g, name)) && Evolves(g, Switched(g, name))
  {
    hide Linked, LegacyRoot, Present;
    var h := Switched(g, name);
    var n := |g.chain|;
    forall i | 0 <= i < n
      ensures h.chain[i] == g.chain[i] && Present(h, i) == Present(g, i)
      ensures Present(g, i) ==> Linked(h, i) == Linked(g, i)
      ensures LegacyRoot(h) == LegacyRoot(g)
    {
      SwitchSame(g, name, i);
    }
    NewestLinked(g, name);
    assert Distinct(h.chain);
  }

  lemma NewestLinked(g: Registry, name: Name)
    requires Inv(g) && name in g.root.snapshots
    requires g.root.snapshots[name] == Snapshot(Some(Publication(g.root.current)))
    ensures Present(Switched(g, name), |g.chain|) && Linked(Switched(g, name), |g.chain|)
    ensures g.chain == [] ==> !LegacyRoot(g)
  {}

  lemma MarkKeeps(g: Registry, edge: nat)
    requires Inv(g) && g.edge <= edge < |g.chain|
    ensures Inv(Marked(g, edge)) && Evolves(g, Marked(g, edge))
  {
    var h := Marked(g, edge);
    assert forall i :: 0 <= i < |g.chain| ==> Present(h, i) == Present(g, i);
    assert forall i :: 0 <= i < |g.chain| && Present(g, i) ==> Linked(h, i) == Linked(g, i);
  }

  lemma RemoveKeeps(g: Registry)
    requires Inv(g) && FirstRemovable(g) < g.edge
    ensures Inv(Removed(g)) && Evolves(g, Removed(g))
    ensures FirstRemovable(Removed(g)) == FirstRemovable(g) + 1
    ensures Removed(g).chain == g.chain && Removed(g).edge == g.edge && LegacyRoot(Removed(g)) == LegacyRoot(g)
  {
    var h := Removed(g);
    var r := FirstRemovable(g);
    assert forall i :: 0 <= i < |g.chain| ==> Present(h, i) == (i != r && Present(g, i));
    assert forall i :: 0 <= i < |g.chain| && Present(h, i) ==> Linked(h, i) == Linked(g, i);
    assert 0 < g.low && Present(g, 0) ==> LegacyRoot(g);
  }

  // ---- A retention pass ----

  /** The boundary a pass settles on: the keep-th installation, or a newer recorded one. */
  function Target(g: Registry, keep: nat): nat {
    if |g.chain| > keep && |g.chain| - keep > g.edge then |g.chain| - keep else g.edge
  }

  function RemoveMany(g: Registry, n: nat): Registry
    requires Inv(g) && FirstRemovable(g) + n <= g.edge
    ensures Inv(RemoveMany(g, n)) && Evolves(g, RemoveMany(g, n))
    ensures RemoveMany(g, n).chain == g.chain && RemoveMany(g, n).edge == g.edge
    ensures FirstRemovable(RemoveMany(g, n)) == FirstRemovable(g) + n
    ensures LegacyRoot(RemoveMany(g, n)) == LegacyRoot(g)
  {
    if n == 0 then g
    else
      var h := RemoveMany(g, n - 1);
      RemoveKeeps(h);
      EvolvesTrans(g, h, Removed(h));
      Removed(h)
  }

  function Min(a: nat, b: nat): nat {
    if a <= b then a else b
  }

  /** The directory after a pass that removes at most `budget` snapshots. */
  function Pruned(g: Registry, keep: nat, budget: nat): Registry
    requires Inv(g) && keep > 0
  {
    var edge := Target(g, keep);
    if FirstRemovable(g) < edge then
      MarkKeeps(g, edge);
      RemoveMany(Marked(g, edge), Min(budget, edge - FirstRemovable(g)))
    else g
  }

  function Passes(g: Registry, keep: nat, budget: nat, n: nat): (h: Registry)
    requires Inv(g) && keep > 0
    ensures Inv(h) && Evolves(g, h)
    ensures h.chain == g.chain && Target(h, keep) == Target(g, keep) && LegacyRoot(h) == LegacyRoot(g)
  {
    if n == 0 then g
    else
      var h := Passes(g, keep, budget, n - 1);
      PassKeeps(h, keep, budget);
      EvolvesTrans(g, h, Pruned(h, keep, budget));
      Pruned(h, keep, budget)
  }

  lemma PassKeeps(g: Registry, keep: nat, budget: nat)
    requires Inv(g) && keep > 0
    ensures
      var h := Pruned(g, keep, budget);
      && Inv(h) && Evolves(g, h)
      && h.chain == g.chain && Target(h, keep) == Target(g, keep) && LegacyRoot(h) == LegacyRoot(g)
      && FirstRemovable(h) == (if FirstRemovable(g) < Target(g, keep)
                               then FirstRemovable(g) + Min(budget, Target(g, keep) - FirstRemovable(g))
                               else FirstRemovable(g))
  {
    var edge := Target(g, keep);
    if FirstRemovable(g) < edge {
      MarkKeeps(g, edge);
      var m := Marked(g, edge);
      assert LegacyRoot(m) == LegacyRoot(g);
      EvolvesTrans(g, m, Pruned(g, keep, budget));
    } else {
      EvolvesRefl(g);
    }
  }

  lemma {:induction false} PassesProgress(g: Registry, keep: nat, budget: nat, n: nat)
    requires Inv(g) && keep > 0
    ensures
      var h := Passes(g, keep, budget, n);
      FirstRemovable(h) >= Target(g, keep) || FirstRemovable(h) >= FirstRemovable(g) + n * budget
  {
    hide Inv, Evolves, FirstRemovable, Target, LegacyRoot, Pruned;
    if n > 0 {
      PassesProgress(g, keep, budget, n - 1);
      PassKeeps(Passes(g, keep, budget, n - 1), keep, budget);
      assert n * budget == (n - 1) * budget + budget;
    }
  }

  /** Passes reach the retained window: exactly the snapshots from the target boundary on survive,
      besides a legacy root. */
  lemma WindowReached(g: Registry, keep: nat, budget: nat, n: nat)
    requires Inv(g) && keep > 0 && Target(g, keep) > 0 && !TooMany(g, keep)
    requires n * budget >= Target(g, keep) - FirstRemovable(g)
    ensures
      var h := Passes(g, keep, budget, n);
      && h.chain == g.chain
      && forall i :: 0 <= i < |h.chain| ==>
           (Present(h, i) <==> i >= Target(g, keep) || (i == 0 && LegacyRoot(g)))
  {
    PassesProgress(g, keep, budget, n);
    var h := Passes(g, keep, budget, n);
    assert h.low <= h.edge <= Target(h, keep);
    assert FirstRemovable(h) >= Target(g, keep);
    if h.low == 0 {
      assert LegacyRoot(h) && Target(g, keep) == 1;
    }
  }

  // ---- The window, in numbers ----

  /** A pass leaves alone the newest `keep` snapshots that a recorded boundary has not already given up,
      brings nothing back, and never moves a boundary that is newer than they are. */
  lemma PassLaw(g: Registry, keep: nat, budget: nat)
    requires Inv(g) && keep > 0
    ensures
      var h, n := Pruned(g, keep, budget), |g.chain|;
      && h.chain == g.chain && h.root.current == g.root.current
      && (forall i: nat :: i < n && n <= i + keep && g.edge <= i ==> Present(h, i))
      && (forall i: nat :: i < n && Present(h, i) ==> Present(g, i))
      && (g.edge + keep >= n ==> h.edge == g.edge)
      && (g.edge + keep >= n && g.root.boundary.Some? ==> h.root.boundary == g.root.boundary)
  {
    hide Linked, Distinct, LegacyRoot;
    PassKeeps(g, keep, budget);
    PassEdge(g, keep, budget);
    var h := Pruned(g, keep, budget);
    assert Inv(h) && Evolves(g, h);
  }

  lemma PassEdge(g: Registry, keep: nat, budget: nat)
    requires Inv(g) && keep > 0
    ensures
      var h := Pruned(g, keep, budget);
      h == g || (FirstRemovable(g) < Target(g, keep) && h.edge == Target(g, keep))
  {
    if FirstRemovable(g) < Target(g, keep) {
      MarkKeeps(g, Target(g, keep));
      MarkedRemovable(g, Target(g, keep));
    }
  }

  /** From no recorded boundary, and with at most ten thousand snapshots older than the newest `keep`, a
      pass with a positive budget records the oldest of those as the boundary and removes the oldest
      candidates, as many as the budget allows. */
  lemma FirstPassLaw(g: Registry, keep: nat, budget: nat)
    requires Inv(g) && g.root.boundary.None? && 0 < keep < |g.chain| <= keep + 10_000
    ensures
      var h, n := Pruned(g, keep, budget), |g.chain| - keep;
      var first := if LegacyRoot(g) then 1 else 0;
      && !TooMany(g, keep)
      && (first < n ==> h.root.boundary == Some(g.chain[n]))
      && (first >= n ==> h == g)
      && forall i: nat :: i < |g.chain| ==> (Present(h, i) <==> i < first || i >= n || i >= first + budget)
  {
    hide Linked, Distinct;
    PassKeeps(g, keep, budget);
    PassEdge(g, keep, budget);
    var h := Pruned(g, keep, budget);
    assert Inv(h);
    FirstRemovableFacts(h);
  }

  /** And enough passes leave exactly the newest `keep`, besides a legacy root. */
  lemma WindowLaw(g: Registry, keep: nat, budget: nat, n: nat)
    requires Inv(g) && g.root.boundary.None? && 0 < keep < |g.chain| <= keep + 10_000
    requires n * budget >= |g.chain|
    ensures
      var h := Passes(g, keep, budget, n);
      && h.chain == g.chain
      && forall i: nat :: i < |h.chain| ==> (Present(h, i) <==> i + keep >= |h.chain| || (i == 0 && LegacyRoot(g)))
  {
    hide Present, LegacyRoot, Passes;
    assert Target(g, keep) == |g.chain| - keep;
    WindowReached(g, keep, budget, n);
  }

  // ---- The writer ----

  datatype Error = NotFound | Format | Limit | Io
  datatype Outcome<+T> = Ok(value: T) | Err(error: Error)

  const WALK_LIMIT: nat := 10_000

  /** `publication.json` of a snapshot, with the walk's own checks. */
  function ReadPublication(root: Root, name: Name, visited: set<Name>): Outcome<Option<Publication>> {
    if name !in root.snapshots then Ok(None)
    else
      var record := root.snapshots[name].publication;
      if record.Some? && record.value.previous.Some? && record.value.previous.value in visited
      then Err(Format) else Ok(record)
  }

  /** `count` names of the chain, newest first, from index `from` down. */
  function Run(chain: seq<Name>, from: int, count: nat): (r: seq<Name>)
    requires -1 <= from < |chain| && count <= from + 1
    ensures |r| == count
  {
    seq(count, j requires 0 <= j < count => chain[from - j])
  }

  predicate Above(visited: set<Name>, chain: seq<Name>, i: int)
    requires -1 <= i < |chain|
  {
    visited <= set j | i < j < |chain| :: chain[j]
  }

  /** Along the chain the checks pass: a surviving snapshot yields its own record. */
  lemma PublicationOnChain(g: Registry, i: nat, visited: set<Name>)
    requires Inv(g) && i < |g.chain| && Present(g, i)
    requires Above(visited, g.chain, i - 1)
    ensures ReadPublication(g.root, g.chain[i], visited) == Ok(g.root.snapshots[g.chain[i]].publication)
    ensures i > 0 ==> g.root.snapshots[g.chain[i]].publication == Some(Publication(Some(g.chain[i - 1])))
    ensures i == 0 ==> var p := g.root.snapshots[g.chain[0]].publication; p.None? || p.value.previous.None?
  {
    assert Linked(g, i);
  }

  lemma NotAbove(visited: set<Name>, chain: seq<Name>, i: nat)
    requires Distinct(chain) && i < |chain| && Above(visited, chain, i)
    ensures chain[i] !in visited
    ensures Above(visited + {chain[i]}, chain, i - 1)
  {}

  /** A pass stops with an error before changing anything when it meets more than WALK_LIMIT candidates. */
  predicate TooMany(g: Registry, keep: nat) {
    var first, edge := FirstRemovable(g), Target(g, keep);
    edge - first > WALK_LIMIT || (edge - first == WALK_LIMIT && first > 0)
  }

  ghost predicate History(log: seq<Registry>) {
    && (forall i :: 0 <= i < |log| ==> Inv(log[i]))
    && (forall i :: 0 <= i < |log| - 1 ==> Evolves(log[i], log[i + 1]))
  }

  lemma HistoryExtends(log: seq<Registry>, g: Registry)
    requires History(log) && log != []
    requires Inv(g) && Evolves(log[|log| - 1], g)
    ensures History(log + [g])
  {
    hide Inv, Evolves;
    var log' := log + [g];
    forall i | 0 <= i < |log'| - 1 ensures Evolves(log'[i], log'[i + 1]) {
      assert log'[i] == log[i];
    }
  }

  lemma EmptyDirectory()
    ensures Inv(Registry(Root(map[], None, None), [], 0, 0))
  {}

  /** With few enough candidates, a whole run of passes is what `Prune` does pass by pass: the limit is
      not met later either. */
  lemma StaysFew(g: Registry, keep: nat, budget: nat, n: nat)
    requires Inv(g) && keep > 0 && !TooMany(g, keep)
    ensures !TooMany(Passes(g, keep, budget, n), keep)
  {
    hide Inv, Evolves, LegacyRoot, Pruned;
    PassesAdvance(g, keep, budget, n);
  }

  lemma {:induction false} PassesAdvance(g: Registry, keep: nat, budget: nat, n: nat)
    requires Inv(g) && keep > 0
    ensures FirstRemovable(Passes(g, keep, budget, n)) >= FirstRemovable(g)
  {
    hide Inv, Evolves, FirstRemovable, Target, LegacyRoot, Pruned;
    if n > 0 {
      PassesAdvance(g, keep, budget, n - 1);
      PassKeeps(Passes(g, keep, budget, n - 1), keep, budget);
    }
  }

  class Store {
    var root: Root
    ghost var chain: seq<Name>
    ghost var low: nat
    ghost var edge: nat
    /** The directory after each atomic change: the states a crash can leave. */
    ghost var log: seq<Registry>

    ghost function View(): Registry
      reads this
    {
      Registry(root, chain, low, edge)
    }

    ghost predicate Valid()
      reads this
    {
      log != [] && log[|log| - 1] == View() && History(log)
    }

    /** A directory as an earlier writer left it; `EmptyDirectory` is the first one. */
    constructor (root: Root, ghost chain: seq<Name>, ghost low: nat, ghost edge: nat)
      requires Inv(Registry(root, chain, low, edge))
      ensures Valid() && View() == Registry(root, chain, low, edge) && log == [View()]
    {
      hide Inv;
      this.root := root;
      this.chain, this.low, this.edge := chain, low, edge;
      this.log := [Registry(root, chain, low, edge)];
    }

    /** An atomic change seen by the history. */
    ghost method Log(g: Registry)
      requires log != [] && History(log) && Inv(g) && Evolves(log[|log| - 1], g)
      requires g.root == root
      modifies this`chain, this`low, this`edge, this`log
      ensures Valid() && View() == g && log == old(log) + [g]
    {
      HistoryExtends(log, g);
      chain, low, edge, log := g.chain, g.low, g.edge, log + [g];
    }

    /** Install the prepared snapshot under its fresh name, then switch CURRENT to it. */
    method Publish(name: Name)
      requires Valid()
      requires name !in chain && name !in root.snapshots
      modifies this
      ensures Valid()
      ensures log == old(log) + [Installed(old(View()), name), View()]
      ensures View() == Switched(Installed(old(View()), name), name)
    {
      hide History;
      ghost var g := View();
      LastValid();
      InstallKeeps(g, name);
      root := root.(snapshots := root.snapshots[name := Snapshot(Some(Publication(root.current)))]);
      Log(Installed(g, name));
      SwitchKeeps(View(), name);
      root := root.(current := Some(name));
      Log(Switched(Installed(g, name), name));
    }

    lemma LastValid()
      requires Valid()
      ensures Inv(View())
    {}

    /** Walk the retained window. `at` is the index of the boundary found; nothing to do is `Ok(None)`. */
    method FindBoundary(keep: nat) returns (r: Outcome<Option<Name>>, next: Option<Name>, visited: set<Name>, ghost at: nat)
      requires Inv(View()) && keep > 0 && chain != []
      ensures r.Ok?
      ensures r.value.None? ==> Target(View(), keep) == 0
      ensures r.value.Some? ==>
        && at == Target(View(), keep) < |chain| && r.value.value == chain[at]
        && next == (if at > 0 then Some(chain[at - 1]) else None)
        && Above(visited, chain, at - 1)
    {
      hide Inv;
      ghost var g := View();
      InvFacts(g);
      next, visited, at := root.current, {}, |chain| - 1;
      var kept := 0;
      while true
        invariant next.Some? ==> Target(g, keep) <= at < |chain| && next.value == chain[at]
        invariant next.Some? ==> Above(visited, chain, at) && kept == |chain| - 1 - at
        invariant next.None? ==> Target(g, keep) == 0
        decreases if next.Some? then at + 1 else 0
      {
        if next.None? {
          return Ok(None), None, visited, at;
        }
        var snapshot := next.value;
        NotAbove(visited, chain, at);
        if snapshot in visited {
          return Err(Format), None, visited, at;
        }
        visited := visited + {snapshot};
        assert Present(g, at) by { InvPresent(g, at, keep); }
        if snapshot !in root.snapshots {
          return Err(NotFound), None, visited, at;
        }
        PublicationOnChain(g, at, visited);
        var record := ReadPublication(root, snapshot, visited);
        if record == Err(Format) {
          return Err(Format), None, visited, at;
        }
        if record.value.None? {
          return Ok(None), None, visited, at;
        }
        kept := kept + 1;
        next := record.value.value.previous;
        if kept == keep || root.boundary == Some(snapshot) {
          EdgeName(g, at);
          return Ok(Some(snapshot)), next, visited, at;
        }
        EdgeName(g, at);
        if at > 0 { at := at - 1; }
      }
    }

    /** Collect the snapshots older than the boundary at index `at`, newest first. */
    method FindCandidates(start: Option<Name>, seen: set<Name>, ghost at: nat, ghost keep: nat) returns (r: Outcome<seq<Name>>)
      requires Inv(View()) && at == Target(View(), keep) < |chain| && keep > 0
      requires start == (if at > 0 then Some(chain[at - 1]) else None)
      requires Above(seen, chain, at - 1)
      ensures
        var first := FirstRemovable(View());
        if TooMany(View(), keep) then r == Err(Limit)
        else r == Ok(Run(chain, at - 1, if first <= at then at - first else 0))
    {
      hide Inv, Linked;
      ghost var g := View();
      InvFacts(g);
      FirstRemovableFacts(g);
      ghost var first := FirstRemovable(g);
      var next, visited := start, seen;
      var candidates: seq<Name> := [];
      ghost var i: int := at - 1;
      while next.Some?
        invariant -1 <= i < at && |candidates| == at - 1 - i <= WALK_LIMIT
        invariant candidates == Run(chain, at - 1, |candidates|)
        invariant candidates != [] ==> first <= i + 1
        invariant i >= 0 ==> next == Some(chain[i]) && Above(visited, chain, i)
        invariant i == -1 ==> next.None?
        decreases i + 1
      {
        if |candidates| == WALK_LIMIT {
          assert TooMany(g, keep);
          return Err(Limit);
        }
        var snapshot := next.value;
        NotAbove(visited, chain, i);
        if snapshot in visited {
          return Err(Format);
        }
        visited := visited + {snapshot};
        assert Present(g, i) == (snapshot in root.snapshots);
        if snapshot !in root.snapshots {
          assert i < first;
          return Ok(candidates);
        }
        var record := ReadPublication(root, snapshot, visited);
        if record == Err(Format) {
          PublicationOnChain(g, i, visited);
          return Err(Format);
        }
        PublicationOnChain(g, i, visited);
        if record.value.None? {
          assert i == 0 && LegacyRoot(g);
          return Ok(candidates);
        }
        next := record.value.value.previous;
        candidates := candidates + [snapshot];
        i := i - 1;
      }
      return Ok(candidates);
    }

    method WriteBoundary(name: Name, ghost at: nat)
      requires Valid() && edge <= at < |chain| && name == chain[at]
      modifies this
      ensures Valid() && old(log) <= log && View() == Marked(old(View()), at)
    {
      hide History, Inv, Evolves;
      ghost var g := View();
      LastValid();
      MarkKeeps(g, at);
      root := root.(boundary := Some(name));
      Log(Marked(g, at));
    }

    method RenameAway(name: Name)
      requires Valid() && FirstRemovable(View()) < edge < |chain| && name == chain[FirstRemovable(View())]
      modifies this
      ensures Valid() && old(log) <= log && View() == Removed(old(View()))
    {
      hide History, Inv, Evolves;
      ghost var g := View();
      LastValid();
      RemoveKeeps(g);
      root := root.(snapshots := root.snapshots - {name});
      Log(Removed(g));
    }

    /** Rename the `count` oldest candidates away; `renames` of the renames succeed before one fails. */
    method RemoveOldest(candidates: seq<Name>, count: nat, renames: nat, ghost g: Registry) returns (r: Outcome<nat>)
      requires Valid() && View() == g
      requires chain != [] && count <= |candidates| && FirstRemovable(g) + |candidates| == g.edge
      requires candidates == Run(chain, g.edge - 1, |candidates|)
      modifies this
      ensures Valid() && old(log) <= log
      ensures renames >= count ==> r == Ok(count) && View() == RemoveMany(g, count)
      ensures renames < count ==> r == Err(Io) && View() == RemoveMany(g, renames)
    {
      hide History, Inv, Evolves, FirstRemovable, Removed, LegacyRoot;
      LastValid();
      InvFacts(g);
      var pruned := 0;
      while pruned < count
        invariant pruned <= count && pruned <= renames
        invariant Valid() && old(log) <= log && View() == RemoveMany(g, pruned)
      {
        if pruned == renames {
          return Err(Io);
        }
        var oldest := candidates[|candidates| - 1 - pruned];
        RenameAway(oldest);
        pruned := pruned + 1;
      }
      return Ok(pruned);
    }

    method Prune(keep: nat, budget: nat, renames: nat) returns (r: Outcome<nat>)
      requires Valid()
      modifies this
      ensures Valid() && old(log) <= log
      ensures
        var g := old(View());
        var edge := Target(g, keep);
        if !(2 <= keep <= WALK_LIMIT) then r == Err(Limit) && View() == g
        else if FirstRemovable(g) >= edge then r == Ok(0) && View() == g
        else if TooMany(g, keep) then r == Err(Limit) && View() == g
        else if renames >= Min(budget, edge - FirstRemovable(g))
        then r == Ok(Min(budget, edge - FirstRemovable(g))) && View() == Pruned(g, keep, budget)
        else r == Err(Io) && View() == Pruned(g, keep, renames)
    {
      hide History, Inv, Evolves, FirstRemovable, Target, Pruned, RemoveMany, LegacyRoot, TooMany, Marked;
      if !(2 <= keep <= WALK_LIMIT) {
        return Err(Limit);
      }
      ghost var g := View();
      LastValid();
      if root.current.None? {
        EmptyFacts(g, keep);
        return Ok(0);
      }
      ChainNotEmpty(g);
      var found, next, visited, at := FindBoundary(keep);
      if found.value.None? {
        return Ok(0);
      }
      InvFacts(g);
      var collected := FindCandidates(next, visited, at, keep);
      if collected == Err(Limit) {
        TooManyHasWork(g, keep);
        return Err(Limit);
      }
      var candidates := collected.value;
      if candidates == [] {
        return Ok(0);
      }
      TargetAbove(g, keep);
      r := RecordAndRemove(found.value.value, candidates, budget, renames, at);
      PrunedIs(g, keep, budget);
      PrunedIs(g, keep, renames);
    }

    /** The boundary is durable before the oldest candidates go. */
    method RecordAndRemove(boundary: Name, candidates: seq<Name>, budget: nat, renames: nat, ghost at: nat) returns (r: Outcome<nat>)
      requires Valid() && edge <= at < |chain| && boundary == chain[at]
      requires FirstRemovable(View()) + |candidates| == at && candidates == Run(chain, at - 1, |candidates|)
      modifies this
      ensures Valid() && old(log) <= log
      ensures
        var g, count := Marked(old(View()), at), Min(budget, |candidates|);
        && Inv(g) && FirstRemovable(g) + |candidates| <= g.edge
        && if renames >= count then r == Ok(count) && View() == RemoveMany(g, count) else r == Err(Io) && View() == RemoveMany(g, renames)
    {
      hide History, Inv, Evolves, FirstRemovable, LegacyRoot;
      ghost var g := View();
      LastValid();
      MarkKeeps(g, at);
      MarkedRemovable(g, at);
      EdgeName(g, at);
      if root.boundary != Some(boundary) {
        WriteBoundary(boundary, at);
      } else {
        MarkedSame(g, at);
      }
      r := RemoveOldest(candidates, Min(budget, |candidates|), renames, Marked(g, at));
    }
  }

  lemma EmptyFacts(g: Registry, keep: nat)
    requires Inv(g) && g.root.current.None?
    ensures g.chain == [] && g.edge == 0 && Target(g, keep) == 0
  {}

  lemma ChainNotEmpty(g: Registry)
    requires Inv(g) && g.root.current.Some?
    ensures g.chain != []
  {}

  lemma TooManyHasWork(g: Registry, keep: nat)
    requires TooMany(g, keep)
    ensures FirstRemovable(g) < Target(g, keep)
  {}

  lemma MarkedRemovable(g: Registry, edge: nat)
    requires edge < |g.chain|
    ensures FirstRemovable(Marked(g, edge)) == FirstRemovable(g)
  {
    assert LegacyRoot(Marked(g, edge)) == LegacyRoot(g);
  }

  /** A boundary that is already recorded is at its index. */
  lemma MarkedSame(g: Registry, at: nat)
    requires Inv(g) && at < |g.chain| && g.root.boundary == Some(g.chain[at])
    ensures Marked(g, at) == g
  {
    EdgeName(g, at);
  }

  lemma PrunedIs(g: Registry, keep: nat, n: nat)
    requires Inv(g) && keep > 0 && FirstRemovable(g) < Target(g, keep) < |g.chain|
    ensures
      var m := Marked(g, Target(g, keep));
      && Inv(m) && FirstRemovable(m) == FirstRemovable(g) && m.edge == Target(g, keep)
      && Pruned(g, keep, n) == RemoveMany(m, Min(n, Target(g, keep) - FirstRemovable(g)))
  {
    hide RemoveMany, FirstRemovable, Inv, Evolves, LegacyRoot, Target;
    TargetAbove(g, keep);
    MarkKeeps(g, Target(g, keep));
    MarkedRemovable(g, Target(g, keep));
  }

  lemma TargetAbove(g: Registry, keep: nat)
    ensures Target(g, keep) >= g.edge
  {}

  lemma FirstRemovableFacts(g: Registry)
    requires Inv(g)
    ensures forall i :: 0 <= i < |g.chain| ==>
      (i >= FirstRemovable(g) ==> Present(g, i))
      && (i < FirstRemovable(g) ==> (i == 0 && LegacyRoot(g)) || !Present(g, i))
  {}

  /** The plain consequences of `Inv` a walk needs. */
  lemma InvFacts(g: Registry)
    requires Inv(g) && g.chain != []
    ensures Distinct(g.chain) && g.root.current == Some(g.chain[|g.chain| - 1])
    ensures g.low <= g.edge < |g.chain|
    ensures g.root.boundary.None? ==> g.edge == 0
  {}

  lemma InvPresent(g: Registry, i: nat, keep: nat)
    requires Inv(g) && Target(g, keep) <= i < |g.chain|
    ensures Present(g, i)
  {}

  lemma EdgeName(g: Registry, i: nat)
    requires Inv(g) && i < |g.chain|
    ensures g.root.boundary == Some(g.chain[i]) <==> g.root.boundary.Some? && i == g.edge
  {}

  // ---- What every crash leaves ----

  lemma {:induction false} HistoryEvolves(log: seq<Registry>, i: nat, j: nat)
    requires History(log) && i <= j < |log|
    ensures Evolves(log[i], log[j])
    decreases j
  {
    hide Inv, Evolves;
    if i == j {
      EvolvesRefl(log[i]);
    } else {
      HistoryEvolves(log, i, j - 1);
      assert Evolves(log[j - 1], log[j - 1 + 1]);
      EvolvesTrans(log[i], log[j - 1], log[j]);
    }
  }

  /** After any number of publications and passes, each stopped anywhere: everything from CURRENT
      through the boundary is installed; what survives is a newest-first run, besides a legacy root;
      the boundary has only moved to newer snapshots; and only snapshots older than it have gone. */
  lemma CrashSafety(log: seq<Registry>, i: nat, j: nat)
    requires History(log) && i <= j < |log|
    ensures
      var g, h := log[i], log[j];
      && (h.chain != [] ==> h.root.current == Some(h.chain[|h.chain| - 1]))
      && (h.root.boundary.Some? ==> h.edge < |h.chain| && h.root.boundary == Some(h.chain[h.edge]))
      && (forall k :: h.edge <= k < |h.chain| ==> Present(h, k))
      && (forall k, l :: 0 < k < l < |h.chain| && Present(h, k) ==> Present(h, l))
      && (h.chain != [] && Present(h, 0) && !LegacyRoot(h) ==> forall k :: 0 <= k < |h.chain| ==> Present(h, k))
      && g.chain <= h.chain && g.edge <= h.edge
      && (forall k :: 0 <= k < |g.chain| && Present(g, k) && !Present(h, k) ==> k < h.edge && !(k == 0 && LegacyRoot(g)))
  {
    HistoryEvolves(log, i, j);
    var g, h := log[i], log[j];
    assert Inv(g) && Inv(h);
    if h.chain != [] && Present(h, 0) && !LegacyRoot(h) {
      assert h.low == 0;
    }
  }
}
