/** Publishing to a managed bare repository and a remote that others write to as well. Every Git command
    is one step; a crash may fall between any two, and others may move the remote at any time. */
module GitPublication {
  import opened Common

  type Tree = nat

  /** A commit is known by its place in the graph; parents come earlier. */
  type Oid = nat

  datatype Commit = Commit(parents: seq<Oid>, tree: Tree)

  type Graph = seq<Commit>

  ghost predicate GraphOk(g: Graph) {
    forall c, i :: 0 <= c < |g| && 0 <= i < |g[c].parents| ==> g[c].parents[i] < c
  }

  // ---- Ancestry ----

  /** `merge-base --is-ancestor`: a commit is its own ancestor. */
  predicate Ancestor(g: Graph, a: Oid, c: Oid)
    requires GraphOk(g) && c < |g|
    decreases c
  {
    a == c || exists i :: 0 <= i < |g[c].parents| && Ancestor(g, a, g[c].parents[i])
  }

  lemma {:induction false} AncestorTransitive(g: Graph, a: Oid, b: Oid, c: Oid)
    requires GraphOk(g) && b < |g| && c < |g| && Ancestor(g, a, b) && Ancestor(g, b, c)
    ensures Ancestor(g, a, c)
    decreases c
  {
    if b != c {
      var i :| 0 <= i < |g[c].parents| && Ancestor(g, b, g[c].parents[i]);
      AncestorTransitive(g, a, b, g[c].parents[i]);
    }
  }

  /** Ancestry is settled when a commit is made. */
  lemma {:induction false} AncestorStays(g: Graph, g': Graph, a: Oid, c: Oid)
    requires GraphOk(g) && GraphOk(g') && g <= g' && c < |g|
    ensures Ancestor(g', a, c) <==> Ancestor(g, a, c)
    decreases c
  {
    assert g'[c] == g[c];
    forall i | 0 <= i < |g[c].parents| ensures Ancestor(g', a, g[c].parents[i]) <==> Ancestor(g, a, g[c].parents[i]) {
      AncestorStays(g, g', a, g[c].parents[i]);
    }
  }

  /** A branch may move to `new` only forward. */
  ghost predicate Forward(g: Graph, before: Option<Oid>, next: Oid) {
    && GraphOk(g) && next < |g|
    && (before.Some? ==> before.value < |g| && Ancestor(g, before.value, next))
  }

  lemma ForwardStays(g: Graph, g': Graph, before: Option<Oid>, next: Oid)
    requires Forward(g, before, next) && GraphOk(g') && g <= g'
    ensures Forward(g', before, next)
  {
    hide Ancestor;
    if before.Some? {
      AncestorStays(g, g', before.value, next);
    }
  }

  // ---- The machine ----

  datatype Receipt = Receipt(commit: Oid, changed: bool, verified: bool)

  /** A publication of `tree` or an adoption, between two commands. */
  datatype Phase =
    | Idle
    | Checking(tree: Tree, parent: Option<Oid>)
    | Comparing(tree: Tree, parent: Option<Oid>, head: Oid)
    | Building(tree: Tree, remote: bool, parent: Option<Oid>)
    | Advancing(tree: Tree, remote: bool, parent: Option<Oid>, commit: Oid)
    | Pushing(tree: Tree, remote: bool, receipt: Receipt)
    | Verifying(tree: Tree, receipt: Receipt)
    | Fetching(local: Option<Oid>, head: Oid)
    | Adopting(local: Option<Oid>, head: Oid)

  /** A receipt handed out, with the tree asked for and both branches at that moment. */
  datatype Issued = Issued(receipt: Receipt, tree: Tree, local: Option<Oid>, remote: Option<Oid>)

  /** `moves`, `pushes`, `made` and `issued` record what this program did. */
  datatype World = World(
    graph: Graph,
    local: Option<Oid>,
    remote: Option<Oid>,
    phase: Phase,
    moves: seq<(Option<Oid>, Oid)>,
    pushes: seq<(Option<Oid>, Oid)>,
    made: seq<Oid>,
    issued: seq<Issued>
  )

  datatype Label =
    | Publish(tree: Tree, toRemote: bool)
    | SeeHead
    | Compare
    | Build
    | Advance
    | Push
    | Verify
    | Adopt
    | Fetch
    | Recognize(ok: bool)
    | Crash
    | Others(commits: Graph, head: Option<Oid>)

  function Stop(w: World): World {
    w.(phase := Idle)
  }

  function Issue(w: World, receipt: Receipt, tree: Tree): World {
    w.(phase := Idle, issued := w.issued + [Issued(receipt, tree, w.local, w.remote)])
  }

  /** Compare-and-swap of the local branch. */
  function Move(w: World, expected: Option<Oid>, next: Oid, phase: Phase): World {
    if w.local != expected then Stop(w)
    else w.(local := Some(next), moves := w.moves + [(w.local, next)], phase := phase)
  }

  /** One step; a label that is not enabled changes nothing. */
  ghost function Step(w: World, l: Label): World
    requires GraphOk(w.graph)
  {
    if l.Crash? then Stop(w)
    else if l.Others? then Elsewhere(w, l.commits, l.head)
    else match w.phase
      case Idle =>
        if l.Publish? then
          w.(phase := if l.toRemote then Checking(l.tree, w.local) else Building(l.tree, false, w.local))
        else if l.Adopt? && w.remote.Some? && w.remote != w.local then w.(phase := Fetching(w.local, w.remote.value))
        else w
      case Checking(tree, parent) =>
        if !l.SeeHead? then w
        else if w.remote.None? || w.remote == parent then w.(phase := Building(tree, true, parent))
        else if parent.None? then Stop(w)
        else w.(phase := Comparing(tree, parent, w.remote.value))
      case Comparing(tree, parent, head) =>
        if !l.Compare? then w
        else if w.remote == Some(head) && parent.Some? && parent.value < |w.graph| && Ancestor(w.graph, head, parent.value)
        then w.(phase := Building(tree, true, parent))
        else Stop(w)
      case Building(tree, remote, parent) => if l.Build? then Built(w, tree, remote, parent) else w
      case Advancing(tree, remote, parent, commit) =>
        if l.Advance? then Move(w, parent, commit, Pushing(tree, remote, Receipt(commit, true, false))) else w
      case Pushing(tree, remote, receipt) =>
        if !l.Push? then w
        else if !remote then Issue(w, receipt, tree)
        else Pushed(w, tree, receipt)
      case Verifying(tree, receipt) =>
        if !l.Verify? then w
        else if w.remote == Some(receipt.commit) then Issue(w, receipt.(verified := true), tree)
        else Stop(w)
      case Fetching(local, head) =>
        if !l.Fetch? then w
        else if w.remote != Some(head) || head >= |w.graph| then Stop(w)
        else if local.Some? && local.value < |w.graph| && Ancestor(w.graph, head, local.value) then Stop(w)
        else if local.Some? && !Ancestor(w.graph, local.value, head) then Stop(w)
        else w.(phase := Adopting(local, head))
      case Adopting(local, head) =>
        if !l.Recognize? then w else if l.ok then Move(w, local, head, Idle) else Stop(w)
  }

  /** Someone else adds commits and moves, or removes, the remote branch. */
  ghost function Elsewhere(w: World, commits: Graph, head: Option<Oid>): World {
    var graph := w.graph + commits;
    if GraphOk(graph) && (head.Some? ==> head.value < |graph|) then w.(graph := graph, remote := head) else w
  }

  /** Reuse the parent when its tree is the one to publish, else make a commit on top of it. */
  ghost function Built(w: World, tree: Tree, remote: bool, parent: Option<Oid>): World {
    if parent.Some? && parent.value < |w.graph| && w.graph[parent.value].tree == tree then
      w.(phase := Pushing(tree, remote, Receipt(parent.value, false, false)))
    else
      var commit := |w.graph|;
      w.(graph := w.graph + [Commit(if parent.Some? then [parent.value] else [], tree)],
         made := w.made + [commit],
         phase := Advancing(tree, remote, parent, commit))
  }

  /** A push without force: the receiving side takes it only when it is a fast-forward. */
  ghost function Pushed(w: World, tree: Tree, receipt: Receipt): World
    requires GraphOk(w.graph)
  {
    if receipt.commit < |w.graph| && (w.remote.Some? ==> Ancestor(w.graph, w.remote.value, receipt.commit)) then
      w.(remote := Some(receipt.commit), pushes := w.pushes + [(w.remote, receipt.commit)], phase := Verifying(tree, receipt))
    else Stop(w)
  }

  // ---- The invariant ----

  predicate InGraph(g: Graph, o: Option<Oid>) {
    o.Some? ==> o.value < |g|
  }

  /** What a phase has established, the local branch being this program's alone. */
  ghost predicate PhaseOk(w: World)
    requires GraphOk(w.graph)
  {
    var g := w.graph;
    match w.phase
    case Idle => true
    case Checking(_, parent) => parent == w.local
    case Comparing(_, parent, _) => parent == w.local
    case Building(_, _, parent) => parent == w.local
    case Advancing(tree, _, parent, commit) => parent == w.local && Forward(g, parent, commit) && g[commit].tree == tree
    case Pushing(tree, _, receipt) => receipt.commit < |g| && w.local == Some(receipt.commit) && g[receipt.commit].tree == tree && !receipt.verified
    case Verifying(tree, receipt) => receipt.commit < |g| && w.local == Some(receipt.commit) && g[receipt.commit].tree == tree
    case Fetching(local, _) => local == w.local
    case Adopting(local, head) => local == w.local && Forward(g, local, head)
  }

  ghost predicate MovesOk(g: Graph, moves: seq<(Option<Oid>, Oid)>) {
    forall i :: 0 <= i < |moves| ==> Forward(g, moves[i].0, moves[i].1)
  }

  /** The moves of the local branch follow on from one another and end where it is now. */
  ghost predicate MovesLink(moves: seq<(Option<Oid>, Oid)>, local: Option<Oid>) {
    && (forall i :: 0 <= i < |moves| - 1 ==> moves[i + 1].0 == Some(moves[i].1))
    && (moves != [] ==> local == Some(moves[|moves| - 1].1))
  }

  /** No commit this program makes repeats the tree of its parent. */
  ghost predicate MadeOk(g: Graph, made: seq<Oid>) {
    forall i :: 0 <= i < |made| ==> made[i] < |g| && NewTree(g, made[i])
  }

  ghost predicate NewTree(g: Graph, c: Oid)
    requires c < |g|
  {
    forall i :: 0 <= i < |g[c].parents| ==> g[c].parents[i] < |g| && g[g[c].parents[i]].tree != g[c].tree
  }

  /** A receipt names a commit of the tree asked for, at the local branch then; a verified one, at the remote too. */
  ghost predicate IssuedOk(g: Graph, i: Issued) {
    && i.receipt.commit < |g| && g[i.receipt.commit].tree == i.tree && i.local == Some(i.receipt.commit)
    && (i.receipt.verified ==> i.remote == Some(i.receipt.commit))
  }

  ghost predicate Inv(w: World) {
    && GraphOk(w.graph) && InGraph(w.graph, w.local) && InGraph(w.graph, w.remote)
    && PhaseOk(w)
    && MovesOk(w.graph, w.moves) && MovesLink(w.moves, w.local) && MovesOk(w.graph, w.pushes)
    && MadeOk(w.graph, w.made)
    && forall i :: 0 <= i < |w.issued| ==> IssuedOk(w.graph, w.issued[i])
  }

  /** Everything recorded stays true when the graph grows. */
  lemma GraphGrows(w: World, g: Graph)
    requires Inv(w) && GraphOk(g) && w.graph <= g
    ensures Inv(w.(graph := g))
  {
    hide Ancestor;
    var w' := w.(graph := g);
    forall i | 0 <= i < |w.moves| ensures Forward(g, w.moves[i].0, w.moves[i].1) {
      ForwardStays(w.graph, g, w.moves[i].0, w.moves[i].1);
    }
    forall i | 0 <= i < |w.pushes| ensures Forward(g, w.pushes[i].0, w.pushes[i].1) {
      ForwardStays(w.graph, g, w.pushes[i].0, w.pushes[i].1);
    }
    if w.phase.Advancing? {
      ForwardStays(w.graph, g, w.phase.parent, w.phase.commit);
    }
    if w.phase.Adopting? {
      ForwardStays(w.graph, g, w.phase.local, w.phase.head);
    }
    forall i | 0 <= i < |w.made| ensures w.made[i] < |g| && NewTree(g, w.made[i]) {
      assert NewTree(w.graph, w.made[i]);
      assert g[w.made[i]] == w.graph[w.made[i]];
    }
    forall i | 0 <= i < |w.issued| ensures IssuedOk(g, w.issued[i]) {
      assert IssuedOk(w.graph, w.issued[i]);
    }
  }

  lemma StopKeeps(w: World)
    requires Inv(w)
    ensures Inv(Stop(w))
  {
    hide Ancestor, MovesOk, MovesLink, MadeOk, IssuedOk, GraphOk;
  }

  lemma ElsewhereKeeps(w: World, commits: Graph, head: Option<Oid>)
    requires Inv(w)
    ensures Inv(Elsewhere(w, commits, head))
  {
    hide Ancestor, MovesOk, MovesLink, MadeOk, IssuedOk, GraphOk;
    var graph := w.graph + commits;
    if GraphOk(graph) && (head.Some? ==> head.value < |graph|) {
      GraphGrows(w, graph);
    }
  }

  lemma MoveKeeps(w: World, expected: Option<Oid>, next: Oid, phase: Phase)
    requires Inv(w) && Forward(w.graph, expected, next)
    requires phase.Idle? || (phase.Pushing? && phase.receipt == Receipt(next, true, false) && w.graph[next].tree == phase.tree)
    ensures Inv(Move(w, expected, next, phase))
  {
    hide Ancestor, MadeOk, IssuedOk, GraphOk, Forward;
    Advances(w.graph, expected, next);
    if w.local != expected {
      StopKeeps(w);
    }
  }

  lemma Advances(g: Graph, before: Option<Oid>, next: Oid)
    requires Forward(g, before, next)
    ensures next < |g|
  {}

  lemma BuiltKeeps(w: World, tree: Tree, remote: bool, parent: Option<Oid>)
    requires Inv(w) && w.phase == Building(tree, remote, parent)
    ensures Inv(Built(w, tree, remote, parent))
  {
    hide MovesOk, MovesLink, IssuedOk;
    if !(parent.Some? && parent.value < |w.graph| && w.graph[parent.value].tree == tree) {
      var commit := |w.graph|;
      var g := w.graph + [Commit(if parent.Some? then [parent.value] else [], tree)];
      GraphGrows(w, g);
      if parent.Some? {
        assert g[commit].parents[0] == parent.value;
        assert Ancestor(g, parent.value, g[commit].parents[0]);
      }
      assert Forward(g, parent, commit);
      assert NewTree(g, commit);
    }
  }

  lemma PushedKeeps(w: World, tree: Tree, receipt: Receipt)
    requires Inv(w) && w.phase == Pushing(tree, true, receipt)
    ensures Inv(Pushed(w, tree, receipt))
  {
    hide Ancestor, MovesLink, MadeOk, IssuedOk, GraphOk;
  }

  lemma IssueKeeps(w: World, receipt: Receipt, tree: Tree)
    requires Inv(w) && IssuedOk(w.graph, Issued(receipt, tree, w.local, w.remote))
    ensures Inv(Issue(w, receipt, tree))
  {
    hide Ancestor, MovesOk, MovesLink, MadeOk, GraphOk, IssuedOk;
  }

  lemma StepKeeps(w: World, l: Label)
    requires Inv(w)
    ensures Inv(Step(w, l))
  {
    hide Ancestor, MovesOk, MovesLink, MadeOk, GraphOk, Built, Pushed, Elsewhere, Move, Issue;
    StopKeeps(w);
    if l.Others? {
      ElsewhereKeeps(w, l.commits, l.head);
    } else if !l.Crash? {
      match w.phase
      case Idle =>
      case Checking(_, _) =>
      case Comparing(_, _, _) =>
      case Building(tree, remote, parent) => BuiltKeeps(w, tree, remote, parent);
      case Advancing(tree, remote, parent, commit) =>
        MoveKeeps(w, parent, commit, Pushing(tree, remote, Receipt(commit, true, false)));
      case Pushing(tree, remote, receipt) =>
        if remote { PushedKeeps(w, tree, receipt); } else { IssueKeeps(w, receipt, tree); }
      case Verifying(tree, receipt) =>
        if w.remote == Some(receipt.commit) { IssueKeeps(w, receipt.(verified := true), tree); }
      case Fetching(_, _) =>
      case Adopting(local, head) => MoveKeeps(w, local, head, Idle);
    }
  }

  // ---- Runs ----

  ghost function Run(w: World, labels: seq<Label>): World
    requires Inv(w)
    ensures Inv(Run(w, labels))
  {
    if labels == [] then w
    else
      var before := Run(w, labels[..|labels| - 1]);
      StepKeeps(before, labels[|labels| - 1]);
      Step(before, labels[|labels| - 1])
  }

  /** A repository and a remote as someone left them. */
  ghost predicate Start(w: World) {
    && GraphOk(w.graph) && InGraph(w.graph, w.local) && InGraph(w.graph, w.remote)
    && w.phase == Idle && w.moves == [] && w.pushes == [] && w.made == [] && w.issued == []
  }

  lemma StartOk(w: World)
    requires Start(w)
    ensures Inv(w)
  {}

  /** Later values of the local branch descend from earlier ones. */
  lemma {:induction false} LocalDescends(g: Graph, moves: seq<(Option<Oid>, Oid)>, local: Option<Oid>, i: nat, j: nat)
    requires GraphOk(g) && MovesOk(g, moves) && MovesLink(moves, local) && i <= j < |moves|
    ensures Forward(g, moves[i].0, moves[j].1) && Forward(g, Some(moves[i].1), moves[j].1)
    decreases j - i
  {
    hide GraphOk;
    assert Forward(g, moves[i].0, moves[i].1);
    if i < j {
      assert moves[i + 1].0 == Some(moves[i].1);
      LocalDescends(g, moves, local, i + 1, j);
      if moves[i].0.Some? {
        AncestorTransitive(g, moves[i].0.value, moves[i].1, moves[j].1);
      }
    }
  }

  /** In any run of publications, adoptions, crashes and other writers: the local branch only ever moves
      to descendants, every push was a fast-forward of what the remote had, and no commit was made for a
      tree its parent already has. */
  lemma OnlyForward(start: World, labels: seq<Label>, i: nat, j: nat)
    requires Start(start)
    ensures
      Inv(start) &&
      var w := Run(start, labels);
      && (i <= j < |w.moves| ==> Forward(w.graph, w.moves[i].0, w.moves[j].1))
      && (i < |w.pushes| ==> Forward(w.graph, w.pushes[i].0, w.pushes[i].1))
      && (i < |w.made| ==> w.made[i] < |w.graph| && NewTree(w.graph, w.made[i]))
  {
    StartOk(start);
    hide GraphOk, Ancestor, Forward, Step, NewTree;
    var w := Run(start, labels);
    if i <= j < |w.moves| {
      LocalDescends(w.graph, w.moves, w.local, i, j);
    }
  }

  /** A receipt is for the tree asked for, and a verified one saw the remote at that commit. */
  lemma ReceiptsHold(start: World, labels: seq<Label>, i: nat)
    requires Start(start)
    ensures
      Inv(start) &&
      var w := Run(start, labels);
      i < |w.issued| ==>
        var it := w.issued[i];
        && it.receipt.commit < |w.graph| && w.graph[it.receipt.commit].tree == it.tree
        && (it.receipt.verified ==> it.remote == Some(it.receipt.commit) == it.local)
  {
    StartOk(start);
    hide GraphOk, Ancestor, Forward, Step, MovesOk, MovesLink, MadeOk;
    var w := Run(start, labels);
    assert i < |w.issued| ==> IssuedOk(w.graph, w.issued[i]);
  }

  // ---- Publishing again what is there ----

  /** Nothing is under way that could move a local branch which already has the tree. */
  ghost predicate Standing(w: World, tip: Oid, tree: Tree) {
    && w.local == Some(tip) && tip < |w.graph| && w.graph[tip].tree == tree
    && match w.phase
       case Idle => true
       case Checking(t, _) => t == tree
       case Comparing(t, _, _) => t == tree
       case Building(t, _, _) => t == tree
       case Pushing(t, _, _) => t == tree
       case Verifying(t, _) => t == tree
       case _ => false
  }

  lemma StandingStep(w: World, tip: Oid, tree: Tree, l: Label)
    requires Inv(w) && Standing(w, tip, tree) && !l.Adopt? && (l.Publish? ==> l.tree == tree)
    ensures Standing(Step(w, l), tip, tree) && Step(w, l).made == w.made && Step(w, l).moves == w.moves
  {
    hide Ancestor, MovesOk, MovesLink, MadeOk, GraphOk, IssuedOk;
  }

  /** Republishing an identical tree makes no commit and moves no local branch: over any number of
      publications of it, with crashes and other writers anywhere in between. */
  lemma {:induction false} Republishing(w: World, tip: Oid, tree: Tree, labels: seq<Label>)
    requires Inv(w) && Standing(w, tip, tree)
    requires forall i :: 0 <= i < |labels| ==> !labels[i].Adopt? && (labels[i].Publish? ==> labels[i].tree == tree)
    ensures
      var w' := Run(w, labels);
      Standing(w', tip, tree) && w'.local == w.local && w'.made == w.made && w'.moves == w.moves
  {
    if labels != [] {
      hide Inv, Standing, Step;
      var init := labels[..|labels| - 1];
      Republishing(w, tip, tree, init);
      StandingStep(Run(w, init), tip, tree, labels[|labels| - 1]);
      Tip(w, tip, tree);
      Tip(Run(w, labels), tip, tree);
    }
  }

  lemma Tip(w: World, tip: Oid, tree: Tree)
    requires Standing(w, tip, tree)
    ensures w.local == Some(tip)
  {}

  // ---- A publication that nothing disturbs ----

  /** The remote is absent, or the local branch descends from it. */
  ghost predicate Behind(g: Graph, remote: Option<Oid>, local: Option<Oid>) {
    GraphOk(g) && (remote.Some? ==> local.Some? && Forward(g, remote, local.value))
  }

  /** A verified receipt, with both branches at its commit. */
  function VerifiedAt(tree: Tree, commit: Oid, changed: bool): Issued {
    Issued(Receipt(commit, changed, true), tree, Some(commit), Some(commit))
  }

  /** The checks let it through. */
  lemma ChecksPass(w: World, tree: Tree)
    requires Inv(w) && w.phase.Idle? && Behind(w.graph, w.remote, w.local)
    ensures Run(w, [Publish(tree, true), SeeHead, Compare]) == w.(phase := Building(tree, true, w.local))
  {
    hide Inv, Ancestor, Run;
    RunNone(w);
    RunSnoc(w, [], Publish(tree, true));
    RunSnoc(w, [Publish(tree, true)], SeeHead);
    RunSnoc(w, [Publish(tree, true), SeeHead], Compare);
    assert [] + [Publish(tree, true)] == [Publish(tree, true)];
    assert [Publish(tree, true)] + [SeeHead] == [Publish(tree, true), SeeHead];
    assert [Publish(tree, true), SeeHead] + [Compare] == [Publish(tree, true), SeeHead, Compare];
    StepKeeps(w, Publish(tree, true));
  }

  lemma RunNone(w: World)
    requires Inv(w)
    ensures Run(w, []) == w
  {}

  lemma RunSnoc(w: World, labels: seq<Label>, l: Label)
    requires Inv(w)
    ensures GraphOk(Run(w, labels).graph) && Run(w, labels + [l]) == Step(Run(w, labels), l)
  {
    hide Step;
    assert (labels + [l])[..|labels|] == labels;
  }

  /** A commit for the tree becomes the local branch, and the remote is still behind it. */
  lemma BuildsAndAdvances(w: World, tree: Tree)
    requires Inv(w) && w.phase == Building(tree, true, w.local) && Behind(w.graph, w.remote, w.local)
    ensures
      Inv(Step(w, Build)) &&
      var w' := Step(Step(w, Build), Advance);
      && Inv(w') && w'.phase.Pushing? && w'.phase.remote && w'.phase.tree == tree
      && w'.local == Some(w'.phase.receipt.commit) && Forward(w'.graph, w'.remote, w'.phase.receipt.commit)
      && w'.remote == w.remote && w'.issued == w.issued && !w'.phase.receipt.verified
      && (w'.phase.receipt.changed <==> !(w.local.Some? && w.local.value < |w.graph| && w.graph[w.local.value].tree == tree))
      && (!w'.phase.receipt.changed ==> w'.local == w.local && w'.graph == w.graph)
  {
    hide MovesOk, MovesLink, MadeOk, IssuedOk, Ancestor;
    StepKeeps(w, Build);
    var v := Step(w, Build);
    StepKeeps(v, Advance);
    if v.phase.Advancing? {
      RemoteBehind(w.graph, v.graph, w.remote, w.local, v.phase.commit);
    }
  }

  lemma RemoteBehind(g: Graph, g': Graph, remote: Option<Oid>, local: Option<Oid>, commit: Oid)
    requires Behind(g, remote, local) && g <= g' && Forward(g', local, commit)
    ensures Forward(g', remote, commit)
  {
    hide Ancestor, GraphOk;
    if remote.Some? {
      ForwardStays(g, g', remote, local.value);
      AncestorTransitive(g', remote.value, local.value, commit);
    }
  }

  lemma PushesAndVerifies(w: World)
    requires Inv(w) && w.phase.Pushing? && w.phase.remote && !w.phase.receipt.verified
    requires w.local == Some(w.phase.receipt.commit) && Forward(w.graph, w.remote, w.phase.receipt.commit)
    ensures
      Inv(Step(w, Push)) &&
      var w', commit := Step(Step(w, Push), Verify), w.phase.receipt.commit;
      && w'.phase.Idle? && w'.remote == Some(commit) && w'.local == w.local && w'.graph == w.graph
      && w'.issued == w.issued + [VerifiedAt(w.phase.tree, commit, w.phase.receipt.changed)]
  {
    hide MovesOk, MovesLink, MadeOk, IssuedOk, Ancestor;
    StepKeeps(w, Push);
  }

  /** With no crash and no other writer, publishing to a remote that is absent or behind ends with a
      verified receipt for the tree, at both branches; a commit is made exactly when the local branch
      does not have the tree yet. */
  lemma Progress(w: World, tree: Tree)
    requires Inv(w) && w.phase.Idle? && Behind(w.graph, w.remote, w.local)
    ensures
      var w' := Run(w, [Publish(tree, true), SeeHead, Compare, Build, Advance, Push, Verify]);
      var has := w.local.Some? && w.local.value < |w.graph| && w.graph[w.local.value].tree == tree;
      && w'.phase.Idle? && w'.local.Some? && w'.remote == w'.local
      && w'.local.value < |w'.graph| && w'.graph[w'.local.value].tree == tree
      && w'.issued == w.issued + [VerifiedAt(tree, w'.local.value, !has)]
      && (has ==> w'.graph == w.graph && w'.local == w.local)
  {
    hide Inv, Step, Run, Behind;
    var checks := [Publish(tree, true), SeeHead, Compare];
    ChecksPass(w, tree);
    var w3 := Run(w, checks);
    RunSnoc(w, checks, Build);
    RunSnoc(w, checks + [Build], Advance);
    RunSnoc(w, checks + [Build, Advance], Push);
    RunSnoc(w, checks + [Build, Advance, Push], Verify);
    assert checks + [Build] + [Advance] == checks + [Build, Advance];
    assert checks + [Build, Advance] + [Push] == checks + [Build, Advance, Push];
    assert checks + [Build, Advance, Push] + [Verify] == [Publish(tree, true), SeeHead, Compare, Build, Advance, Push, Verify];
    BuildsAndAdvances(w3, tree);
    var w5 := Step(Step(w3, Build), Advance);
    PushesAndVerifies(w5);
    TreeOf(w5);
  }

  lemma TreeOf(w: World)
    requires Inv(w) && w.phase.Pushing?
    ensures w.local == Some(w.phase.receipt.commit) && w.phase.receipt.commit < |w.graph|
    ensures w.graph[w.phase.receipt.commit].tree == w.phase.tree
  {}

  // ---- An adoption that nothing disturbs ----

  /** With the remote strictly ahead of the local branch, or no local branch, and its history recognized, the
      local branch is moved to the remote's commit. */
  lemma AdoptionProgress(w: World)
    requires Inv(w) && w.phase.Idle? && w.remote.Some? && w.remote.value < |w.graph|
    requires w.local.Some? ==> w.local != w.remote && Forward(w.graph, w.local, w.remote.value)
    requires w.local.Some? && w.local.value < |w.graph| ==> !Ancestor(w.graph, w.remote.value, w.local.value)
    ensures
      var w' := Run(w, [Adopt, Fetch, Recognize(true)]);
      w'.local == w.remote && w'.remote == w.remote && w'.graph == w.graph && w'.phase.Idle?
      && w'.moves == w.moves + [(w.local, w.remote.value)] && w'.pushes == w.pushes && w'.made == w.made
  {
    hide Inv, Run, Ancestor;
    RunNone(w);
    RunSnoc(w, [], Adopt);
    RunSnoc(w, [Adopt], Fetch);
    RunSnoc(w, [Adopt, Fetch], Recognize(true));
    assert [] + [Adopt] == [Adopt];
    assert [Adopt] + [Fetch] == [Adopt, Fetch];
    assert [Adopt, Fetch] + [Recognize(true)] == [Adopt, Fetch, Recognize(true)];
  }

  /** A remote that is behind, or whose history is not recognized, or that has diverged, changes nothing. */
  lemma AdoptionRefused(w: World, recognized: bool)
    requires Inv(w) && w.phase.Idle? && w.remote.Some? && w.remote.value < |w.graph|
    requires
      || !recognized
      || (w.local.Some? && w.local.value < |w.graph| && (Ancestor(w.graph, w.remote.value, w.local.value) || !Ancestor(w.graph, w.local.value, w.remote.value)))
    ensures Run(w, [Adopt, Fetch, Recognize(recognized)]) == w
  {
    hide Inv, Run, Ancestor;
    RunNone(w);
    RunSnoc(w, [], Adopt);
    RunSnoc(w, [Adopt], Fetch);
    RunSnoc(w, [Adopt, Fetch], Recognize(recognized));
    assert [] + [Adopt] == [Adopt];
    assert [Adopt] + [Fetch] == [Adopt, Fetch];
    assert [Adopt, Fetch] + [Recognize(recognized)] == [Adopt, Fetch, Recognize(recognized)];
  }
}
