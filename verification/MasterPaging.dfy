/** Reading the whole history page by page while new snapshots are published. */
module MasterPaging {
  import opened Common
  import opened MasterRegistry
  import opened MasterHistory

  /** Writers publish but no retention pass moves the boundary, and no walk meets its length limit. */
  ghost predicate OnlyPublishing(world: nat -> Registry) {
    && Interleaved(world)
    && (forall k: nat :: world(k).root.boundary == world(0).root.boundary && world(k).edge == world(0).edge)
    && (forall k: nat :: |world(k).chain| - world(k).edge <= WALK_LIMIT)
  }

  function From(world: nat -> Registry, t: nat): nat -> Registry {
    (k: nat) => world(t + k)
  }

  lemma FromInterleaved(world: nat -> Registry, t: nat)
    requires Interleaved(world)
    ensures Interleaved(From(world, t))
  {
    hide Inv, Evolves;
    var shifted := From(world, t);
    forall k: nat ensures Inv(shifted(k)) && Evolves(shifted(k), shifted(k + 1)) {
      assert Inv(world(t + k)) && Evolves(world(t + k), world(t + k + 1));
      assert shifted(k + 1) == world(t + k + 1);
    }
  }

  /** What later pages see: the same boundary, and a chain that extends the first page's. */
  lemma FromPublishing(world: nat -> Registry, t: nat)
    requires OnlyPublishing(world) && world(1).chain != []
    ensures OnlyPublishing(From(world, t))
    ensures world(1).chain <= From(world, t)(1).chain
    ensures From(world, t)(0).edge == world(0).edge && From(world, 0)(1) == world(1)
  {
    hide Interleaved;
    FromInterleaved(world, t);
    EdgeBelow(world);
    ChainGrows(world, t + 1);
  }

  lemma EdgeBelow(world: nat -> Registry)
    requires Interleaved(world) && world(1).chain != []
    ensures world(1).edge < |world(1).chain|
    ensures world(1).root.boundary.Some? ==> world(1).root.boundary.value == world(1).chain[world(1).edge]
    ensures world(1).root.boundary.None? ==> world(1).edge == 0
    ensures Distinct(world(1).chain)
  {
    assert Inv(world(1));
  }

  lemma ChainGrows(world: nat -> Registry, k: nat)
    requires Interleaved(world) && k >= 1
    ensures world(1).chain <= world(k).chain
  {
    WorldEvolves(world, 1, k);
  }

  /** With a fixed boundary a page is determined: it starts below its cursor and fills up to its limit. */
  lemma PageDetermined(world: nat -> Registry, t: nat, limit: nat, before: Option<Name>, r: Outcome<Page>, s: int)
    requires OnlyPublishing(world) && limit >= 1 && world(1).chain != []
    requires StartsAt(world(1).chain, before, s) && s + 1 >= world(0).edge
    requires Explained(world, t, limit, before, r)
    ensures r.Ok?
    ensures
      var left := s + 1 - world(0).edge;
      && r.value.entries == Run(world(1).chain, s, Min(limit, left))
      && r.value.hasMore == (left > limit)
      && r.value.nextBefore == (if left > limit then Some(world(1).chain[s + 1 - limit]) else None)
  {
    hide OnlyPublishing, Interleaved;
    NoError(world, t, limit, before, r, s);
    var s' :| Delivered(world, t, limit, before, r.value, s');
    SameStart(world, before, s, s');
    DeliveredCount(world, t, limit, before, r.value, s);
  }

  lemma SameStart(world: nat -> Registry, before: Option<Name>, s: int, s': int)
    requires OnlyPublishing(world) && world(1).chain != []
    requires StartsAt(world(1).chain, before, s) && StartsAt(world(1).chain, before, s')
    ensures s == s'
  {
    hide OnlyPublishing, Interleaved;
    WorldInterleaved(world);
    EdgeBelow(world);
    if before.Some? {
      UniqueIndex(world(1).chain, s + 1, s' + 1);
    }
  }

  lemma DeliveredCount(world: nat -> Registry, t: nat, limit: nat, before: Option<Name>, page: Page, s: int)
    requires OnlyPublishing(world) && limit >= 1 && s + 1 >= world(0).edge
    requires Delivered(world, t, limit, before, page, s)
    ensures
      var left := s + 1 - world(0).edge;
      && page.entries == Run(world(1).chain, s, Min(limit, left))
      && page.hasMore == (left > limit)
      && page.nextBefore == (if left > limit then Some(world(1).chain[s + 1 - limit]) else None)
  {
    hide OnlyPublishing, Interleaved, Run, StartsAt, BoundaryDuring;
    WorldInterleaved(world);
    EdgeBelow(world);
    Fixed(world);
    if page.retentionBoundary {
      FixedBoundary(world, t, s - |page.entries| + 1);
    }
    assert |page.entries| == Min(limit, s + 1 - world(0).edge);
  }

  lemma FixedBoundary(world: nat -> Registry, t: nat, i: nat)
    requires OnlyPublishing(world) && i < |world(1).chain| && BoundaryDuring(world, t, world(1).chain[i])
    ensures i == world(0).edge
  {
    hide Interleaved;
    EdgeBelow(world);
    UniqueIndex(world(1).chain, world(1).edge, i);
  }

  lemma NoError(world: nat -> Registry, t: nat, limit: nat, before: Option<Name>, r: Outcome<Page>, s: int)
    requires OnlyPublishing(world) && world(1).chain != []
    requires StartsAt(world(1).chain, before, s) && s + 1 >= world(0).edge
    requires Explained(world, t, limit, before, r)
    ensures r.Ok?
  {
    hide Interleaved, Delivered;
    assert |world(1).chain| - world(1).edge <= WALK_LIMIT;
    EdgeBelow(world);
    forall k: nat ensures !Overrun(world, k) {
      assert world(k).edge == world(0).edge && world(1).edge == world(0).edge;
    }
    forall k: nat | before.Some? ensures InRange(world, k, before.value) {
      assert world(1).chain[s + 1] == before.value;
    }
  }

  lemma RunAppend(chain: seq<Name>, from: int, a: nat, b: nat)
    requires -1 <= from < |chain| && a + b <= from + 1
    ensures Run(chain, from, a) + Run(chain, from - a, b) == Run(chain, from, a + b)
  {}

  /** One page of the sequence, read from read `t` on, after the entries down to index `s` excluded. */
  method NextPage(world: nat -> Registry, t: nat, limit: nat, before: Option<Name>, ghost s: int) returns (page: Page, t': nat)
    requires OnlyPublishing(world) && world(1).chain != [] && limit >= 1
    requires world(0).edge <= s + 1 <= |world(1).chain|
    requires before.None? ==> t == 0 && s + 1 == |world(1).chain|
    requires before.Some? ==> s + 1 < |world(1).chain| && world(1).chain[s + 1] == before.value
    ensures t' > t
    ensures
      var left := s + 1 - world(0).edge;
      && page.entries == Run(world(1).chain, s, Min(limit, left))
      && page.hasMore == (left > limit)
      && page.nextBefore == (if left > limit then Some(world(1).chain[s + 1 - limit]) else None)
  {
    hide OnlyPublishing, Explained, Interleaved;
    FromPublishing(world, t);
    var later := From(world, t);
    WorldInterleaved(later);
    var r, steps := HistoryWalk(later, limit, before);
    PageDetermined(later, steps, limit, before, r, s);
    page, t' := r.value, t + steps + 1;
  }

  /** The pages so far: the chain from its head down, with a cursor exactly while more is left. */
  ghost predicate Collected(chain: seq<Name>, edge: nat, all: seq<Name>, hasMore: bool, nextBefore: Option<Name>) {
    && edge < |chain| && |all| <= |chain| - edge && all == Run(chain, |chain| - 1, |all|)
    && (hasMore ==> 0 < |all| < |chain| - edge && nextBefore == Some(chain[|chain| - |all|]))
    && (!hasMore ==> |all| == |chain| - edge)
  }

  lemma CollectStep(chain: seq<Name>, edge: nat, limit: nat, all: seq<Name>, page: Page)
    requires edge < |chain| && limit >= 1 && |all| < |chain| - edge
    requires all == Run(chain, |chain| - 1, |all|)
    requires
      var s := |chain| - 1 - |all|;
      var left := s + 1 - edge;
      && page.entries == Run(chain, s, Min(limit, left))
      && page.hasMore == (left > limit)
      && page.nextBefore == (if left > limit then Some(chain[s + 1 - limit]) else None)
    ensures Collected(chain, edge, all + page.entries, page.hasMore, page.nextBefore)
    ensures page.entries != []
  {
    hide Run;
    RunAppend(chain, |chain| - 1, |all|, |page.entries|);
  }

  /** Follow `nextBefore` from page to page. The pages concatenate to the committed chain from the first
      page's head to its boundary or end: no gap, no repeat, whatever was published meanwhile. */
  method FollowPages(world: nat -> Registry, limit: nat) returns (all: seq<Name>)
    requires OnlyPublishing(world) && world(1).chain != [] && limit >= 1
    ensures
      var chain := world(1).chain;
      world(0).edge < |chain| && all == Run(chain, |chain| - 1, |chain| - world(0).edge)
  {
    hide OnlyPublishing, Interleaved, Collected, Run, Min;
    ghost var chain, edge := world(1).chain, world(0).edge;
    WorldInterleaved(world);
    EdgeBelow(world);
    Fixed(world);
    var page, t := NextPage(world, 0, limit, None, |chain| - 1);
    all := [];
    EmptyRun(chain);
    CollectStep(chain, edge, limit, all, page);
    all := all + page.entries;
    while page.hasMore
      invariant Collected(chain, edge, all, page.hasMore, page.nextBefore)
      decreases |chain| - |all|
    {
      CollectedFacts(chain, edge, all, true, page.nextBefore);
      page, t := NextPage(world, t, limit, page.nextBefore, |chain| - 1 - |all|);
      CollectStep(chain, edge, limit, all, page);
      all := all + page.entries;
    }
    CollectedFacts(chain, edge, all, false, page.nextBefore);
  }

  lemma EmptyRun(chain: seq<Name>)
    requires chain != []
    ensures Run(chain, |chain| - 1, 0) == []
  {}

  lemma CollectedFacts(chain: seq<Name>, edge: nat, all: seq<Name>, hasMore: bool, nextBefore: Option<Name>)
    requires Collected(chain, edge, all, hasMore, nextBefore)
    ensures edge < |chain| && |all| <= |chain| - edge && all == Run(chain, |chain| - 1, |all|)
    ensures hasMore ==> 0 < |all| < |chain| - edge && nextBefore == Some(chain[|chain| - |all|])
    ensures !hasMore ==> |all| == |chain| - edge
  {}

  lemma Fixed(world: nat -> Registry)
    requires OnlyPublishing(world)
    ensures world(1).edge == world(0).edge && world(1).root.boundary == world(0).root.boundary
  {}

  lemma WorldInterleaved(world: nat -> Registry)
    requires OnlyPublishing(world)
    ensures Interleaved(world)
  {}

  /** The one-pass history of the same directory holds the same names as the pages. */
  lemma OnePassHistory(world: nat -> Registry, t: nat, r: Outcome<Page>)
    requires OnlyPublishing(world) && world(1).chain != []
    requires Explained(world, t, WALK_LIMIT, None, r)
    ensures r.Ok? && !r.value.hasMore
    ensures
      var chain := world(1).chain;
      world(0).edge < |chain| && r.value.entries == Run(chain, |chain| - 1, |chain| - world(0).edge)
  {
    WorldInterleaved(world);
    EdgeBelow(world);
    Fixed(world);
    assert |world(1).chain| - world(1).edge <= WALK_LIMIT;
    PageDetermined(world, t, WALK_LIMIT, None, r, |world(1).chain| - 1);
  }
}
