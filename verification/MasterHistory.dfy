/** Lock-free readers of the publication chain, interleaved with writers read by read. */
module MasterHistory {
  import opened Common
  import opened MasterRegistry

  datatype Page = Page(
    head: Name,
    entries: seq<Name>,
    hasMore: bool,
    nextBefore: Option<Name>,
    legacyBoundary: bool,
    retentionBoundary: bool
  )

  /** `world(k)` is the directory at the reader's k-th read; between reads writers make any number
      of atomic changes. */
  ghost predicate Interleaved(world: nat -> Registry) {
    && (forall k: nat :: Inv(world(k)))
    && (forall k: nat :: Evolves(world(k), world(k + 1)))
  }

  lemma {:induction false} WorldEvolves(world: nat -> Registry, j: nat, k: nat)
    requires Interleaved(world) && j <= k
    ensures Evolves(world(j), world(k))
    decreases k
  {
    hide Evolves, Inv;
    if j == k {
      EvolvesRefl(world(j));
    } else {
      WorldEvolves(world, j, k - 1);
      assert Evolves(world(k - 1), world(k - 1 + 1));
      EvolvesTrans(world(j), world(k - 1), world(k));
    }
  }

  /** A chain snapshot found missing lies behind the boundary, from then on. */
  lemma MissingIsBehind(world: nat -> Registry, head: nat, i: nat, j: nat, k: nat)
    requires Interleaved(world) && head <= j <= k
    requires i < |world(head).chain| && world(head).chain[i] !in world(j).root.snapshots
    ensures i < world(k).edge && world(k).root.boundary.Some?
  {
    WorldEvolves(world, head, j);
    WorldEvolves(world, j, k);
    assert world(head).chain[i] == world(j).chain[i];
    assert !Present(world(j), i);
    assert Inv(world(j)) && Inv(world(k));
  }

  /** One chain step: the directory, its manifest, its record, and the directory again when the
      record is absent; four reads at most. */
  method ChainStep(world: nat -> Registry, t: nat, name: Name, visited: set<Name>, ghost head: nat, ghost i: nat)
    returns (r: Outcome<Option<Publication>>, t': nat)
    requires Interleaved(world) && head <= t
    requires i < |world(head).chain| && name == world(head).chain[i]
    requires Above(visited, world(head).chain, i - 1)
    ensures t < t' <= t + 4
    ensures r.Err? ==> r.error == NotFound && i < world(t').edge
    ensures r.Ok? && i > 0 ==> r.value == Some(Publication(Some(world(head).chain[i - 1])))
    ensures r.Ok? && i == 0 ==> (r.value.None? <==> LegacyRoot(world(head))) && (r.value.Some? ==> r.value.value.previous.None?)
  {
    hide Inv, Evolves;
    if name !in world(t).root.snapshots {
      MissingIsBehind(world, head, i, t, t + 1);
      return Err(NotFound), t + 1;
    }
    if name !in world(t + 1).root.snapshots {
      MissingIsBehind(world, head, i, t + 1, t + 2);
      return Err(NotFound), t + 2;
    }
    var record := ReadPublication(world(t + 2).root, name, visited);
    RecordRead(world, head, t + 2, name, visited, i);
    if record.value.None? {
      if name !in world(t + 3).root.snapshots {
        MissingIsBehind(world, head, i, t + 3, t + 4);
        return Err(NotFound), t + 4;
      }
      StillThere(world, head, t + 2, i);
      if i == 0 {
        LegacySame(world, head, t + 2);
      }
      return record, t + 4;
    }
    PresentRecord(world, t + 2, name, visited);
    if i == 0 {
      LegacySame(world, head, t + 2);
    }
    return record, t + 3;
  }

  lemma RecordRead(world: nat -> Registry, head: nat, t: nat, name: Name, visited: set<Name>, i: nat)
    requires Interleaved(world) && head <= t
    requires i < |world(head).chain| && name == world(head).chain[i]
    requires Above(visited, world(head).chain, i - 1)
    ensures ReadPublication(world(t).root, name, visited).Ok?
    ensures
      var record := ReadPublication(world(t).root, name, visited).value;
      if name !in world(t).root.snapshots then record.None?
      else if i > 0 then record == Some(Publication(Some(world(head).chain[i - 1])))
      else (record.None? <==> LegacyRoot(world(t))) && (record.Some? ==> record.value.previous.None?)
  {
    WorldEvolves(world, head, t);
    assert Inv(world(t));
    if name in world(t).root.snapshots {
      assert world(t).chain[i] == name && Present(world(t), i);
      assert Above(visited, world(t).chain, i - 1) by {
        forall x | x in visited ensures x in (set j | i - 1 < j < |world(t).chain| :: world(t).chain[j]) {
          var j :| i - 1 < j < |world(head).chain| && world(head).chain[j] == x;
          assert world(t).chain[j] == x;
        }
      }
      PublicationOnChain(world(t), i, visited);
    }
  }

  /** A record that was read belongs to a directory that was there. */
  lemma PresentRecord(world: nat -> Registry, t: nat, name: Name, visited: set<Name>)
    requires ReadPublication(world(t).root, name, visited).Ok? && ReadPublication(world(t).root, name, visited).value.Some?
    ensures name in world(t).root.snapshots
  {}

  /** Whether the root of the chain is a legacy snapshot does not change while it is there. */
  lemma LegacySame(world: nat -> Registry, head: nat, t: nat)
    requires Interleaved(world) && head <= t && world(head).chain != [] && world(head).chain[0] in world(t).root.snapshots
    ensures LegacyRoot(world(t)) <==> LegacyRoot(world(head))
  {
    hide Inv, Linked, Distinct;
    WorldEvolves(world, head, t);
    assert world(t).chain[0] == world(head).chain[0];
    assert Present(world(t), 0);
  }

  lemma StillThere(world: nat -> Registry, head: nat, t: nat, i: nat)
    requires Interleaved(world) && head <= t
    requires i < |world(head).chain| && world(head).chain[i] in world(t + 1).root.snapshots
    ensures world(head).chain[i] in world(t).root.snapshots
  {
    WorldEvolves(world, head, t);
    assert Evolves(world(t), world(t + 1));
    assert world(t).chain[i] == world(head).chain[i] == world(t + 1).chain[i];
    assert Present(world(t + 1), i);
  }

  /** Index of the newest entry a page may hold: below the cursor, or the head. */
  ghost predicate StartsAt(chain: seq<Name>, before: Option<Name>, s: int) {
    && -1 <= s < |chain|
    && (before.None? ==> s == |chain| - 1)
    && (before.Some? ==> s + 1 < |chain| && chain[s + 1] == before.value)
  }

  ghost predicate BoundaryDuring(world: nat -> Registry, t: nat, name: Name) {
    exists k: nat :: k <= t && world(k).root.boundary == Some(name)
  }

  /** A page is a gap-free run of the chain the reader started on, from its first entry down. It stops
      at the limit, at the end of the chain, or at a boundary in force during the walk; it never goes
      behind the boundary first read, and calls the chain legacy exactly when it ends at a legacy root. */
  ghost predicate Delivered(world: nat -> Registry, t: nat, limit: nat, before: Option<Name>, page: Page, s: int) {
    var chain := world(1).chain;
    var n := |page.entries|;
    && chain != [] && page.head == chain[|chain| - 1]
    && StartsAt(chain, before, s)
    && n <= limit && n <= s + 1 && page.entries == Run(chain, s, n)
    && var e := s - n;
    && world(0).edge <= e + 1 < |chain|
    && (page.hasMore ==> n == limit && e >= 0 && world(0).root.boundary != Some(chain[e + 1]))
    && page.nextBefore == (if page.hasMore && n > 0 then Some(chain[e + 1]) else None)
    && (page.retentionBoundary ==> e >= 0 && BoundaryDuring(world, t, chain[e + 1]))
    && (!page.hasMore && !page.retentionBoundary ==> e == -1)
    && (page.legacyBoundary <==> e == -1 && LegacyRoot(world(1)))
  }

  /** Where a cursor may be: the chain from the head down to the boundary. */
  ghost predicate InRange(world: nat -> Registry, k: nat, name: Name) {
    exists j: nat :: world(k).edge <= j < |world(1).chain| && world(1).chain[j] == name
  }

  /** The boundary has passed the head the walk began at: at least a retained window was published since. */
  ghost predicate Overrun(world: nat -> Registry, k: nat) {
    world(1).chain != [] && world(k).edge >= |world(1).chain|
  }

  /** The page does not lie within the ten thousand newest snapshots. */
  ghost predicate TooDeep(world: nat -> Registry, limit: nat, before: Option<Name>) {
    && |world(1).chain| - world(0).edge > 10_000
    && forall s: int :: StartsAt(world(1).chain, before, s) ==> |world(1).chain| - 1 - s + limit > 10_000
  }

  ghost predicate Explained(world: nat -> Registry, t: nat, limit: nat, before: Option<Name>, r: Outcome<Page>) {
    match r
    case Ok(page) => exists s: int :: Delivered(world, t, limit, before, page, s)
    case Err(NotFound) =>
      || world(1).chain == []
      || (exists k: nat :: k <= t && Overrun(world, k))
      || (before.Some? && exists k: nat :: k <= t && !InRange(world, k, before.value))
    case Err(Limit) => TooDeep(world, limit, before)
    case Err(_) => false
  }

  /** Exactly the names of the chain after index `p`. */
  function Seen(chain: seq<Name>, p: int): set<Name>
    requires -1 <= p < |chain|
  {
    set j | p < j < |chain| :: chain[j]
  }

  /** The walk so far: everything above index `p` visited; entries run down to it once the cursor is met. */
  ghost predicate Walking(world: nat -> Registry, limit: nat, before: Option<Name>, p: int,
                          visited: set<Name>, found: bool, entries: seq<Name>, s: int) {
    var chain := world(1).chain;
    && chain != [] && world(0).edge <= p + 1 && -1 <= p < |chain|
    && visited == Seen(chain, p) && |visited| == |chain| - 1 - p
    && |entries| <= limit
    && (found ==> StartsAt(chain, before, s) && s - |entries| == p && entries == Run(chain, s, |entries|))
    && (!found ==> entries == [] && before.Some? && before.value !in visited)
  }

  lemma BoundaryName(world: nat -> Registry, k: nat)
    requires Interleaved(world) && k >= 1 && world(1).chain != [] && !Overrun(world, k)
    ensures world(k).root.boundary.Some? ==> world(k).root.boundary.value == world(1).chain[world(k).edge]
    ensures world(0).edge <= world(k).edge < |world(1).chain|
  {
    WorldEvolves(world, 1, k);
    WorldEvolves(world, 0, k);
    assert Inv(world(k));
  }

  lemma UniqueIndex(chain: seq<Name>, i: nat, j: nat)
    requires Distinct(chain) && i < |chain| && j < |chain| && chain[i] == chain[j]
    ensures i == j
  {}

  lemma NotInRange(world: nat -> Registry, k: nat, c: nat)
    requires Interleaved(world) && c < |world(1).chain| && c < world(k).edge
    ensures !InRange(world, k, world(1).chain[c])
  {
    assert Inv(world(1));
  }

  /** A boundary met by the walk that is neither its cursor nor one of its entries is newer than the cursor. */
  lemma CursorBehind(world: nat -> Registry, t: nat, limit: nat, before: Option<Name>, p: nat,
                     visited: set<Name>, found: bool, entries: seq<Name>, s: int)
    requires Interleaved(world) && Walking(world, limit, before, p, visited, found, entries, s)
    requires p < world(t).edge < |world(1).chain|
    requires before != Some(world(1).chain[world(t).edge])
    requires world(1).chain[world(t).edge] !in entries
    ensures before.Some? && !InRange(world, t, before.value)
  {
    hide Interleaved;
    var c := world(t).edge;
    if found {
      assert forall j :: p < j <= s ==> entries[s - j] == world(1).chain[j];
      assert c > s;
      NotInRange(world, t, s + 1);
    }
  }

  /** A snapshot the walk reached has been renamed away: only a boundary already crossed explains it. */
  method Crossed(world: nat -> Registry, t: nat, limit: nat, before: Option<Name>, head: Name, failed: Name,
                 visited: set<Name>, found: bool, entries: seq<Name>, ghost p: nat, ghost s: int)
    returns (r: Outcome<Page>)
    requires Interleaved(world) && t >= 1
    requires Walking(world, limit, before, p, visited, found, entries, s)
    requires head == world(1).chain[|world(1).chain| - 1] && failed == world(1).chain[p] && p < world(t).edge
    requires world(t).root.boundary.Some?
    ensures Explained(world, t, limit, before, r)
  {
    hide Inv, Evolves, Interleaved;
    ghost var chain := world(1).chain;
    ghost var c := world(t).edge;
    ChainDistinct(world);
    if Overrun(world, t) {
      OverrunUnseen(world, t, p);
    } else {
      BoundaryName(world, t);
    }
    var boundary := world(t).root.boundary;
    if boundary.None? || boundary.value == failed || !(boundary.value in visited + {failed}) {
      if !Overrun(world, t) {
        UniqueIndex(chain, c, p);
      }
      return Err(NotFound);
    }
    var crossed := boundary.value;
    if before == Some(crossed) {
      r := Ok(Page(head, [], false, None, false, true));
      assert BoundaryDuring(world, t, chain[c]);
      assert Delivered(world, t, limit, before, r.value, c - 1);
    } else if crossed in entries {
      var at := Position(entries, crossed);
      r := Ok(Page(head, entries[..at + 1], false, None, false, true));
      CrossedInside(world, t, limit, before, p, visited, found, entries, s, at);
    } else {
      CursorBehind(world, t, limit, before, p, visited, found, entries, s);
      r := Err(NotFound);
    }
  }

  /** A boundary among the collected entries ends the page there. */
  lemma CrossedInside(world: nat -> Registry, t: nat, limit: nat, before: Option<Name>, p: nat, visited: set<Name>,
                      found: bool, entries: seq<Name>, s: int, at: nat)
    requires Interleaved(world) && !Overrun(world, t) && t >= 1 && Walking(world, limit, before, p, visited, found, entries, s)
    requires p < world(t).edge && world(t).root.boundary.Some?
    requires at < |entries| && entries[at] == world(t).root.boundary.value && before != world(t).root.boundary
    ensures
      var chain := world(1).chain;
      Delivered(world, t, limit, before, Page(chain[|chain| - 1], entries[..at + 1], false, None, false, true), s)
  {
    hide Inv, Evolves, Interleaved;
    BoundaryName(world, t);
    ChainDistinct(world);
    var chain, c := world(1).chain, world(t).edge;
    UniqueIndex(chain, s - at, c);
    assert BoundaryDuring(world, t, chain[c]);
    assert entries[..at + 1] == Run(chain, s, at + 1);
  }

  /** A boundary beyond the head is nothing the walk has seen. */
  lemma OverrunUnseen(world: nat -> Registry, k: nat, p: nat)
    requires Interleaved(world) && k >= 1 && Overrun(world, k) && p < |world(1).chain|
    ensures world(k).root.boundary.Some? ==> world(k).root.boundary.value !in Seen(world(1).chain, p) + {world(1).chain[p]}
  {
    hide Linked, LegacyRoot, Present;
    WorldEvolves(world, 1, k);
    assert Inv(world(k));
  }

  lemma ChainDistinct(world: nat -> Registry)
    requires Interleaved(world)
    ensures Distinct(world(1).chain)
  {
    assert Inv(world(1));
  }

  method Position(names: seq<Name>, name: Name) returns (at: nat)
    requires name in names
    ensures at < |names| && names[at] == name && name !in names[..at]
  {
    at := 0;
    while names[at] != name
      invariant at < |names| && name !in names[..at] && name in names[at..]
      decreases |names| - at
    {
      at := at + 1;
    }
  }

  /** The head is there unless the boundary has passed it. */
  lemma HeadPresent(world: nat -> Registry, k: nat)
    requires Interleaved(world) && world(1).chain != [] && k >= 1
    ensures world(1).chain[|world(1).chain| - 1] in world(k).root.snapshots || Overrun(world, k)
  {
    hide Inv, Evolves, Interleaved;
    if world(1).chain[|world(1).chain| - 1] !in world(k).root.snapshots {
      MissingIsBehind(world, 1, |world(1).chain| - 1, k, k);
    }
  }

  lemma HeadFacts(world: nat -> Registry)
    requires Interleaved(world) && world(1).chain != []
    ensures world(1).root.current == Some(world(1).chain[|world(1).chain| - 1])
    ensures world(0).edge < |world(1).chain|
  {
    hide Linked, LegacyRoot, Distinct, Present;
    WorldEvolves(world, 0, 1);
    assert Inv(world(0)) && Inv(world(1));
  }

  lemma NoChain(world: nat -> Registry)
    requires Interleaved(world)
    ensures world(1).root.current.None? <==> world(1).chain == []
  {
    assert Inv(world(1));
  }

  /** The boundary first read names a chain snapshot, the one at its index. */
  lemma FirstBoundary(world: nat -> Registry, p: nat)
    requires Interleaved(world) && p < |world(1).chain|
    ensures world(0).root.boundary == Some(world(1).chain[p]) <==> world(0).root.boundary.Some? && world(0).edge == p
    ensures world(0).root.boundary.None? ==> world(0).edge == 0
  {
    WorldEvolves(world, 0, 1);
    assert Inv(world(0)) && Inv(world(1));
  }

  lemma SeenStep(world: nat -> Registry, p: nat, visited: set<Name>)
    requires Interleaved(world) && p < |world(1).chain| && visited == Seen(world(1).chain, p)
    ensures world(1).chain[p] !in visited
    ensures visited + {world(1).chain[p]} == Seen(world(1).chain, p - 1)
    ensures Above(visited + {world(1).chain[p]}, world(1).chain, p - 1)
  {
    assert Inv(world(1));
  }

  lemma RunStep(chain: seq<Name>, from: int, count: nat)
    requires -1 <= from < |chain| && count <= from
    ensures Run(chain, from, count + 1) == Run(chain, from, count) + [chain[from - count]]
  {}

  lemma WalkStart(world: nat -> Registry, limit: nat, before: Option<Name>)
    requires Interleaved(world) && world(1).chain != []
    ensures Walking(world, limit, before, |world(1).chain| - 1, {}, before.None?, [], |world(1).chain| - 1)
  {
    HeadFacts(world);
  }

  lemma Advance(world: nat -> Registry, limit: nat, before: Option<Name>, p: nat,
                visited: set<Name>, found: bool, entries: seq<Name>, s: int)
    requires Interleaved(world) && Walking(world, limit, before, p, visited, found, entries, s)
    requires world(0).edge <= p && |entries| < limit
    ensures
      var name := world(1).chain[p];
      var seen := visited + {name};
      && (found ==> Walking(world, limit, before, p - 1, seen, true, entries + [name], s))
      && (!found && before == Some(name) ==> Walking(world, limit, before, p - 1, seen, true, [], p - 1))
      && (!found && before != Some(name) ==> Walking(world, limit, before, p - 1, seen, false, [], p - 1))
  {
    hide Interleaved, Seen;
    SeenStep(world, p, visited);
    if found {
      RunStep(world(1).chain, s, |entries|);
    }
  }

  lemma WalkFacts(world: nat -> Registry, limit: nat, before: Option<Name>, p: int,
                  visited: set<Name>, found: bool, entries: seq<Name>, s: int)
    requires Walking(world, limit, before, p, visited, found, entries, s)
    ensures -1 <= p < |world(1).chain| && visited == Seen(world(1).chain, p) && |visited| == |world(1).chain| - 1 - p
    ensures (!found ==> entries == []) && |entries| <= limit
    ensures found && entries != [] ==> p + 1 < |world(1).chain|
  {}

  lemma LimitReached(world: nat -> Registry, limit: nat, before: Option<Name>, p: int,
                     visited: set<Name>, found: bool, entries: seq<Name>, s: int)
    requires Interleaved(world) && Walking(world, limit, before, p, visited, found, entries, s)
    requires |visited| == 10_000 && |entries| < limit && world(0).edge <= p
    ensures TooDeep(world, limit, before)
  {
    hide Interleaved;
    ChainDistinct(world);
    forall s': int | StartsAt(world(1).chain, before, s') ensures |world(1).chain| - 1 - s' + limit > 10_000 {
      if found && before.Some? {
        UniqueIndex(world(1).chain, s + 1, s' + 1);
      }
    }
  }

  /** What the walk hands over once it stops. */
  lemma Deliver(world: nat -> Registry, t: nat, limit: nat, before: Option<Name>, p: int,
                visited: set<Name>, entries: seq<Name>, s: int, page: Page)
    requires Walking(world, limit, before, p, visited, true, entries, s) && limit >= 1
    requires page.head == world(1).chain[|world(1).chain| - 1] && page.entries == entries
    requires page.hasMore ==> p >= 0 && |entries| == limit && world(0).root.boundary != Some(world(1).chain[p + 1])
    requires page.nextBefore == (if page.hasMore then Some(entries[|entries| - 1]) else None)
    requires page.retentionBoundary ==> 0 <= p < |world(1).chain| - 1 && world(0).root.boundary == Some(world(1).chain[p + 1])
    requires !page.hasMore && !page.retentionBoundary ==> p == -1
    requires page.legacyBoundary <==> p == -1 && LegacyRoot(world(1))
    ensures Delivered(world, t, limit, before, page, s)
  {
    assert page.retentionBoundary ==> BoundaryDuring(world, t, world(1).chain[p + 1]);
  }

  /** The walk of one page; `t` counts its reads. */
  method HistoryWalk(world: nat -> Registry, limit: nat, before: Option<Name>) returns (r: Outcome<Page>, t: nat)
    requires Interleaved(world) && limit >= 1
    ensures Explained(world, t, limit, before, r)
  {
    hide Inv, Evolves, Interleaved, Walking, Seen, LegacyRoot;
    var boundary := world(0).root.boundary;
    var current := world(1).root.current;
    NoChain(world);
    t := 2;
    if current.None? {
      return Err(NotFound), t;
    }
    ghost var chain := world(1).chain;
    HeadPresent(world, 2);
    HeadFacts(world);
    var head := current.value;
    if head !in world(2).root.snapshots {
      return Err(NotFound), t;
    }
    t := 3;
    var found := before.None?;
    var next := Some(head);
    var visited: set<Name> := {};
    var entries: seq<Name> := [];
    var legacy, retained := false, false;
    ghost var p: int := |chain| - 1;
    ghost var s: int := |chain| - 1;
    WalkStart(world, limit, before);
    while next.Some? && |entries| < limit
      invariant Walking(world, limit, before, p, visited, found, entries, s)
      invariant next.Some? ==> p >= 0 && next.value == chain[p] && world(0).edge <= p && !retained && !legacy
      invariant next.Some? && p + 1 < |chain| ==> boundary != Some(chain[p + 1])
      invariant retained ==> next.None? && 0 <= p < |chain| - 1 && boundary == Some(chain[p + 1])
      invariant next.None? && !retained ==> p == -1
      invariant p == -1 ==> next.None? && !retained
      invariant legacy <==> p == -1 && LegacyRoot(world(1))
      decreases p + 1
    {
      WalkFacts(world, limit, before, p, visited, found, entries, s);
      if |visited| == WALK_LIMIT {
        LimitReached(world, limit, before, p, visited, found, entries, s);
        return Err(Limit), t;
      }
      var snapshot := next.value;
      SeenStep(world, p, visited);
      if snapshot in visited {
        return Err(Format), t;
      }
      var step, t' := ChainStep(world, t, snapshot, visited + {snapshot}, 1, p);
      t := t';
      if step.Err? {
        ErrorBoundary(world, t, p);
        r := Crossed(world, t, limit, before, head, snapshot, visited, found, entries, p, s);
        return;
      }
      Advance(world, limit, before, p, visited, found, entries, s);
      visited := visited + {snapshot};
      if step.value.None? {
        legacy := true;
      }
      next := if step.value.Some? then step.value.value.previous else None;
      FirstBoundary(world, p);
      if next.Some? && boundary == Some(snapshot) {
        next, retained := None, true;
      }
      p := p - 1;
      if !found {
        found := before == Some(snapshot);
        s := p;
      } else {
        entries := entries + [snapshot];
      }
    }
    WalkFacts(world, limit, before, p, visited, found, entries, s);
    if !found {
      CursorNowhere(world, limit, before, p, visited, entries, s);
      return Err(NotFound), t;
    }
    var hasMore := next.Some?;
    var nextBefore := if hasMore then Some(entries[|entries| - 1]) else None;
    r := Ok(Page(head, entries, hasMore, nextBefore, legacy, retained));
    Deliver(world, t, limit, before, p, visited, entries, s, r.value);
  }

  lemma ErrorBoundary(world: nat -> Registry, t: nat, p: nat)
    requires Interleaved(world) && t >= 1 && p < world(t).edge
    ensures world(t).root.boundary.Some?
  {
    assert Inv(world(t));
  }

  lemma CursorNowhere(world: nat -> Registry, limit: nat, before: Option<Name>, p: int,
                      visited: set<Name>, entries: seq<Name>, s: int)
    requires Interleaved(world)
    requires Walking(world, limit, before, p, visited, false, entries, s)
    requires p == -1 || (p + 1 < |world(1).chain| && world(0).root.boundary == Some(world(1).chain[p + 1]))
    ensures before.Some? && !InRange(world, 0, before.value)
  {
    hide Interleaved;
    if p >= 0 {
      FirstBoundary(world, p + 1);
    }
  }
}
