/** Additive compatibility of protocol bundles: what a hot reload may replace while it runs. */
module SchemaCompatibility {
  import opened Common

  type Name = string

  datatype Cardinality = Optional | Required | Repeated

  /** Scalar kinds are told apart by a number; messages and enums by full name. */
  datatype Kind = Scalar(code: nat) | MessageKind(message: Name) | EnumKind(enumeration: Name)

  datatype Field = Field(
    number: nat,
    name: Name,
    jsonName: Name,
    cardinality: Cardinality,
    isMap: bool,
    packed: bool,
    presence: bool,
    proto3Optional: bool,
    oneof: Option<Name>,
    defaultValue: Option<string>,
    kind: Kind
  )

  datatype Message = Message(mapEntry: bool, fields: seq<Field>)

  datatype EnumValue = EnumValue(name: Name, number: int)

  /** Several names may share a number; a lookup by number finds the first. */
  datatype Enum = Enum(values: seq<EnumValue>, defaultName: Name, defaultNumber: int)

  function NumberOf(values: seq<EnumValue>, name: Name): (n: Option<int>)
    ensures n.Some? ==> EnumValue(name, n.value) in values
    ensures n.None? ==> forall v :: v in values ==> v.name != name
  {
    if values == [] then None else if values[0].name == name then Some(values[0].number) else NumberOf(values[1..], name)
  }

  function NameOf(values: seq<EnumValue>, number: int): (n: Option<Name>)
    ensures n.Some? ==> EnumValue(n.value, number) in values
    ensures n.None? ==> forall v :: v in values ==> v.number != number
  {
    if values == [] then None else if values[0].number == number then Some(values[0].name) else NameOf(values[1..], number)
  }

  ghost predicate NamesApart(e: Enum) {
    forall i, j :: 0 <= i < j < |e.values| ==> e.values[i].name != e.values[j].name
  }

  /** Method options: the authentication mark, and the rest as bytes. */
  datatype Options = Options(skipsAuthentication: bool, rest: seq<nat>)

  datatype Method = Method(input: Name, output: Name, options: Options, clientStreaming: bool, serverStreaming: bool)

  datatype Route =
    | Version | Announcements | Announcement | Profile | EventRanking | EventDeck | MusicRanking
    | ChallengeRanking | Whoami | PlayerData | ServerList | PlayerLogin

  const ROUTES: seq<Route> := [
    Version, Announcements, Announcement, Profile, EventRanking, EventDeck, MusicRanking, ChallengeRanking, Whoami, PlayerData]

  const GLOBAL_CONTRACT: seq<Route> := [
    Version, ServerList, Announcements, Announcement, Profile, EventRanking, EventDeck, MusicRanking, ChallengeRanking,
    PlayerData, PlayerLogin]

  /** `marked` says whether the bundle defines the authentication mark. */
  datatype Pool = Pool(marked: bool, methods: map<Route, Method>, messages: map<Name, Message>, enums: map<Name, Enum>)

  /** A descriptor pool resolves every name it uses, and numbers its fields apart. */
  ghost predicate PoolOk(p: Pool) {
    && (forall r :: r in p.methods ==> p.methods[r].input in p.messages && p.methods[r].output in p.messages)
    && (forall m :: m in p.messages ==> MessageResolved(p, p.messages[m]))
    && (forall e :: e in p.enums ==> NamesApart(p.enums[e]))
  }

  ghost predicate MessageResolved(p: Pool, m: Message) {
    && (forall i :: 0 <= i < |m.fields| ==> KindResolved(p, m.fields[i].kind))
    && (forall i, j :: 0 <= i < j < |m.fields| ==> m.fields[i].number != m.fields[j].number)
  }

  predicate KindResolved(p: Pool, k: Kind) {
    match k
    case Scalar(_) => true
    case MessageKind(name) => name in p.messages
    case EnumKind(name) => name in p.enums
  }

  /** The contracts: everything but the login routes, and everything but Whoami. */
  lemma ContractsAre(r: Route)
    ensures r in ROUTES <==> !r.ServerList? && !r.PlayerLogin?
    ensures r in GLOBAL_CONTRACT <==> !r.Whoami?
  {
    var i := match r
      case Version => 0 case Announcements => 1 case Announcement => 2 case Profile => 3 case EventRanking => 4 case EventDeck => 5
      case MusicRanking => 6 case ChallengeRanking => 7 case Whoami => 8 case PlayerData => 9 case _ => 0;
    assert !r.ServerList? && !r.PlayerLogin? ==> ROUTES[i] == r;
    var j := match r
      case Version => 0 case ServerList => 1 case Announcements => 2 case Announcement => 3 case Profile => 4 case EventRanking => 5
      case EventDeck => 6 case MusicRanking => 7 case ChallengeRanking => 8 case PlayerData => 9 case PlayerLogin => 10 case _ => 0;
    assert !r.Whoami? ==> GLOBAL_CONTRACT[j] == r;
  }

  // ---- The checks on one route, one enum, one field and one message ----

  predicate RouteOk(a: Pool, b: Pool, r: Route) {
    && r in a.methods && r in b.methods
    && a.methods[r].input == b.methods[r].input && a.methods[r].output == b.methods[r].output
    && a.methods[r].options == b.methods[r].options
    && !b.methods[r].clientStreaming && !b.methods[r].serverStreaming
  }

  /** Whatever the old enum knows, by name or by number, the new one knows alike, and the default is the same. */
  ghost predicate EnumOk(m: Enum, n: Enum) {
    && m.defaultNumber == n.defaultNumber && m.defaultName == n.defaultName
    && (forall name :: NumberOf(m.values, name).Some? ==> NumberOf(n.values, name) == NumberOf(m.values, name))
    && (forall number :: NameOf(m.values, number).Some? ==> NameOf(n.values, number) == NameOf(m.values, number))
  }

  function FieldFrom(fields: seq<Field>, number: nat): (f: Option<Field>)
    ensures f.Some? ==> f.value in fields && f.value.number == number
    ensures f.None? ==> forall g :: g in fields ==> g.number != number
  {
    if fields == [] then None
    else if fields[0].number == number then Some(fields[0])
    else FieldFrom(fields[1..], number)
  }

  ghost predicate KindOk(a: Pool, b: Pool, x: Kind, y: Kind) {
    && x == y
    && (x.EnumKind? ==> x.enumeration in a.enums && x.enumeration in b.enums && EnumOk(a.enums[x.enumeration], b.enums[x.enumeration]))
  }

  ghost predicate FieldOk(a: Pool, b: Pool, x: Field, y: Field) {
    x.(kind := y.kind) == y && KindOk(a, b, x.kind, y.kind)
  }

  /** A field of `m` is still there and the same. */
  ghost predicate Kept(a: Pool, b: Pool, x: Field, n: Message) {
    var y := FieldFrom(n.fields, x.number);
    y.Some? && FieldOk(a, b, x, y.value)
  }

  predicate MayAdd(m: Message, added: Field) {
    added.cardinality == Required ==> FieldFrom(m.fields, added.number).Some?
  }

  ghost predicate MessageOk(a: Pool, b: Pool, name: Name) {
    && name in a.messages && name in b.messages
    && var m, n := a.messages[name], b.messages[name];
    && m.mapEntry == n.mapEntry
    && (forall added :: added in n.fields ==> MayAdd(m, added))
    && (forall x :: x in m.fields ==> Kept(a, b, x, n))
  }

  // ---- Reachable messages ----

  ghost predicate Edge(p: Pool, from: Name, to: Name) {
    from in p.messages && exists f :: f in p.messages[from].fields && f.kind == MessageKind(to)
  }

  ghost predicate Root(p: Pool, routes: seq<Route>, name: Name) {
    exists r :: r in routes && r in p.methods && (name == p.methods[r].input || name == p.methods[r].output)
  }

  /** A chain of fields from a route's input or output. */
  ghost predicate Chain(p: Pool, routes: seq<Route>, path: seq<Name>) {
    && path != [] && Root(p, routes, path[0])
    && forall i :: 0 <= i < |path| - 1 ==> Edge(p, path[i], path[i + 1])
  }

  ghost predicate Reachable(p: Pool, routes: seq<Route>, name: Name) {
    exists path :: Chain(p, routes, path) && path[|path| - 1] == name
  }

  ghost predicate CompatibleOver(a: Pool, b: Pool, routes: seq<Route>) {
    && (forall r :: r in routes ==> RouteOk(a, b, r))
    && (forall name :: Reachable(a, routes, name) ==> MessageOk(a, b, name))
  }

  predicate HasServerList(p: Pool) {
    ServerList in p.methods
  }

  function Contract(p: Pool): seq<Route> {
    if HasServerList(p) then GLOBAL_CONTRACT else ROUTES
  }

  ghost predicate Compatible(a: Pool, b: Pool) {
    CompatibleOver(a, b, Contract(a))
  }

  // ---- Reachability ----

  lemma RootReachable(p: Pool, routes: seq<Route>, name: Name)
    requires Root(p, routes, name)
    ensures Reachable(p, routes, name)
  {
    assert Chain(p, routes, [name]);
  }

  lemma EdgeReachable(p: Pool, routes: seq<Route>, from: Name, to: Name)
    requires Reachable(p, routes, from) && Edge(p, from, to)
    ensures Reachable(p, routes, to)
  {
    hide Edge, Root;
    var path :| Chain(p, routes, path) && path[|path| - 1] == from;
    var path' := path + [to];
    forall i | 0 <= i < |path'| - 1 ensures Edge(p, path'[i], path'[i + 1]) {
      if i < |path| - 1 {
        assert Edge(p, path[i], path[i + 1]);
      }
    }
    assert Chain(p, routes, path');
  }

  /** A set that holds the roots and is closed under fields holds every reachable message. */
  lemma {:induction false} ClosedHoldsChain(p: Pool, routes: seq<Route>, closed: set<Name>, path: seq<Name>)
    requires Chain(p, routes, path)
    requires forall name :: Root(p, routes, name) ==> name in closed
    requires forall from, to :: from in closed && Edge(p, from, to) ==> to in closed
    ensures path[|path| - 1] in closed
  {
    hide Edge, Root;
    if |path| > 1 {
      var init := path[..|path| - 1];
      assert forall i :: 0 <= i < |init| - 1 ==> Edge(p, path[i], path[i + 1]);
      ClosedHoldsChain(p, routes, closed, init);
      assert Edge(p, path[|path| - 2], path[|path| - 2 + 1]);
    }
  }

  // ---- The worklist ----

  /** The message kinds of the fields, in order. */
  function Targets(fields: seq<Field>): seq<Name> {
    if fields == [] then []
    else
      var last := fields[|fields| - 1];
      Targets(fields[..|fields| - 1]) + (if last.kind.MessageKind? then [last.kind.message] else [])
  }

  lemma TargetsSnoc(fields: seq<Field>, i: nat)
    requires i < |fields|
    ensures Targets(fields[..i + 1]) == Targets(fields[..i]) + (if fields[i].kind.MessageKind? then [fields[i].kind.message] else [])
  {
    assert fields[..i + 1][..i] == fields[..i];
  }

  lemma TargetsNone(fields: seq<Field>)
    ensures Targets(fields[..0]) == []
  {}

  lemma {:induction false} TargetsAre(fields: seq<Field>, name: Name)
    ensures name in Targets(fields) <==> exists f :: f in fields && f.kind == MessageKind(name)
  {
    if fields != [] {
      var init, last := fields[..|fields| - 1], fields[|fields| - 1];
      TargetsAre(init, name);
      assert forall f :: f in fields <==> f in init || f == last;
    }
  }

  /** One old value is read alike by the new enum. */
  predicate ValueOk(m: Enum, n: Enum, v: EnumValue) {
    NumberOf(n.values, v.name) == Some(v.number) && NameOf(n.values, v.number) == NameOf(m.values, v.number)
  }

  /** Names being apart, checking every old value is checking every lookup. */
  lemma ValuesDecide(m: Enum, n: Enum)
    requires NamesApart(m) && m.defaultNumber == n.defaultNumber && m.defaultName == n.defaultName
    ensures EnumOk(m, n) <==> forall v :: v in m.values ==> ValueOk(m, n, v)
  {
    if forall v :: v in m.values ==> ValueOk(m, n, v) {
      forall name | NumberOf(m.values, name).Some? ensures NumberOf(n.values, name) == NumberOf(m.values, name) {
        assert ValueOk(m, n, EnumValue(name, NumberOf(m.values, name).value));
      }
      forall number | NameOf(m.values, number).Some? ensures NameOf(n.values, number) == NameOf(m.values, number) {
        assert ValueOk(m, n, EnumValue(NameOf(m.values, number).value, number));
      }
    }
    if EnumOk(m, n) {
      forall v | v in m.values ensures ValueOk(m, n, v) {
        OnlyNumber(m, v);
      }
    }
  }

  lemma OnlyNumber(m: Enum, v: EnumValue)
    requires NamesApart(m) && v in m.values
    ensures NumberOf(m.values, v.name) == Some(v.number) && NameOf(m.values, v.number).Some?
  {
    var u := EnumValue(v.name, NumberOf(m.values, v.name).value);
    var i :| 0 <= i < |m.values| && m.values[i] == v;
    var j :| 0 <= j < |m.values| && m.values[j] == u;
    assert m.values[i].name == m.values[j].name;
  }

  method CheckEnum(m: Enum, n: Enum) returns (ok: bool)
    requires NamesApart(m)
    ensures ok <==> EnumOk(m, n)
  {
    hide EnumOk, NamesApart, ValueOk;
    if m.defaultNumber != n.defaultNumber || m.defaultName != n.defaultName {
      DefaultsDiffer(m, n);
      return false;
    }
    ValuesDecide(m, n);
    for i := 0 to |m.values|
      invariant forall k :: 0 <= k < i ==> ValueOk(m, n, m.values[k])
    {
      if !ValueOk(m, n, m.values[i]) {
        return false;
      }
    }
    ok := true;
  }

  lemma DefaultsDiffer(m: Enum, n: Enum)
    requires m.defaultNumber != n.defaultNumber || m.defaultName != n.defaultName
    ensures !EnumOk(m, n)
  {}

  method CheckMessage(a: Pool, b: Pool, name: Name) returns (ok: bool, found: seq<Name>)
    requires name in a.messages && name in b.messages
    requires MessageResolved(a, a.messages[name]) && MessageResolved(b, b.messages[name])
    requires forall e :: e in a.enums ==> NamesApart(a.enums[e])
    ensures ok <==> MessageOk(a, b, name)
    ensures ok ==> found == Targets(a.messages[name].fields)
  {
    hide Kept, KindResolved, Targets, FieldFrom;
    var m, n := a.messages[name], b.messages[name];
    found := [];
    if m.mapEntry != n.mapEntry {
      return false, [];
    }
    for i := 0 to |n.fields|
      invariant forall k :: 0 <= k < i ==> MayAdd(m, n.fields[k])
    {
      if n.fields[i].cardinality == Required && FieldFrom(m.fields, n.fields[i].number).None? {
        assert !MayAdd(m, n.fields[i]);
        return false, [];
      }
    }
    TargetsNone(m.fields);
    for i := 0 to |m.fields|
      invariant forall k :: 0 <= k < i ==> Kept(a, b, m.fields[k], n)
      invariant found == Targets(m.fields[..i])
    {
      var x := m.fields[i];
      var kept := CheckField(a, b, x, n);
      if !kept {
        return false, [];
      }
      TargetsSnoc(m.fields, i);
      if x.kind.MessageKind? {
        found := found + [x.kind.message];
      }
    }
    assert m.fields[..|m.fields|] == m.fields;
    ok := true;
  }

  method CheckField(a: Pool, b: Pool, x: Field, n: Message) returns (ok: bool)
    requires KindResolved(a, x.kind) && MessageResolved(b, n) && forall e :: e in a.enums ==> NamesApart(a.enums[e])
    ensures ok <==> Kept(a, b, x, n)
  {
    hide EnumOk;
    var found := FieldFrom(n.fields, x.number);
    if found.None? {
      return false;
    }
    var y := found.value;
    if x.name != y.name || x.jsonName != y.jsonName || x.cardinality != y.cardinality || x.isMap != y.isMap
       || x.packed != y.packed || x.presence != y.presence || x.proto3Optional != y.proto3Optional
       || x.oneof != y.oneof || x.defaultValue != y.defaultValue {
      return false;
    }
    if x.kind.EnumKind? && y.kind.EnumKind? && x.kind.enumeration == y.kind.enumeration {
      ok := CheckEnum(a.enums[x.kind.enumeration], b.enums[x.kind.enumeration]);
    } else {
      ok := x.kind == y.kind;
    }
  }

  /** What the worklist knows: everything on it is reachable, everything visited passed, and what a
      visited message leads to is visited or waiting. */
  ghost predicate Explored(a: Pool, b: Pool, routes: seq<Route>, visited: set<Name>, pending: seq<Name>) {
    && (forall name :: name in pending ==> Reachable(a, routes, name) && name in a.messages)
    && (forall name :: name in visited ==> MessageOk(a, b, name))
    && (forall name :: Root(a, routes, name) ==> name in visited || name in pending)
    && (forall from, to :: from in visited && Edge(a, from, to) ==> to in visited || to in pending)
  }

  lemma ExploreSkip(a: Pool, b: Pool, routes: seq<Route>, visited: set<Name>, pending: seq<Name>)
    requires Explored(a, b, routes, visited, pending) && pending != [] && pending[|pending| - 1] in visited
    ensures Explored(a, b, routes, visited, pending[..|pending| - 1])
  {
    hide Reachable, MessageOk, Root, Edge;
    var name := pending[|pending| - 1];
    assert forall other :: other in pending ==> other == name || other in pending[..|pending| - 1];
  }

  lemma ExploreVisit(a: Pool, b: Pool, routes: seq<Route>, visited: set<Name>, pending: seq<Name>)
    requires PoolOk(a) && Explored(a, b, routes, visited, pending) && pending != []
    requires MessageOk(a, b, pending[|pending| - 1])
    ensures
      var name := pending[|pending| - 1];
      Explored(a, b, routes, visited + {name}, pending[..|pending| - 1] + Targets(a.messages[name].fields))
  {
    hide Reachable, Root, Targets, Kept, MayAdd, KindResolved;
    var name := pending[|pending| - 1];
    var next := Targets(a.messages[name].fields);
    var pending' := pending[..|pending| - 1] + next;
    assert forall other :: other in pending ==> other == name || other in pending[..|pending| - 1];
    forall to ensures to in next <==> Edge(a, name, to) {
      TargetsAre(a.messages[name].fields, to);
    }
    forall to | to in next ensures Reachable(a, routes, to) && to in a.messages {
      EdgeReachable(a, routes, name, to);
      EdgeResolved(a, name, to);
    }
  }

  lemma EdgeResolved(p: Pool, from: Name, to: Name)
    requires PoolOk(p) && Edge(p, from, to)
    ensures to in p.messages
  {
    assert MessageResolved(p, p.messages[from]);
    var f :| f in p.messages[from].fields && f.kind == MessageKind(to);
    var i :| 0 <= i < |p.messages[from].fields| && p.messages[from].fields[i] == f;
    assert KindResolved(p, p.messages[from].fields[i].kind);
  }

  lemma ExploredAll(a: Pool, b: Pool, routes: seq<Route>, visited: set<Name>)
    requires Explored(a, b, routes, visited, [])
    ensures forall name :: Reachable(a, routes, name) ==> MessageOk(a, b, name)
  {
    hide MessageOk, Root, Edge;
    forall name | Reachable(a, routes, name) ensures MessageOk(a, b, name) {
      var path :| Chain(a, routes, path) && path[|path| - 1] == name;
      ClosedHoldsChain(a, routes, visited, path);
    }
  }

  /** The decision is exact. */
  method Check(a: Pool, b: Pool) returns (ok: bool)
    requires PoolOk(a) && PoolOk(b)
    ensures ok <==> Compatible(a, b)
  {
    hide PoolOk, RouteOk, MessageOk, Reachable, Root, Edge, Contract;
    var routes := Contract(a);
    var pending: seq<Name> := [];
    NoRoots(a, routes[..0]);
    for i := 0 to |routes|
      invariant forall k :: 0 <= k < i ==> RouteOk(a, b, routes[k])
      invariant forall name :: name in pending <==> Root(a, routes[..i], name)
    {
      var r := routes[i];
      if !RouteOk(a, b, r) {
        return false;
      }
      RouteFacts(a, b, r);
      PendingSnoc(a, routes, i, pending);
      pending := pending + [a.methods[r].input, a.methods[r].output];
    }
    assert routes[..|routes|] == routes;
    ok := Walk(a, b, routes, pending);
  }

  lemma RouteFacts(a: Pool, b: Pool, r: Route)
    requires RouteOk(a, b, r)
    ensures r in a.methods && r in b.methods
  {}

  lemma NoRoots(p: Pool, routes: seq<Route>)
    requires routes == []
    ensures forall name :: !Root(p, routes, name)
  {}

  lemma RootSnoc(p: Pool, routes: seq<Route>, i: nat)
    requires i < |routes| && routes[i] in p.methods
    ensures forall name :: Root(p, routes[..i + 1], name) <==>
      Root(p, routes[..i], name) || name == p.methods[routes[i]].input || name == p.methods[routes[i]].output
  {
    var more, last := routes[..i + 1], p.methods[routes[i]];
    assert more == routes[..i] + [routes[i]];
    forall name ensures Root(p, more, name) <==> Root(p, routes[..i], name) || name == last.input || name == last.output {
      if Root(p, routes[..i], name) {
        var r :| r in routes[..i] && r in p.methods && (name == p.methods[r].input || name == p.methods[r].output);
        assert r in more;
      }
      if name == last.input || name == last.output {
        assert routes[i] in more && routes[i] in p.methods;
      }
    }
  }

  lemma PendingSnoc(p: Pool, routes: seq<Route>, i: nat, pending: seq<Name>)
    requires i < |routes| && routes[i] in p.methods
    requires forall name :: name in pending <==> Root(p, routes[..i], name)
    ensures
      var m := p.methods[routes[i]];
      forall name :: name in pending + [m.input, m.output] <==> Root(p, routes[..i + 1], name)
  {
    hide Root;
    RootSnoc(p, routes, i);
    var m := p.methods[routes[i]];
    forall name ensures name in pending + [m.input, m.output] <==> Root(p, routes[..i + 1], name) {
      TwoMore(pending, m.input, m.output, name);
      assert Root(p, routes[..i + 1], name) <==> Root(p, routes[..i], name) || name == m.input || name == m.output;
    }
  }

  lemma TwoMore(names: seq<Name>, x: Name, y: Name, name: Name)
    ensures name in names + [x, y] <==> name in names || name == x || name == y
  {
    assert names + [x, y] == names + [x] + [y];
    assert name in names + [x] <==> name in names || name == x;
  }

  lemma RootsExplored(a: Pool, b: Pool, routes: seq<Route>, pending: seq<Name>)
    requires PoolOk(a) && forall name :: name in pending <==> Root(a, routes, name)
    ensures Explored(a, b, routes, {}, pending)
  {
    hide Reachable, MessageOk, Edge;
    forall name | name in pending ensures Reachable(a, routes, name) && name in a.messages {
      RootReachable(a, routes, name);
    }
  }

  method Walk(a: Pool, b: Pool, routes: seq<Route>, roots: seq<Name>) returns (ok: bool)
    requires PoolOk(a) && PoolOk(b)
    requires forall name :: name in roots <==> Root(a, routes, name)
    ensures ok <==> forall name :: Reachable(a, routes, name) ==> MessageOk(a, b, name)
  {
    hide Explored, MessageOk, Reachable, Root, Edge, MessageResolved, Targets;
    var pending, visited: set<Name> := roots, {};
    RootsExplored(a, b, routes, pending);
    while pending != []
      invariant Explored(a, b, routes, visited, pending) && visited <= a.messages.Keys
      decreases |a.messages.Keys - visited|, |pending|
    {
      var name := pending[|pending| - 1];
      ExploredNext(a, b, routes, visited, pending);
      if name in visited {
        ExploreSkip(a, b, routes, visited, pending);
        pending := pending[..|pending| - 1];
        continue;
      }
      if name !in b.messages {
        MissingFails(a, b, name);
        return false;
      }
      var passed, found := CheckMessage(a, b, name);
      if !passed {
        return false;
      }
      ExploreVisit(a, b, routes, visited, pending);
      Shrinks(a.messages.Keys, visited, name);
      pending := pending[..|pending| - 1] + found;
      visited := visited + {name};
    }
    ExploredAll(a, b, routes, visited);
    ok := true;
  }

  lemma ExploredNext(a: Pool, b: Pool, routes: seq<Route>, visited: set<Name>, pending: seq<Name>)
    requires Explored(a, b, routes, visited, pending) && pending != []
    ensures pending[|pending| - 1] in a.messages && Reachable(a, routes, pending[|pending| - 1])
  {
    hide MessageOk, Reachable, Root, Edge;
    assert pending[|pending| - 1] in pending;
  }

  lemma MissingFails(a: Pool, b: Pool, name: Name)
    requires name !in b.messages
    ensures !MessageOk(a, b, name)
  {}

  lemma Shrinks(all: set<Name>, visited: set<Name>, name: Name)
    requires name in all && name !in visited
    ensures |all - (visited + {name})| < |all - visited|
  {
    assert all - visited == (all - (visited + {name})) + {name};
  }

  // ---- Transitivity ----

  lemma EnumTransitive(l: Enum, m: Enum, n: Enum)
    requires EnumOk(l, m) && EnumOk(m, n)
    ensures EnumOk(l, n)
  {}

  lemma KeptTransitive(a: Pool, b: Pool, c: Pool, name: Name, x: Field)
    requires MessageOk(a, b, name) && MessageOk(b, c, name) && x in a.messages[name].fields
    ensures Kept(a, c, x, c.messages[name])
  {
    hide EnumOk;
    assert Kept(a, b, x, b.messages[name]);
    var y := FieldFrom(b.messages[name].fields, x.number).value;
    assert Kept(b, c, y, c.messages[name]);
    if x.kind.EnumKind? {
      var e := x.kind.enumeration;
      EnumTransitive(a.enums[e], b.enums[e], c.enums[e]);
    }
  }

  lemma MayAddTransitive(a: Pool, b: Pool, c: Pool, name: Name, added: Field)
    requires PoolOk(c) && MessageOk(a, b, name) && MessageOk(b, c, name) && added in c.messages[name].fields
    ensures MayAdd(a.messages[name], added)
  {
    hide EnumOk;
    if added.cardinality == Required {
      assert MayAdd(b.messages[name], added);
      var y := FieldFrom(b.messages[name].fields, added.number).value;
      assert Kept(b, c, y, c.messages[name]);
      FieldUnique(c, name, added);
      assert MayAdd(a.messages[name], y);
    }
  }

  lemma FieldUnique(p: Pool, name: Name, f: Field)
    requires PoolOk(p) && name in p.messages && f in p.messages[name].fields
    ensures FieldFrom(p.messages[name].fields, f.number) == Some(f)
  {
    hide KindResolved;
    assert MessageResolved(p, p.messages[name]);
    var fields := p.messages[name].fields;
    var g := FieldFrom(fields, f.number).value;
    var i :| 0 <= i < |fields| && fields[i] == f;
    var j :| 0 <= j < |fields| && fields[j] == g;
    assert fields[i].number == fields[j].number;
  }

  lemma MessageTransitive(a: Pool, b: Pool, c: Pool, name: Name)
    requires PoolOk(c) && MessageOk(a, b, name) && MessageOk(b, c, name)
    ensures MessageOk(a, c, name)
  {
    hide PoolOk, Kept, MayAdd;
    forall x | x in a.messages[name].fields ensures Kept(a, c, x, c.messages[name]) {
      KeptTransitive(a, b, c, name, x);
    }
    forall added | added in c.messages[name].fields ensures MayAdd(a.messages[name], added) {
      MayAddTransitive(a, b, c, name, added);
    }
  }

  /** What is reachable before a compatible change is reachable after it. */
  lemma {:induction false} StillReachable(a: Pool, b: Pool, routes: seq<Route>, path: seq<Name>)
    requires CompatibleOver(a, b, routes) && Chain(a, routes, path)
    ensures Reachable(b, routes, path[|path| - 1])
  {
    hide MessageOk, RouteOk, Edge, Root, Reachable;
    var last := path[|path| - 1];
    if |path| == 1 {
      StillRoot(a, b, routes, last);
      RootReachable(b, routes, last);
    } else {
      var init := path[..|path| - 1];
      var from := init[|init| - 1];
      assert forall i :: 0 <= i < |init| - 1 ==> Edge(a, path[i], path[i + 1]);
      assert Chain(a, routes, init);
      StillReachable(a, b, routes, init);
      assert Edge(a, path[|path| - 2], path[|path| - 2 + 1]);
      assert Reachable(a, routes, from) by { ChainReaches(a, routes, init); }
      StillEdge(a, b, from, last);
      EdgeReachable(b, routes, from, last);
    }
  }

  lemma ChainReaches(p: Pool, routes: seq<Route>, path: seq<Name>)
    requires Chain(p, routes, path)
    ensures Reachable(p, routes, path[|path| - 1])
  {}

  lemma StillRoot(a: Pool, b: Pool, routes: seq<Route>, name: Name)
    requires (forall r :: r in routes ==> RouteOk(a, b, r)) && Root(a, routes, name)
    ensures Root(b, routes, name)
  {
    var r :| r in routes && r in a.methods && (name == a.methods[r].input || name == a.methods[r].output);
    assert RouteOk(a, b, r);
  }

  lemma StillEdge(a: Pool, b: Pool, from: Name, to: Name)
    requires MessageOk(a, b, from) && Edge(a, from, to)
    ensures Edge(b, from, to)
  {
    hide EnumOk;
    var f :| f in a.messages[from].fields && f.kind == MessageKind(to);
    assert Kept(a, b, f, b.messages[from]);
    var g := FieldFrom(b.messages[from].fields, f.number).value;
    assert g in b.messages[from].fields && g.kind == MessageKind(to);
  }

  lemma TransitiveOver(a: Pool, b: Pool, c: Pool, routes: seq<Route>)
    requires PoolOk(c) && CompatibleOver(a, b, routes) && CompatibleOver(b, c, routes)
    ensures CompatibleOver(a, c, routes)
  {
    hide PoolOk, MessageOk;
    forall name | Reachable(a, routes, name) ensures MessageOk(a, c, name) {
      var path :| Chain(a, routes, path) && path[|path| - 1] == name;
      StillReachable(a, b, routes, path);
      MessageTransitive(a, b, c, name);
    }
    forall r | r in routes ensures RouteOk(a, c, r) {
      assert RouteOk(a, b, r) && RouteOk(b, c, r);
    }
  }

  /** Fewer routes ask for less. */
  lemma FewerRoutes(a: Pool, b: Pool, routes: seq<Route>, fewer: seq<Route>)
    requires CompatibleOver(a, b, routes) && forall r :: r in fewer ==> r in routes
    ensures CompatibleOver(a, b, fewer)
  {
    hide MessageOk, RouteOk, Edge;
    forall name | Reachable(a, fewer, name) ensures MessageOk(a, b, name) {
      var path :| Chain(a, fewer, path) && path[|path| - 1] == name;
      assert Chain(a, routes, path);
      ChainReaches(a, routes, path);
    }
  }

  lemma MoreRoutes(a: Pool, b: Pool, some: seq<Route>, more: seq<Route>, routes: seq<Route>)
    requires CompatibleOver(a, b, some) && CompatibleOver(a, b, more)
    requires forall r :: r in routes ==> r in some || r in more
    ensures CompatibleOver(a, b, routes)
  {
    hide MessageOk, RouteOk, Edge;
    forall name | Reachable(a, routes, name) ensures MessageOk(a, b, name) {
      var path :| Chain(a, routes, path) && path[|path| - 1] == name;
      var r :| r in routes && r in a.methods && (path[0] == a.methods[r].input || path[0] == a.methods[r].output);
      if r in some {
        assert Chain(a, some, path);
        ChainReaches(a, some, path);
      } else {
        assert Chain(a, more, path);
        ChainReaches(a, more, path);
      }
    }
  }

  /** Exactly when two compatible steps compose: when the first two bundles agree on having
      GetServerList, and otherwise when the last one still serves Whoami as the first did. */
  lemma ComposesExactly(a: Pool, b: Pool, c: Pool)
    requires PoolOk(c) && Compatible(a, b) && Compatible(b, c)
    ensures Compatible(a, c) <==> HasServerList(a) == HasServerList(b) || CompatibleOver(a, c, [Whoami])
  {
    hide PoolOk, CompatibleOver;
    ContractFacts();
    if HasServerList(a) == HasServerList(b) {
      TransitiveOver(a, b, c, Contract(a));
    } else {
      if HasServerList(a) {
        ServerListKept(a, b);
        assert false;
      }
      FewerRoutes(a, b, ROUTES, COMMON);
      FewerRoutes(b, c, GLOBAL_CONTRACT, COMMON);
      TransitiveOver(a, b, c, COMMON);
      WhoamiDecides(a, c);
    }
  }

  /** The routes of both contracts. */
  const COMMON: seq<Route> := [
    Version, Announcements, Announcement, Profile, EventRanking, EventDeck, MusicRanking, ChallengeRanking, PlayerData]

  lemma ContractFacts()
    ensures ServerList in GLOBAL_CONTRACT && Whoami in ROUTES
    ensures forall r :: r in COMMON ==> r in ROUTES && r in GLOBAL_CONTRACT
    ensures forall r :: r in ROUTES ==> r in COMMON || r in [Whoami]
  {
    assert GLOBAL_CONTRACT[1] == ServerList && ROUTES[8] == Whoami;
  }

  /** Without GetServerList, Whoami is all that is left to ask for. */
  lemma WhoamiDecides(a: Pool, c: Pool)
    requires !HasServerList(a) && CompatibleOver(a, c, COMMON)
    ensures Compatible(a, c) <==> CompatibleOver(a, c, [Whoami])
  {
    hide CompatibleOver;
    ContractFacts();
    if CompatibleOver(a, c, [Whoami]) {
      MoreRoutes(a, c, COMMON, [Whoami], ROUTES);
    }
    if Compatible(a, c) {
      FewerRoutes(a, c, ROUTES, [Whoami]);
    }
  }

  lemma ServerListKept(a: Pool, b: Pool)
    requires Compatible(a, b) && HasServerList(a)
    ensures HasServerList(b)
  {
    hide MessageOk, Reachable;
    ContractFacts();
    assert RouteOk(a, b, ServerList);
  }
}
