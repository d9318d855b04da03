/** Loading a bundle checks the contract the proxy is written against; reloads replace the active bundle
    by a loaded one that is compatible with it. */
module SchemaLoading {
  import opened Common
  import opened SchemaCompatibility

  const STRING := Scalar(9)
  const INT64 := Scalar(3)
  const INT32 := Scalar(5)
  const UINT32 := Scalar(13)

  function ContractFor(family: string): seq<Route> {
    if family == "global" then GLOBAL_CONTRACT else ROUTES
  }

  predicate Authenticated(r: Route) {
    r in {Profile, EventRanking, EventDeck, MusicRanking, ChallengeRanking, Whoami, PlayerData}
  }

  // ---- What a route's messages must offer ----

  predicate IsList(f: Field) {
    f.cardinality == Repeated && !f.isMap
  }

  predicate Offers(f: Field, kind: Kind, repeated: bool) {
    f.kind == kind && IsList(f) == repeated && !f.isMap
  }

  function NamedInJson(fields: seq<Field>, jsonName: Name): (f: Option<Field>)
    ensures f.Some? ==> f.value in fields && f.value.jsonName == jsonName
    ensures f.None? ==> forall g :: g in fields ==> g.jsonName != jsonName
  {
    if fields == [] then None
    else if fields[0].jsonName == jsonName then Some(fields[0])
    else NamedInJson(fields[1..], jsonName)
  }

  predicate HasField(m: Message, jsonName: Name, kind: Kind, repeated: bool) {
    var f := NamedInJson(m.fields, jsonName);
    f.Some? && Offers(f.value, kind, repeated)
  }

  /** A field by number, with the JSON name if one is asked for. */
  predicate Numbered(m: Message, number: nat, jsonName: Option<Name>, kind: Kind) {
    var f := FieldFrom(m.fields, number);
    f.Some? && (jsonName.Some? ==> f.value.jsonName == jsonName.value) && Offers(f.value, kind, false)
  }

  /** A single field by number that is a message, and that message. */
  function Submessage(p: Pool, m: Message, number: nat, jsonName: Name): Option<Message> {
    var f := FieldFrom(m.fields, number);
    if f.Some? && f.value.kind.MessageKind? && f.value.kind.message in p.messages && f.value.jsonName == jsonName && !IsList(f.value)
    then Some(p.messages[f.value.kind.message])
    else None
  }

  predicate ServerListOffered(p: Pool, output: Message) {
    var f := FieldFrom(output.fields, 1);
    && f.Some? && f.value.name == "servers" && f.value.kind.MessageKind? && f.value.kind.message in p.messages && IsList(f.value)
    && var info := p.messages[f.value.kind.message];
    && Numbered(info, 1, Some("name"), STRING) && Numbered(info, 2, Some("cdnRoot"), STRING)
    && Numbered(info, 3, Some("apiServerRoot"), STRING) && Numbered(info, 4, Some("chatServerRoot"), STRING)
    && Numbered(info, 5, Some("atServerRoot"), STRING) && Numbered(info, 6, Some("liveServer"), STRING)
    && Numbered(info, 7, Some("displayName"), STRING) && Numbered(info, 9, Some("ageIconSpriteName"), STRING)
    && Numbered(info, 8, None, STRING)
  }

  predicate LoginOffered(p: Pool, input: Message, output: Message) {
    && Numbered(input, 1, Some("sdkUid"), STRING) && Numbered(input, 2, Some("sdkAccessToken"), STRING)
    && Numbered(input, 4, Some("deviceModel"), STRING) && Numbered(input, 5, Some("operatingSystem"), STRING)
    && Numbered(input, 6, Some("clientVersion"), STRING) && Numbered(input, 8, Some("clientPackage"), STRING)
    && Numbered(input, 13, Some("idToken"), STRING)
    && Numbered(input, 3, Some("platform"), UINT32) && Numbered(input, 10, Some("globalChannelId"), UINT32)
    && Numbered(input, 11, Some("brandId"), UINT32) && Numbered(input, 12, Some("areaId"), UINT32)
    && var uuid := Submessage(p, input, 7, "uuid");
    && uuid.Some? && Numbered(uuid.value, 1, Some("adId"), STRING) && Numbered(uuid.value, 2, Some("identifier"), STRING)
    && var credential := Submessage(p, output, 1, "credential");
    && credential.Some? && Numbered(credential.value, 1, Some("id"), STRING) && Numbered(credential.value, 2, Some("credential"), STRING)
    && Numbered(output, 2, Some("cpServerId"), STRING) && Numbered(output, 3, Some("cpServerName"), STRING)
    && Numbered(output, 4, Some("isNewUser"), UINT32)
  }

  function FieldNamed(fields: seq<Field>, name: Name): (f: Option<Field>)
    ensures f.Some? ==> f.value in fields && f.value.name == name
    ensures f.None? ==> forall g :: g in fields ==> g.name != name
  {
    if fields == [] then None else if fields[0].name == name then Some(fields[0]) else FieldNamed(fields[1..], name)
  }

  predicate TabOffered(p: Pool, input: Message) {
    var f := FieldNamed(input.fields, "selected_tab");
    && f.Some? && f.value.kind.EnumKind? && f.value.kind.enumeration in p.enums
    && f.value.jsonName == "selectedTab" && !IsList(f.value)
    && var values := p.enums[f.value.kind.enumeration].values;
    && NameOf(values, 0).Some? && NameOf(values, 1).Some? && NameOf(values, 2).Some?
  }

  predicate Shaped(p: Pool, family: string, r: Route, input: Message, output: Message) {
    match r
    case Announcement => HasField(input, "id", INT64, false)
    case Profile => HasField(input, "playerProfileId", INT64, false)
    case EventRanking => HasField(input, "eventId", INT64, false) && HasField(input, "ranks", INT32, true)
    case EventDeck => HasField(input, "eventId", INT64, false) && HasField(input, "playerId", STRING, false)
    case MusicRanking => HasField(input, "musicId", INT64, false)
    case ChallengeRanking => HasField(input, "challengeMusicId", INT64, false)
    case Version => HasField(output, "version", STRING, false) && (family == "global" ==> HasField(output, "resourceVersion", STRING, false))
    case ServerList => ServerListOffered(p, output)
    case PlayerLogin => LoginOffered(p, input, output)
    case Whoami => HasField(output, "playerId", STRING, false)
    case Announcements => TabOffered(p, input)
    case PlayerData => true
  }

  predicate RouteLoads(p: Pool, family: string, r: Route) {
    && r in p.methods
    && var m := p.methods[r];
    && m.input in p.messages && m.output in p.messages
    && !m.clientStreaming && !m.serverStreaming
    && m.options.skipsAuthentication == !Authenticated(r)
    && (forall f :: f in p.messages[m.input].fields ==> f.cardinality != Required)
    && Shaped(p, family, r, p.messages[m.input], p.messages[m.output])
  }

  predicate Loads(p: Pool, family: string) {
    p.marked && forall r :: r in ContractFor(family) ==> RouteLoads(p, family, r)
  }

  method CheckContract(p: Pool, family: string) returns (ok: bool)
    ensures ok <==> Loads(p, family)
  {
    hide RouteLoads, ContractFor;
    if !p.marked {
      return false;
    }
    var routes := ContractFor(family);
    for i := 0 to |routes|
      invariant forall k :: 0 <= k < i ==> RouteLoads(p, family, routes[k])
    {
      if !RouteLoads(p, family, routes[i]) {
        return false;
      }
    }
    ok := true;
  }

  /** A loaded Global bundle has GetServerList. */
  lemma GlobalHasServerList(p: Pool)
    requires Loads(p, "global")
    ensures HasServerList(p)
  {
    ContractFacts();
    assert RouteLoads(p, "global", ServerList);
  }

  // ---- Reloads ----

  datatype Bundle = Bundle(pool: Pool, family: string, digest: string, generation: nat)

  /** A candidate that loads replaces the active bundle when it is of the right family, differs and is compatible. */
  method Reload(active: Bundle, candidate: Bundle, family: string) returns (next: Bundle, ok: bool)
    requires PoolOk(active.pool) && PoolOk(candidate.pool)
    ensures next == Reloaded(active, candidate, family)
    ensures ok <==>
      && Loads(candidate.pool, candidate.family) && candidate.family == family
      && (candidate.digest == active.digest || Compatible(active.pool, candidate.pool))
  {
    hide Loads, Compatible, PoolOk;
    var loads := CheckContract(candidate.pool, candidate.family);
    if !loads || candidate.family != family {
      return active, false;
    }
    if candidate.digest == active.digest {
      return active, true;
    }
    ok := Check(active.pool, candidate.pool);
    next := if ok then candidate.(generation := active.generation + 1) else active;
  }

  ghost function Reloaded(active: Bundle, candidate: Bundle, family: string): Bundle {
    if Loads(candidate.pool, candidate.family) && candidate.family == family && candidate.digest != active.digest
       && Compatible(active.pool, candidate.pool)
    then candidate.(generation := active.generation + 1)
    else active
  }

  ghost function Reloads(first: Bundle, candidates: seq<Bundle>, family: string): Bundle {
    if candidates == [] then first
    else Reloaded(Reloads(first, candidates[..|candidates| - 1], family), candidates[|candidates| - 1], family)
  }

  /** What any run keeps: the common routes, and everything once the first bundle has GetServerList. */
  ghost predicate Kin(first: Pool, active: Pool) {
    CompatibleOver(first, active, COMMON) && (HasServerList(first) ==> HasServerList(active) && Compatible(first, active))
  }

  lemma FirstKin(a: Pool, b: Pool)
    requires Compatible(a, b)
    ensures Kin(a, b)
  {
    hide CompatibleOver;
    ContractFacts();
    FewerRoutes(a, b, Contract(a), COMMON);
    if HasServerList(a) {
      ServerListKept(a, b);
    }
  }

  lemma NextKin(first: Pool, a: Pool, b: Pool)
    requires PoolOk(b) && Kin(first, a) && Compatible(a, b)
    ensures Kin(first, b)
  {
    hide CompatibleOver, PoolOk;
    ContractFacts();
    FewerRoutes(a, b, Contract(a), COMMON);
    TransitiveOver(first, a, b, COMMON);
    if HasServerList(first) {
      TransitiveOver(first, a, b, GLOBAL_CONTRACT);
      ServerListKept(a, b);
    }
  }

  lemma {:induction false} ReloadsKin(first: Bundle, candidates: seq<Bundle>, family: string)
    requires forall i :: 0 <= i < |candidates| ==> PoolOk(candidates[i].pool)
    ensures
      var active := Reloads(first, candidates, family);
      active == first || Kin(first.pool, active.pool)
  {
    if candidates != [] {
      hide Compatible, PoolOk, Kin, Loads;
      var init, candidate := candidates[..|candidates| - 1], candidates[|candidates| - 1];
      ReloadsKin(first, init, family);
      var active := Reloads(first, init, family);
      if Reloaded(active, candidate, family) != active {
        if active == first {
          FirstKin(first.pool, candidate.pool);
        } else {
          NextKin(first.pool, active.pool, candidate.pool);
        }
      }
    }
  }

  /** After any run of reloads the active bundle is compatible with the first exactly when the first has
      GetServerList, or the active one still serves Whoami as the first did. */
  lemma ReloadsExactly(first: Bundle, candidates: seq<Bundle>, family: string)
    requires forall i :: 0 <= i < |candidates| ==> PoolOk(candidates[i].pool)
    ensures
      var active := Reloads(first, candidates, family);
      active == first ||
      (Compatible(first.pool, active.pool) <==> HasServerList(first.pool) || CompatibleOver(first.pool, active.pool, [Whoami]))
  {
    hide CompatibleOver, PoolOk, Loads, Reloads;
    ReloadsKin(first, candidates, family);
    var active := Reloads(first, candidates, family);
    if active != first && !HasServerList(first.pool) {
      WhoamiDecides(first.pool, active.pool);
    }
  }

  /** For the Global family, where every loaded bundle has GetServerList, it always is. */
  lemma GlobalStaysCompatible(first: Bundle, candidates: seq<Bundle>)
    requires Loads(first.pool, "global") && forall i :: 0 <= i < |candidates| ==> PoolOk(candidates[i].pool)
    ensures
      var active := Reloads(first, candidates, "global");
      active == first || Compatible(first.pool, active.pool)
  {
    hide Compatible, PoolOk, Loads, Reloads;
    GlobalHasServerList(first.pool);
    ReloadsExactly(first, candidates, "global");
  }

  /** So it is for bundles that agree on not having it. */
  lemma {:induction false} AgreeingStayCompatible(first: Bundle, candidates: seq<Bundle>, family: string)
    requires forall i :: 0 <= i < |candidates| ==>
      PoolOk(candidates[i].pool) && HasServerList(candidates[i].pool) == HasServerList(first.pool)
    ensures
      var active := Reloads(first, candidates, family);
      && HasServerList(active.pool) == HasServerList(first.pool)
      && (active == first || Compatible(first.pool, active.pool))
  {
    if candidates != [] {
      hide Compatible, PoolOk, HasServerList, Loads;
      var init, candidate := candidates[..|candidates| - 1], candidates[|candidates| - 1];
      AgreeingStayCompatible(first, init, family);
      var active := Reloads(first, init, family);
      if Reloaded(active, candidate, family) != active && active != first {
        ComposesExactly(first.pool, active.pool, candidate.pool);
      }
    }
  }

  // ---- A reload that loses what Whoami promised ----

  function Plain(number: nat, name: Name, jsonName: Name, kind: Kind, repeated: bool): Field {
    Field(number, name, jsonName, if repeated then Repeated else Optional, false, false, false, false, None, None, kind)
  }

  /** One input for all routes, with every field that is asked for. */
  const INPUT: Message := Message(false, [
    Plain(1, "id", "id", INT64, false),
    Plain(2, "player_profile_id", "playerProfileId", INT64, false),
    Plain(3, "event_id", "eventId", INT64, false),
    Plain(4, "ranks", "ranks", INT32, true),
    Plain(5, "player_id", "playerId", STRING, false),
    Plain(6, "music_id", "musicId", INT64, false),
    Plain(7, "challenge_music_id", "challengeMusicId", INT64, false),
    Plain(8, "selected_tab", "selectedTab", EnumKind("Tab"), false)
  ])

  const OUTPUT: Message := Message(false, [Plain(1, "version", "version", STRING, false)])

  /** The answer to Whoami, with or without a second field. */
  function Who(second: bool): Message {
    Message(false, [Plain(1, "player_id", "playerId", STRING, false)] + (if second then [Plain(2, "note", "note", STRING, false)] else []))
  }

  const TAB: Enum := Enum([EnumValue("NEWS", 0), EnumValue("EVENT", 1), EnumValue("GACHA", 2)], "NEWS", 0)

  function Served(r: Route): Method {
    Method("Input", if r == Whoami then "Who" else "Output", Options(!Authenticated(r), []), false, false)
  }

  predicate Domestic(r: Route) {
    !r.ServerList? && !r.PlayerLogin?
  }

  lemma RoutesDomestic()
    ensures forall r :: r in ROUTES ==> Domestic(r)
  {}

  /** A bundle of the domestic family, which may serve the Global login routes as well. */
  function Sample(login: bool, second: bool): Pool {
    Pool(
      true,
      map r: Route | login || Domestic(r) :: Served(r),
      map["Input" := INPUT, "Output" := OUTPUT, "Who" := Who(second)],
      map["Tab" := TAB])
  }

  /** What a sample holds. */
  lemma SampleFacts(login: bool, second: bool, r: Route)
    ensures
      var p := Sample(login, second);
      && p.marked && p.enums == map["Tab" := TAB]
      && (r in p.methods <==> login || Domestic(r)) && (r in p.methods ==> p.methods[r] == Served(r))
      && p.messages.Keys == {"Input", "Output", "Who"}
      && p.messages["Input"] == INPUT && p.messages["Output"] == OUTPUT && p.messages["Who"] == Who(second)
  {
    hide Authenticated;
    NamesDiffer();
  }

  lemma NamesDiffer()
    ensures "Input" != "Output" && "Input" != "Who" && "Output" != "Who"
  {
    assert |"Input"| == 5 && |"Output"| == 6 && |"Who"| == 3;
  }

  lemma JsonApart()
    ensures forall i, j :: 0 <= i < j < |INPUT.fields| ==> INPUT.fields[i].jsonName != INPUT.fields[j].jsonName
    ensures forall i, j :: 0 <= i < j < |INPUT.fields| ==> INPUT.fields[i].number != INPUT.fields[j].number
  {
    var f := INPUT.fields;
    assert |f| == 8;
    assert |f[0].jsonName| == 2 && |f[1].jsonName| == 15 && |f[2].jsonName| == 7 && |f[3].jsonName| == 5;
    assert |f[4].jsonName| == 8 && |f[5].jsonName| == 7 && |f[6].jsonName| == 16 && |f[7].jsonName| == 11;
    assert f[2].jsonName[0] == 'e' && f[5].jsonName[0] == 'm';
  }

  lemma InputOffers(i: nat)
    requires i < |INPUT.fields|
    ensures NamedInJson(INPUT.fields, INPUT.fields[i].jsonName) == Some(INPUT.fields[i])
  {
    hide NamedInJson;
    JsonApart();
    var f := NamedInJson(INPUT.fields, INPUT.fields[i].jsonName).value;
    var j :| 0 <= j < |INPUT.fields| && INPUT.fields[j] == f;
    assert i == j;
  }

  lemma InputHas(i: nat, jsonName: Name, kind: Kind, repeated: bool)
    requires i < |INPUT.fields| && INPUT.fields[i].jsonName == jsonName && Offers(INPUT.fields[i], kind, repeated)
    ensures HasField(INPUT, jsonName, kind, repeated)
  {
    hide NamedInJson, Offers;
    InputOffers(i);
  }

  lemma InputShaped(p: Pool, r: Route, output: Message)
    requires p.enums == map["Tab" := TAB] && r in ROUTES
    requires r == Version ==> HasField(output, "version", STRING, false)
    requires r == Whoami ==> HasField(output, "playerId", STRING, false)
    ensures Shaped(p, "jp", r, INPUT, output)
  {
    hide HasField, TabOffered, ServerListOffered, LoginOffered;
    match r
    case Announcement => InputHas(0, "id", INT64, false);
    case Profile => InputHas(1, "playerProfileId", INT64, false);
    case EventRanking =>
      InputHas(2, "eventId", INT64, false);
      InputHas(3, "ranks", INT32, true);
    case EventDeck =>
      InputHas(2, "eventId", INT64, false);
      InputHas(4, "playerId", STRING, false);
    case MusicRanking => InputHas(5, "musicId", INT64, false);
    case ChallengeRanking => InputHas(6, "challengeMusicId", INT64, false);
    case Announcements => TabIsOffered(p);
    case Version =>
    case Whoami =>
    case PlayerData =>
  }

  lemma TabIsOffered(p: Pool)
    requires p.enums == map["Tab" := TAB]
    ensures TabOffered(p, INPUT)
  {
    hide FieldNamed, NameOf;
    TabField();
    TabValues();
  }

  lemma TabField()
    ensures FieldNamed(INPUT.fields, "selected_tab") == Some(INPUT.fields[7])
  {
    hide FieldNamed;
    var f := INPUT.fields;
    assert f[7].name == "selected_tab" && f[7] in f;
    assert |f[0].name| == 2 && |f[1].name| == 17 && |f[2].name| == 8 && |f[3].name| == 5;
    assert |f[4].name| == 9 && |f[5].name| == 8 && |f[6].name| == 18 && |f[7].name| == 12;
  }

  lemma TabValues()
    ensures NameOf(TAB.values, 0).Some? && NameOf(TAB.values, 1).Some? && NameOf(TAB.values, 2).Some?
    ensures NamesApart(TAB)
  {
    hide NameOf;
    var v := TAB.values;
    assert v[0] in v && v[1] in v && v[2] in v;
    assert |v[0].name| == 4 && |v[1].name| == 5 && |v[2].name| == 5 && v[1].name[0] == 'E' && v[2].name[0] == 'G';
  }

  lemma OutputsOffer(second: bool)
    ensures HasField(OUTPUT, "version", STRING, false) && HasField(Who(second), "playerId", STRING, false)
  {}

  lemma NoneRequired()
    ensures forall f :: f in INPUT.fields ==> f.cardinality != Required
  {}

  lemma SampleRoute(login: bool, second: bool, r: Route)
    requires r in ROUTES
    ensures RouteLoads(Sample(login, second), "jp", r)
  {
    hide Shaped, HasField, Sample, Authenticated;
    RoutesDomestic();
    SampleFacts(login, second, r);
    OutputsOffer(second);
    NoneRequired();
    InputShaped(Sample(login, second), r, if r == Whoami then Who(second) else OUTPUT);
  }

  lemma SampleLoads(login: bool, second: bool)
    ensures Loads(Sample(login, second), "jp")
  {
    hide RouteLoads, Sample;
    SampleFacts(login, second, Version);
    forall r | r in ROUTES ensures RouteLoads(Sample(login, second), "jp", r) {
      SampleRoute(login, second, r);
    }
    assert |"jp"| == 2 && |"global"| == 6;
  }

  lemma MessagesResolved(p: Pool, second: bool)
    requires "Tab" in p.enums
    ensures MessageResolved(p, INPUT) && MessageResolved(p, OUTPUT) && MessageResolved(p, Who(second))
  {
    JsonApart();
  }

  lemma SampleOk(login: bool, second: bool)
    ensures PoolOk(Sample(login, second))
  {
    hide Sample, MessageResolved, NamesApart, Authenticated;
    var p := Sample(login, second);
    TabValues();
    SampleFacts(login, second, Version);
    MessagesResolved(p, second);
    forall r | r in p.methods ensures p.methods[r].input in p.messages && p.methods[r].output in p.messages {
      SampleFacts(login, second, r);
    }
  }

  /** A message that is the same in both bundles passes. */
  lemma SamePasses(a: Pool, b: Pool, name: Name)
    requires PoolOk(a) && a.enums == b.enums && name in a.messages && name in b.messages && a.messages[name] == b.messages[name]
    ensures MessageOk(a, b, name)
  {
    hide EnumOk;
    var m := a.messages[name];
    forall x | x in m.fields ensures Kept(a, b, x, m) {
      FieldUnique(a, name, x);
      assert MessageResolved(a, m);
      var i :| 0 <= i < |m.fields| && m.fields[i] == x;
      assert KindResolved(a, m.fields[i].kind);
      if x.kind.EnumKind? {
        SameEnum(a.enums[x.kind.enumeration]);
      }
    }
  }

  lemma SameEnum(e: Enum)
    ensures EnumOk(e, e)
  {}

  /** No field of a sample is a message, so only inputs and outputs are reachable. */
  lemma SampleReaches(login: bool, second: bool, routes: seq<Route>, name: Name)
    requires Reachable(Sample(login, second), routes, name)
    ensures Root(Sample(login, second), routes, name)
  {
    hide Root, Authenticated;
    var p := Sample(login, second);
    var path :| Chain(p, routes, path) && path[|path| - 1] == name;
    if |path| > 1 {
      assert Edge(p, path[|path| - 2], path[|path| - 2 + 1]);
      NoEdges(login, second, path[|path| - 2], path[|path| - 2 + 1]);
    }
  }

  lemma NoEdges(login: bool, second: bool, from: Name, to: Name)
    ensures !Edge(Sample(login, second), from, to)
  {
    hide Sample;
    SampleFacts(login, second, Version);
  }

  lemma SampleCompatible(login: bool, second: bool, login': bool, second': bool)
    requires (login ==> login') && (login || second == second')
    ensures Compatible(Sample(login, second), Sample(login', second'))
  {
    hide MessageOk, Reachable, Root, RouteOk, Sample;
    var a, b := Sample(login, second), Sample(login', second');
    SampleOk(login, second);
    forall r | r in Contract(a) ensures RouteOk(a, b, r) {
      SampleRoutes(login, second, login', second', r);
    }
    forall name | Reachable(a, Contract(a), name) ensures MessageOk(a, b, name) {
      SampleReaches(login, second, Contract(a), name);
      SampleRoot(login, second, login', second', name);
      SamePasses(a, b, name);
    }
  }

  lemma SampleRoutes(login: bool, second: bool, login': bool, second': bool, r: Route)
    requires (login ==> login') && r in Contract(Sample(login, second))
    ensures RouteOk(Sample(login, second), Sample(login', second'), r)
  {
    hide Authenticated, Sample;
    SampleHasServerList(login, second);
    RoutesDomestic();
    SampleFacts(login, second, r);
    SampleFacts(login', second', r);
  }

  lemma SampleHasServerList(login: bool, second: bool)
    ensures HasServerList(Sample(login, second)) <==> login
  {
    hide Sample;
    SampleFacts(login, second, ServerList);
  }

  lemma SampleRoot(login: bool, second: bool, login': bool, second': bool, name: Name)
    requires (login || second == second') && Root(Sample(login, second), Contract(Sample(login, second)), name)
    ensures
      var a, b := Sample(login, second), Sample(login', second');
      name in a.messages && name in b.messages && a.messages[name] == b.messages[name] && a.enums == b.enums
  {
    hide Authenticated, Who, Sample;
    SampleHasServerList(login, second);
    var a, routes := Sample(login, second), Contract(Sample(login, second));
    var r :| r in routes && r in a.methods && (name == a.methods[r].input || name == a.methods[r].output);
    SampleFacts(login, second, r);
    SampleFacts(login', second', r);
    if login {
      NoWhoami();
    }
  }

  lemma NoWhoami()
    ensures Whoami !in GLOBAL_CONTRACT
  {}

  /** The field that Whoami promised and the last bundle lost. */
  lemma SecondLost()
    ensures !Compatible(Sample(false, true), Sample(true, false))
  {
    hide Authenticated, Reachable, EnumOk, Sample;
    var a, c := Sample(false, true), Sample(true, false);
    SampleFacts(false, true, Whoami);
    SampleFacts(true, false, Whoami);
    SampleHasServerList(false, true);
    ContractFacts();
    assert Root(a, ROUTES, "Who");
    RootReachable(a, ROUTES, "Who");
    var x := a.messages["Who"].fields[1];
    assert x in a.messages["Who"].fields;
    assert !Kept(a, c, x, c.messages["Who"]);
  }

  /** Three bundles of the domestic family that all load. The second gains the login routes, and with them
      GetServerList; the third takes a field from the answer to Whoami. Each reload is allowed, and the
      bundle they leave is not compatible with the first. */
  lemma WhoamiLost(digest: string, digest': string, digest'': string)
    requires digest != digest' && digest' != digest''
    ensures
      var a, b, c := Sample(false, true), Sample(true, true), Sample(true, false);
      var first := Bundle(a, "jp", digest, 1);
      && PoolOk(a) && PoolOk(b) && PoolOk(c) && Loads(a, "jp")
      && Reloads(first, [Bundle(b, "jp", digest', 1), Bundle(c, "jp", digest'', 1)], "jp") == Bundle(c, "jp", digest'', 3)
      && !Compatible(a, c)
  {
    hide Compatible, Loads, PoolOk, Sample;
    var a, b, c := Sample(false, true), Sample(true, true), Sample(true, false);
    SampleOk(false, true);
    SampleOk(true, true);
    SampleOk(true, false);
    SampleLoads(false, true);
    SampleLoads(true, true);
    SampleLoads(true, false);
    SampleCompatible(false, true, true, true);
    SampleCompatible(true, true, true, false);
    SecondLost();
    var first := Bundle(a, "jp", digest, 1);
    var candidates := [Bundle(b, "jp", digest', 1), Bundle(c, "jp", digest'', 1)];
    assert candidates[..1] == [candidates[0]] && candidates[..1][..0] == [];
    assert Reloads(first, candidates[..1], "jp") == Bundle(b, "jp", digest', 2);
  }
}
