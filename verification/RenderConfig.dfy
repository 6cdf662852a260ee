/** Rendering the desired state of sing-box: `renderConfig` and its renderers in
    apps/api/src/core/sing-box.provider.ts. The members that follow the users of a Hysteria2 or
    Trojan inbound depend on its own settings only and are given with it. */
module RenderConfig {
  import opened Options
  import opened Text
  import opened Lists
  import opened Sorting
  import opened CanonicalJson
  import Redaction
  import JsonText

  /** `rest` are the members after the users; absent if rendering them throws. */
  datatype Protocol =
    | HYSTERIA2(rest: Option<Members>)
    | VLESS_REALITY(flow: string, reality: Reality)
    | TROJAN(rest: Option<Members>)
    | SHADOWSOCKS(cipher: string, serverPassword: string)
    | WIREGUARD(privateKey: string, address: string, mtu: nat)
    | OTHER

  datatype Reality = Reality(
    serverName: string, handshakeServer: string, handshakePort: nat, privateKey: string, shortIds: seq<string>)

  datatype Credential = Password(password: string) | Uuid(uuid: string) | Peer(publicKey: string, address: string)

  datatype Assignment = Assignment(userId: string, credential: Credential)

  datatype Inbound = Inbound(
    id: string, tag: string, listenHost: string, listenPort: nat, protocol: Protocol, assignments: seq<Assignment>)

  datatype Settings = Settings(clashApiListen: string, clashApiSecret: string, v2rayApiListen: string)

  // ---------------------------------------------------------------- lists

  function Filter<T(!new)>(s: seq<T>, f: T -> bool): (r: seq<T>)
    ensures forall x :: x in r <==> x in s && f(x)
  {
    if s == [] then []
    else
      assert s == [s[0]] + s[1..];
      (if f(s[0]) then [s[0]] else []) + Filter(s[1..], f)
  }

  lemma {:induction false} FilterNoRepeats<T(!new)>(s: seq<T>, f: T -> bool)
    requires NoRepeats(s)
    ensures NoRepeats(Filter(s, f))
  {
    if s != [] {
      FilterNoRepeats(s[1..], f);
      assert s[0] !in s[1..];
    }
  }

  /** All of them, if none threw. */
  function All<T>(s: seq<Option<T>>): Option<seq<T>> {
    if s == [] then Some([])
    else if s[0].None? || All(s[1..]).None? then None
    else Some([s[0].value] + All(s[1..]).value)
  }

  function Array(s: seq<Json>): Items { if s == [] then NoItems else Item(s[0], Array(s[1..])) }

  function Texts(s: seq<string>): Json { Arr(Array(Map(s, (t: string) => Str(t)))) }

  // ---------------------------------------------------------------- inbounds

  function ByUser(): (Assignment, Assignment) -> bool { (a: Assignment, b: Assignment) => LexLess(a.userId, b.userId) }

  /** `compareByTagAndId` */
  predicate TagIdLess(a: Inbound, b: Inbound) { LexLess(a.tag, b.tag) || (a.tag == b.tag && LexLess(a.id, b.id)) }

  function ByTagAndId(): (Inbound, Inbound) -> bool { (a: Inbound, b: Inbound) => TagIdLess(a, b) }

  /** An entry of `users`, or of `peers`. */
  function RenderUser(protocol: Protocol, a: Assignment): Option<Json> {
    match protocol
    case VLESS_REALITY(flow, _) =>
      if !a.credential.Uuid? then None
      else Some(Obj(Member("name", Str(a.userId), Member("uuid", Str(a.credential.uuid),
        if flow == "" then NoMembers else Member("flow", Str(flow), NoMembers)))))
    case WIREGUARD(_, _, _) =>
      if !a.credential.Peer? then None
      else Some(Obj(Member("public_key", Str(a.credential.publicKey),
        Member("allowed_ips", Texts([a.credential.address]), NoMembers))))
    case OTHER => None
    case _ =>
      if !a.credential.Password? then None
      else Some(Obj(Member("name", Str(a.userId), Member("password", Str(a.credential.password), NoMembers))))
  }

  function Number(n: nat): Json { Num(Decimal(n)) }

  /** The members every inbound but WireGuard's begins with. */
  function Head(name: string, i: Inbound, rest: Members): Members {
    Member("type", Str(name), Member("tag", Str(i.tag), Member("listen", Str(i.listenHost),
      Member("listen_port", Number(i.listenPort), rest))))
  }

  function Tls(r: Reality): Json {
    var handshake := Obj(Member("server", Str(r.handshakeServer),
      Member("server_port", Number(r.handshakePort), NoMembers)));
    var reality := Obj(Member("enabled", Bool(true), Member("handshake", handshake,
      Member("private_key", Str(r.privateKey), Member("short_id", Texts(r.shortIds), NoMembers)))));
    Obj(Member("enabled", Bool(true), Member("server_name", Str(r.serverName),
      Member("reality", reality, NoMembers))))
  }

  /** The members of a rendered inbound or endpoint. */
  function Rendering(i: Inbound, users: Json): Option<Members> {
    match i.protocol
    case HYSTERIA2(rest) =>
      if rest.None? then None else Some(Head("hysteria2", i, Member("users", users, rest.value)))
    case VLESS_REALITY(_, reality) =>
      Some(Head("vless", i, Member("users", users, Member("tls", Tls(reality), NoMembers))))
    case TROJAN(rest) =>
      if rest.None? then None else Some(Head("trojan", i, Member("users", users, rest.value)))
    case SHADOWSOCKS(cipher, serverPassword) =>
      Some(Head("shadowsocks", i, Member("method", Str(cipher), Member("password", Str(serverPassword),
        Member("users", users, Member("multiplex", One("enabled", Bool(false)), NoMembers))))))
    case WIREGUARD(privateKey, address, mtu) =>
      Some(Member("type", Str("wireguard"), Member("tag", Str(i.tag), Member("listen_port", Number(i.listenPort),
        Member("system", Bool(false), Member("private_key", Str(privateKey), Member("address", Texts([address]),
        Member("mtu", Number(mtu), Member("peers", users, NoMembers)))))))))
    case OTHER => None
  }

  function One(key: string, value: Json): Json { Obj(Member(key, value, NoMembers)) }

  function RenderUsers(protocol: Protocol, assignments: seq<Assignment>): Option<seq<Json>> {
    All(Map(SortBy(assignments, ByUser()), a => RenderUser(protocol, a)))
  }

  /** A rendered inbound or endpoint, or nothing if rendering throws. */
  function RenderInbound(i: Inbound): Option<Json> {
    var users := RenderUsers(i.protocol, i.assignments);
    if users.None? then None
    else
      var members := Rendering(i, Arr(Array(users.value)));
      if members.None? then None else Some(Obj(members.value))
  }

  function IsEndpoint(): Inbound -> bool { (i: Inbound) => i.protocol.WIREGUARD? }
  function IsInbound(): Inbound -> bool { (i: Inbound) => !i.protocol.WIREGUARD? }

  function SortedInbounds(inbounds: seq<Inbound>): seq<Inbound> { SortBy(Filter(inbounds, IsInbound()), ByTagAndId()) }
  function SortedEndpoints(inbounds: seq<Inbound>): seq<Inbound> {
    SortBy(Filter(inbounds, IsEndpoint()), ByTagAndId())
  }

  /** `[...new Set(...)]` over the users of all assignments. */
  function UserIds(inbounds: seq<Inbound>): (ids: seq<string>)
    ensures NoRepeats(ids)
    ensures forall u :: u in ids <==> exists i, a :: i in inbounds && a in i.assignments && a.userId == u
  {
    if inbounds == [] then []
    else
      assert inbounds == inbounds[..|inbounds| - 1] + [inbounds[|inbounds| - 1]];
      AddUsers(UserIds(inbounds[..|inbounds| - 1]), inbounds[|inbounds| - 1].assignments)
  }

  function AddUsers(ids: seq<string>, assignments: seq<Assignment>): (r: seq<string>)
    requires NoRepeats(ids)
    ensures NoRepeats(r)
    ensures forall u :: u in r <==> u in ids || exists a :: a in assignments && a.userId == u
    decreases assignments
  {
    if assignments == [] then ids
    else
      assert assignments == [assignments[0]] + assignments[1..];
      AddUsers(if assignments[0].userId in ids then ids else ids + [assignments[0].userId], assignments[1..])
  }

  function UserNames(inbounds: seq<Inbound>): seq<string> { SortBy(UserIds(inbounds), (a, b) => LexLess(a, b)) }

  function Tags(inbounds: seq<Inbound>): seq<string> { Map(inbounds, (i: Inbound) => i.tag) }

  function InboundTags(inbounds: seq<Inbound>): seq<string> { SortBy(Tags(inbounds), (a, b) => LexLess(a, b)) }

  // ---------------------------------------------------------------- renderConfig

  function LogSection(): Json {
    Obj(Member("disabled", Bool(false), Member("level", Str("info"), Member("timestamp", Bool(true), NoMembers))))
  }

  function DnsSection(): Json {
    var local := Obj(Member("type", Str("local"),
      Member("tag", Str("local"), Member("prefer_go", Bool(true), NoMembers))));
    Obj(Member("servers", Arr(Array([local])),
      Member("final", Str("local"), Member("strategy", Str("prefer_ipv4"), NoMembers))))
  }

  function Outbound(name: string): Json { Obj(Member("type", Str(name), Member("tag", Str(name), NoMembers))) }

  function RouteSection(): Json {
    var rule := Obj(Member("ip_is_private", Bool(true), Member("outbound", Str("block"), NoMembers)));
    Obj(Member("final", Str("direct"),
      Member("auto_detect_interface", Bool(true), Member("rules", Arr(Array([rule])), NoMembers))))
  }

  function ExperimentalSection(s: Settings, tags: seq<string>, users: seq<string>): Json {
    var clash := Obj(
      Member("external_controller", Str(s.clashApiListen),
      Member("secret", Str(s.clashApiSecret),
      Member("access_control_allow_origin", Arr(NoItems),
      Member("access_control_allow_private_network", Bool(false), NoMembers)))));
    var stats := Obj(
      Member("enabled", Bool(true),
      Member("inbounds", Texts(tags),
      Member("outbounds", Texts(["block", "direct"]),
      Member("users", Texts(users), NoMembers)))));
    Obj(Member("clash_api", clash,
      Member("v2ray_api", Obj(Member("listen", Str(s.v2rayApiListen), Member("stats", stats, NoMembers))), NoMembers)))
  }

  function Root(s: Settings, inbounds: seq<Json>, endpoints: seq<Json>, tags: seq<string>, users: seq<string>): Json {
    var tail :=
      Member("outbounds", Arr(Array([Outbound("direct"), Outbound("block")])),
      Member("route", RouteSection(),
      Member("experimental", ExperimentalSection(s, tags, users), NoMembers)));
    Obj(
      Member("log", LogSection(),
      Member("dns", DnsSection(),
      Member("inbounds", Arr(Array(inbounds)),
      if endpoints == [] then tail else Member("endpoints", Arr(Array(endpoints)), tail)))))
  }

  datatype Rendered = Rendered(config: Json, canonical: string, redactedConfig: Json, redactedCanonical: string)

  /** `renderConfig`; nothing if it throws. */
  function Render(s: Settings, inbounds: seq<Inbound>, url: string -> string): Option<Rendered> {
    var rendered := All(Map(SortedInbounds(inbounds), RenderInbound));
    var endpoints := All(Map(SortedEndpoints(inbounds), RenderInbound));
    if rendered.None? || endpoints.None? then None
    else
      var config := Root(s, rendered.value, endpoints.value, InboundTags(inbounds), UserNames(inbounds));
      var redacted := Redaction.RedactJson(config, "", url);
      Some(Rendered(config, JsonText.CanonicalizeJson(config), redacted, JsonText.CanonicalizeJson(redacted)))
  }

  // ---------------------------------------------------------------- the order does not matter

  ghost predicate DistinctUsers(s: seq<Assignment>) {
    forall i, j :: 0 <= i < j < |s| ==> s[i].userId != s[j].userId
  }

  /** What the keys of the tables guarantee. */
  ghost predicate Proper(inbounds: seq<Inbound>) {
    (forall i, j :: 0 <= i < j < |inbounds| ==> inbounds[i].id != inbounds[j].id)
    && (forall i :: 0 <= i < |inbounds| ==> DistinctUsers(inbounds[i].assignments))
  }

  /** Equal up to the order of the assignments. */
  ghost predicate SameInbound(x: Inbound, y: Inbound) {
    x.(assignments := y.assignments) == y && forall a :: a in x.assignments <==> a in y.assignments
  }

  ghost predicate HasPartner(x: Inbound, b: seq<Inbound>) { exists y :: y in b && SameInbound(x, y) }

  ghost predicate Covers(a: seq<Inbound>, b: seq<Inbound>) { forall x :: x in a ==> HasPartner(x, b) }

  lemma UsersOrdered(s: seq<Assignment>)
    requires DistinctUsers(s)
    ensures NoRepeats(s) && Orders(s, ByUser())
  {
    forall x, y | x in s && y in s && x != y ensures LexLess(x.userId, y.userId) || LexLess(y.userId, x.userId) {
      var i :| 0 <= i < |s| && s[i] == x;
      var j :| 0 <= j < |s| && s[j] == y;
      assert i < j || j < i;
      LexTotal(x.userId, y.userId);
    }
    forall x: Assignment, y: Assignment
      ensures !(LexLess(x.userId, y.userId) && LexLess(y.userId, x.userId))
    { LexTotal(x.userId, y.userId); }
    forall x: Assignment, y: Assignment, z: Assignment | LexLess(x.userId, y.userId) && LexLess(y.userId, z.userId)
      ensures LexLess(x.userId, z.userId)
    {
      LexTransitive(x.userId, y.userId, z.userId);
    }
  }

  lemma SameRendering(x: Inbound, y: Inbound)
    requires SameInbound(x, y) && DistinctUsers(x.assignments) && DistinctUsers(y.assignments)
    ensures RenderInbound(x) == RenderInbound(y)
  {
    assert x.tag == y.tag && x.listenHost == y.listenHost && x.listenPort == y.listenPort && x.protocol == y.protocol;
    assert forall users :: Rendering(x, users) == Rendering(y, users);
    hide LexLess, All, Rendering, RenderUser;
    UsersOrdered(x.assignments);
    UsersOrdered(y.assignments);
    SortForgetsOrder(x.assignments, y.assignments, ByUser());
  }

  lemma TagIdTotal(a: Inbound, b: Inbound)
    ensures !(TagIdLess(a, b) && TagIdLess(b, a))
    ensures TagIdLess(a, b) || TagIdLess(b, a) || (a.tag == b.tag && a.id == b.id)
  {
    hide LexLess;
    LexTotal(a.tag, b.tag);
    LexTotal(a.id, b.id);
  }

  lemma TagIdTransitive(a: Inbound, b: Inbound, c: Inbound)
    requires TagIdLess(a, b) && TagIdLess(b, c)
    ensures TagIdLess(a, c)
  {
    hide LexLess;
    if LexLess(a.tag, b.tag) && LexLess(b.tag, c.tag) { LexTransitive(a.tag, b.tag, c.tag); }
    if LexLess(a.id, b.id) && LexLess(b.id, c.id) { LexTransitive(a.id, b.id, c.id); }
  }

  ghost predicate DistinctIds(s: seq<Inbound>) { forall x, y :: x in s && y in s && x.id == y.id ==> x == y }

  lemma InboundsOrdered(s: seq<Inbound>)
    requires DistinctIds(s)
    ensures Orders(s, ByTagAndId())
  {
    hide LexLess;
    forall x, y | x in s && y in s && x != y ensures TagIdLess(x, y) || TagIdLess(y, x) { TagIdTotal(x, y); }
    forall x, y ensures !(TagIdLess(x, y) && TagIdLess(y, x)) { TagIdTotal(x, y); }
    forall x, y, z | TagIdLess(x, y) && TagIdLess(y, z) ensures TagIdLess(x, z) { TagIdTransitive(x, y, z); }
  }

  lemma ProperLists(a: seq<Inbound>)
    requires Proper(a)
    ensures NoRepeats(a) && DistinctIds(a) && forall x :: x in a ==> DistinctUsers(x.assignments)
  {
    hide DistinctUsers;
    forall x, y | x in a && y in a && x.id == y.id ensures x == y {
      var i :| 0 <= i < |a| && a[i] == x;
      var j :| 0 <= j < |a| && a[j] == y;
      assert !(i < j) && !(j < i);
    }
    forall i, j | 0 <= i < j < |a| ensures a[i] != a[j] { assert a[i].id != a[j].id; }
    forall x | x in a ensures DistinctUsers(x.assignments) {
      var i :| 0 <= i < |a| && a[i] == x;
      assert DistinctUsers(a[i].assignments);
    }
    assert NoRepeats(a);
    assert DistinctIds(a);
  }

  /** Lists in order that cover each other are the same list, up to assignment order. */
  lemma {:induction false} SortedCovers(a: seq<Inbound>, b: seq<Inbound>)
    requires Sorted(a, ByTagAndId()) && Sorted(b, ByTagAndId()) && Covers(a, b) && Covers(b, a)
    ensures |a| == |b| && forall i :: 0 <= i < |a| ==> SameInbound(a[i], b[i])
    decreases |a|
  {
    hide SameInbound, Covers, Sorted;
    if a != [] { var y := Partner(a[0], a, b); }
    if b != [] { var x := Partner(b[0], b, a); }
    if a != [] {
      HeadsMatch(a, b);
      TailCovers(a, b);
      TailCovers(b, a);
      TailSorted(a);
      TailSorted(b);
      SortedCovers(a[1..], b[1..]);
      forall i | 0 <= i < |a| ensures SameInbound(a[i], b[i]) {
        if i > 0 { assert a[i] == a[1..][i - 1] && b[i] == b[1..][i - 1]; }
      }
    }
  }

  lemma TailSorted(s: seq<Inbound>)
    requires s != [] && Sorted(s, ByTagAndId())
    ensures Sorted(s[1..], ByTagAndId())
  {
    hide LexLess;
  }

  lemma Partner(x: Inbound, a: seq<Inbound>, b: seq<Inbound>) returns (y: Inbound)
    requires Covers(a, b) && x in a
    ensures y in b && SameInbound(x, y) && SameInbound(y, x)
    ensures y.tag == x.tag && y.id == x.id && y.protocol == x.protocol
  {
    assert HasPartner(x, b);
    y :| y in b && SameInbound(x, y);
    SameKeys(x, y);
  }

  lemma HeadsMatch(a: seq<Inbound>, b: seq<Inbound>)
    requires a != [] && b != [] && Sorted(a, ByTagAndId()) && Sorted(b, ByTagAndId()) && Covers(a, b) && Covers(b, a)
    ensures SameInbound(a[0], b[0]) && SameInbound(b[0], a[0])
  {
    hide TagIdLess, SameInbound, Covers;
    var y := Partner(a[0], a, b);
    var x := Partner(b[0], b, a);
    var j :| 0 <= j < |b| && b[j] == y;
    var i :| 0 <= i < |a| && a[i] == x;
    if i > 0 && j > 0 {
      InOrder(a, i);
      InOrder(b, j);
      NotCrossed(a[0], x, b[0], y);
    }
  }

  lemma SameKeys(x: Inbound, y: Inbound)
    requires SameInbound(x, y)
    ensures SameInbound(y, x) && x.tag == y.tag && x.id == y.id && x.protocol == y.protocol
  {
    var back := y.(assignments := x.assignments);
    assert x.(assignments := y.assignments).(assignments := x.assignments) == back == x;
  }

  lemma InOrder(s: seq<Inbound>, i: nat)
    requires 0 < i < |s| && Sorted(s, ByTagAndId())
    ensures TagIdLess(s[0], s[i])
  {
    hide LexLess;
    assert ByTagAndId()(s[0], s[i]);
  }

  lemma NotCrossed(a0: Inbound, x: Inbound, b0: Inbound, y: Inbound)
    requires x.tag == b0.tag && x.id == b0.id && y.tag == a0.tag && y.id == a0.id
    ensures !(TagIdLess(a0, x) && TagIdLess(b0, y))
  {
    TagIdTotal(a0, b0);
  }

  lemma NotItself(a: Inbound, b: Inbound)
    requires TagIdLess(a, b)
    ensures a.tag != b.tag || a.id != b.id
  {
    hide LexLess;
    LexTotal(a.tag, a.tag);
    LexTotal(a.id, a.id);
  }

  lemma TailCovers(a: seq<Inbound>, b: seq<Inbound>)
    requires a != [] && b != [] && Sorted(a, ByTagAndId()) && Covers(a, b) && SameInbound(a[0], b[0])
    ensures Covers(a[1..], b[1..])
  {
    hide TagIdLess, SameInbound;
    assert b == [b[0]] + b[1..];
    SameKeys(a[0], b[0]);
    forall x | x in a[1..] ensures HasPartner(x, b[1..]) {
      var i :| 0 <= i < |a[1..]| && a[1..][i] == x;
      assert a[i + 1] == x && x in a;
      var y := Partner(x, a, b);
      InOrder(a, i + 1);
      NotItself(a[0], x);
      assert y != b[0];
    }
  }

  lemma FilterCovers(a: seq<Inbound>, b: seq<Inbound>, f: Inbound -> bool)
    requires Covers(a, b) && (f == IsInbound() || f == IsEndpoint())
    ensures Covers(SortBy(Filter(a, f), ByTagAndId()), SortBy(Filter(b, f), ByTagAndId()))
  {
    hide SameInbound, SortBy;
    var s, t := SortBy(Filter(a, f), ByTagAndId()), SortBy(Filter(b, f), ByTagAndId());
    forall x | x in s ensures HasPartner(x, t) {
      assert x in Filter(a, f);
      var y := Partner(x, a, b);
      assert y in Filter(b, f) && y in t;
    }
  }

  lemma SortedPart(a: seq<Inbound>, f: Inbound -> bool)
    requires Proper(a)
    ensures Sorted(SortBy(Filter(a, f), ByTagAndId()), ByTagAndId())
  {
    ProperLists(a);
    FilterNoRepeats(a, f);
    InboundsOrdered(Filter(a, f));
    SortBySorts(Filter(a, f), ByTagAndId());
  }

  /** Part of two states that cover each other is rendered to the same list. */
  lemma SamePart(a: seq<Inbound>, b: seq<Inbound>, f: Inbound -> bool)
    requires Proper(a) && Proper(b) && Covers(a, b) && Covers(b, a) && (f == IsInbound() || f == IsEndpoint())
    ensures Map(SortBy(Filter(a, f), ByTagAndId()), RenderInbound) ==
      Map(SortBy(Filter(b, f), ByTagAndId()), RenderInbound)
  {
    hide RenderInbound, LexLess;
    var s, t := SortBy(Filter(a, f), ByTagAndId()), SortBy(Filter(b, f), ByTagAndId());
    SortedPart(a, f);
    SortedPart(b, f);
    FilterCovers(a, b, f);
    FilterCovers(b, a, f);
    SortedCovers(s, t);
    ProperLists(a);
    ProperLists(b);
    forall i | 0 <= i < |s| ensures RenderInbound(s[i]) == RenderInbound(t[i]) {
      assert s[i] in s && t[i] in t;
      SameRendering(s[i], t[i]);
    }
  }

  // ---------------------------------------------------------------- tags and users

  lemma TextsOrdered(s: seq<string>)
    ensures Orders(s, (a, b) => LexLess(a, b))
  {
    forall x, y: string
      ensures !(LexLess(x, y) && LexLess(y, x)) && (LexLess(x, y) || LexLess(y, x) || x == y)
    { LexTotal(x, y); }
    forall x, y, z | LexLess(x, y) && LexLess(y, z) ensures LexLess(x, z) { LexTransitive(x, y, z); }
  }

  lemma SameUsers(a: seq<Inbound>, b: seq<Inbound>)
    requires Covers(a, b) && Covers(b, a)
    ensures UserNames(a) == UserNames(b)
  {
    hide LexLess;
    forall u ensures u in UserIds(a) <==> u in UserIds(b) {
      if u in UserIds(a) { UserOf(a, b, u); }
      if u in UserIds(b) { UserOf(b, a, u); }
    }
    TextsOrdered(UserIds(a));
    SortForgetsOrder(UserIds(a), UserIds(b), (x, y) => LexLess(x, y));
  }

  lemma UserOf(a: seq<Inbound>, b: seq<Inbound>, u: string)
    requires Covers(a, b) && u in UserIds(a)
    ensures u in UserIds(b)
  {
    var i, x :| i in a && x in i.assignments && x.userId == u;
    var j := Partner(i, a, b);
    assert x in j.assignments;
  }

  lemma TagsMore(s: seq<Inbound>)
    requires s != []
    ensures Tags(s) == [s[0].tag] + Tags(s[1..])
  {
  }

  /** Inserting into sorted texts. */
  function InsertText(tags: seq<string>, tag: string): seq<string> { Insert(tags, tag, (a, b) => LexLess(a, b)) }

  lemma InsertTextStep(tags: seq<string>, tag: string)
    ensures tags == [] || !LexLess(tags[0], tag) ==> InsertText(tags, tag) == [tag] + tags
    ensures tags != [] && LexLess(tags[0], tag) ==> InsertText(tags, tag) == [tags[0]] + InsertText(tags[1..], tag)
  {
    hide LexLess;
  }

  lemma InsertStep(s: seq<Inbound>, c: Inbound)
    ensures var r := Insert(s, c, ByTagAndId());
      if s == [] || !TagIdLess(s[0], c) then r == [c] + s else r == [s[0]] + Insert(s[1..], c, ByTagAndId())
  {
    hide TagIdLess;
  }

  lemma TagsCons(i: Inbound, s: seq<Inbound>)
    ensures Tags([i] + s) == [i.tag] + Tags(s)
  {
    TagsMore([i] + s);
    assert ([i] + s)[1..] == s;
  }

  lemma TagOrder(a: Inbound, b: Inbound)
    ensures TagIdLess(a, b) ==> LexLess(a.tag, b.tag) || a.tag == b.tag
    ensures !TagIdLess(a, b) ==> !LexLess(a.tag, b.tag)
  {
    hide LexLess;
  }

  /** Inserting by tag and id inserts the tag among the tags. */
  lemma {:induction false} InsertTag(s: seq<Inbound>, c: Inbound)
    requires forall i, j :: 0 <= i < j < |s| ==> !LexLess(s[j].tag, s[i].tag)
    ensures Tags(Insert(s, c, ByTagAndId())) == InsertText(Tags(s), c.tag)
  {
    hide LexLess, TagIdLess, Insert, InsertText;
    InsertStep(s, c);
    InsertTextStep(Tags(s), c.tag);
    TagsCons(c, s);
    if s != [] {
      TagOrder(s[0], c);
      TagsMore(s);
      if TagIdLess(s[0], c) {
        TagsCons(s[0], Insert(s[1..], c, ByTagAndId()));
        InsertTag(s[1..], c);
        InsertTextStep(Tags(s[1..]), c.tag);
        assert Tags(s)[1..] == Tags(s[1..]);
      }
    }
  }

  lemma {:induction false} SortTags(s: seq<Inbound>)
    requires NoRepeats(s) && DistinctIds(s)
    ensures InboundTags(s) == Tags(SortBy(s, ByTagAndId()))
  {
    if s != [] {
      assert s == [s[0]] + s[1..];
      hide LexLess;
      var rest := s[1..];
      SortTags(rest);
      TagsMore(s);
      assert Tags(s)[1..] == Tags(rest);
      var sorted := SortBy(rest, ByTagAndId());
      InboundsOrdered(rest);
      SortBySorts(rest, ByTagAndId());
      forall i, j | 0 <= i < j < |sorted| ensures !LexLess(sorted[j].tag, sorted[i].tag) {
        assert TagIdLess(sorted[i], sorted[j]);
        LexTotal(sorted[i].tag, sorted[j].tag);
      }
      InsertTag(sorted, s[0]);
      assert InsertText(Tags(sorted), s[0].tag) == Insert(Tags(sorted), s[0].tag, (a, b) => LexLess(a, b));
    }
  }

  lemma SameTags(a: seq<Inbound>, b: seq<Inbound>)
    requires Proper(a) && Proper(b) && Covers(a, b) && Covers(b, a)
    ensures InboundTags(a) == InboundTags(b)
  {
    hide LexLess;
    ProperLists(a);
    ProperLists(b);
    SortTags(a);
    SortTags(b);
    InboundsOrdered(a);
    InboundsOrdered(b);
    SortBySorts(a, ByTagAndId());
    SortBySorts(b, ByTagAndId());
    var s, t := SortBy(a, ByTagAndId()), SortBy(b, ByTagAndId());
    assert Covers(s, t);
    assert Covers(t, s);
    SortedCovers(s, t);
  }

  /** Any order of the inbounds and of each inbound's assignments gives the same config,
      canonical text and redacted text, or makes rendering throw alike. */
  lemma OrderDoesNotMatter(s: Settings, a: seq<Inbound>, b: seq<Inbound>, url: string -> string)
    requires Proper(a) && Proper(b) && Covers(a, b) && Covers(b, a)
    ensures Render(s, a, url) == Render(s, b, url)
  {
    hide RenderInbound, InboundTags, UserNames, Root;
    SamePart(a, b, IsInbound());
    SamePart(a, b, IsEndpoint());
    SameTags(a, b);
    SameUsers(a, b);
  }

  lemma {:induction false} FilterSplits(s: seq<Inbound>)
    ensures multiset(Filter(s, IsInbound())) + multiset(Filter(s, IsEndpoint())) == multiset(s)
  {
    if s != [] {
      assert s == [s[0]] + s[1..];
      FilterSplits(s[1..]);
    }
  }

  /** The rendering of an inbound that can be rendered. */
  function Shown(i: Inbound): Json { if RenderInbound(i).Some? then RenderInbound(i).value else Null }

  lemma {:induction false} AllOf(s: seq<Inbound>)
    ensures var all := All(Map(s, RenderInbound));
      (all.Some? <==> forall i :: i in s ==> RenderInbound(i).Some?) && (all.Some? ==> all.value == Map(s, Shown))
  {
    hide RenderInbound;
    if s != [] {
      assert s == [s[0]] + s[1..];
      assert Map(s, RenderInbound)[1..] == Map(s[1..], RenderInbound);
      AllOf(s[1..]);
      assert Map(s, Shown) == [Shown(s[0])] + Map(s[1..], Shown);
    }
  }

  lemma FindPast(key: string, value: Json, rest: Members, wanted: string)
    ensures Find(Member(key, value, rest), wanted) == if key == wanted then Some(value) else Find(rest, wanted)
  {
  }

  lemma FindTail(tail: Members, outbounds: Json, route: Json, experimental: Json)
    requires tail ==
      Member("outbounds", outbounds, Member("route", route, Member("experimental", experimental, NoMembers)))
    ensures Find(tail, "endpoints").None?
  {
    assert "outbounds"[0] != "endpoints"[0] && |"route"| != |"endpoints"| && |"experimental"| != |"endpoints"|;
    hide Find;
    FindPast("outbounds", outbounds, tail.rest, "endpoints");
    FindPast("route", route, tail.rest.rest, "endpoints");
    FindPast("experimental", experimental, NoMembers, "endpoints");
    FindNothing("endpoints");
  }

  lemma FindNothing(wanted: string)
    ensures Find(NoMembers, wanted).None?
  {
  }

  lemma RootFields(s: Settings, inbounds: seq<Json>, endpoints: seq<Json>, tags: seq<string>, users: seq<string>)
    ensures var root := Root(s, inbounds, endpoints, tags, users);
      root.Obj? && Find(root.members, "inbounds") == Some(Arr(Array(inbounds)))
      && Find(root.members, "endpoints") == if endpoints == [] then None else Some(Arr(Array(endpoints)))
  {
    hide Find, LogSection, DnsSection, RouteSection, ExperimentalSection, Outbound, Array;
    assert "log"[0] != "inbounds"[0] && "dns"[0] != "inbounds"[0];
    assert |"log"| != |"endpoints"| && |"dns"| != |"endpoints"| && |"inbounds"| != |"endpoints"|;
    var m := Root(s, inbounds, endpoints, tags, users).members;
    var after := m.rest.rest.rest;
    FindPast("log", m.value, m.rest, "inbounds");
    FindPast("dns", m.rest.value, m.rest.rest, "inbounds");
    FindPast("inbounds", m.rest.rest.value, after, "inbounds");
    FindPast("log", m.value, m.rest, "endpoints");
    FindPast("dns", m.rest.value, m.rest.rest, "endpoints");
    FindPast("inbounds", m.rest.rest.value, after, "endpoints");
    if endpoints == [] {
      FindTail(after, after.value, after.rest.value, after.rest.rest.value);
    } else {
      FindPast("endpoints", after.value, after.rest, "endpoints");
    }
  }

  /** WireGuard inbounds become endpoints and the others inbounds, each once. */
  lemma PartsSplit(inbounds: seq<Inbound>)
    ensures multiset(SortedInbounds(inbounds)) + multiset(SortedEndpoints(inbounds)) == multiset(inbounds)
    ensures forall i :: i in SortedInbounds(inbounds) <==> i in inbounds && !i.protocol.WIREGUARD?
    ensures forall i :: i in SortedEndpoints(inbounds) <==> i in inbounds && i.protocol.WIREGUARD?
  {
    FilterSplits(inbounds);
  }

  /** Rendering throws exactly if some inbound cannot be rendered. Otherwise the two arrays
      of the config hold the rendering of every inbound exactly once: WireGuard's under
      "endpoints", which is left out if it is empty, and the others under "inbounds". */
  lemma RenderedOnce(s: Settings, inbounds: seq<Inbound>, url: string -> string)
    ensures Render(s, inbounds, url).Some? <==> forall i :: i in inbounds ==> RenderInbound(i).Some?
    ensures Render(s, inbounds, url).Some? ==>
      var config := Render(s, inbounds, url).value.config;
      var plain, wireguard := SortedInbounds(inbounds), SortedEndpoints(inbounds);
      config.Obj? && Find(config.members, "inbounds") == Some(Arr(Array(Map(plain, Shown))))
      && Find(config.members, "endpoints") ==
        (if wireguard == [] then None else Some(Arr(Array(Map(wireguard, Shown)))))
      && multiset(plain) + multiset(wireguard) == multiset(inbounds)
  {
    hide RenderInbound, Root, InboundTags, UserNames, Array, Find, Shown, SortedInbounds, SortedEndpoints;
    PartsSplit(inbounds);
    AllOf(SortedInbounds(inbounds));
    AllOf(SortedEndpoints(inbounds));
    RootFields(s, Map(SortedInbounds(inbounds), Shown), Map(SortedEndpoints(inbounds), Shown),
               InboundTags(inbounds), UserNames(inbounds));
  }
}
