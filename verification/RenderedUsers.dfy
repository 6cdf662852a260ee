/** What a rendered sing-box config says, told by the paths of its tree: `renderConfig` and its
    renderers in apps/api/src/core/sing-box.provider.ts. */
module RenderedUsers {
  import opened Options
  import opened Text
  import opened Lists
  import opened Sorting
  import opened CanonicalJson
  import opened RenderConfig

  // ---------------------------------------------------------------- paths

  lemma AtMember(m: Members, key: string)
    ensures At(Obj(m), [Key(key)]) == Find(m, key)
  {
    hide Find;
    if Find(m, key).Some? { assert At(Find(m, key).value, []) == Find(m, key); }
    assert [Key(key)][1..] == [];
  }

  lemma AtItem(items: Items, i: nat)
    ensures At(Arr(items), [Index(i)]) == ItemAt(items, i)
  {
    if ItemAt(items, i).Some? { assert At(ItemAt(items, i).value, []) == ItemAt(items, i); }
    assert [Index(i)][1..] == [];
  }

  lemma AtThen(v: Json, into: Into, rest: seq<Into>)
    ensures var next := At(v, [into]);
            At(v, [into] + rest) == if next.None? then None else At(next.value, rest)
  {
    assert ([into] + rest)[1..] == rest && [into][1..] == [];
    assert forall w: Json :: At(w, []) == Some(w);
  }

  lemma {:induction false} ItemOfArray(s: seq<Json>, i: nat)
    ensures ItemAt(Array(s), i) == if i < |s| then Some(s[i]) else None
  {
    if s != [] && i > 0 { ItemOfArray(s[1..], i - 1); }
  }

  /** `v` holds `value` under `key`, or nothing. */
  predicate Holds(v: Json, key: string, value: Option<Json>) { At(v, [Key(key)]) == value }

  /** `v` is the list of these texts. */
  predicate IsTexts(v: Json, texts: seq<string>) {
    forall i: nat :: i <= |texts| ==> At(v, [Index(i)]) == if i < |texts| then Some(Str(texts[i])) else None
  }

  lemma TextsAre(texts: seq<string>)
    ensures IsTexts(Texts(texts), texts)
  {
    forall i: nat | i <= |texts|
      ensures At(Texts(texts), [Index(i)]) == if i < |texts| then Some(Str(texts[i])) else None
    {
      AtItem(Texts(texts).items, i);
      ItemOfArray(Map(texts, (t: string) => Str(t)), i);
    }
  }

  // ---------------------------------------------------------------- one user

  predicate Fits(p: Protocol, c: Credential) {
    match p
    case VLESS_REALITY(_, _) => c.Uuid?
    case WIREGUARD(_, _, _) => c.Peer?
    case OTHER => false
    case _ => c.Password?
  }

  /** `v` is the entry that lets the user of `a` in, and nobody else. */
  ghost predicate Admits(v: Json, p: Protocol, a: Assignment) {
    match p
    case VLESS_REALITY(flow, _) =>
      && a.credential.Uuid?
      && Holds(v, "name", Some(Str(a.userId)))
      && Holds(v, "uuid", Some(Str(a.credential.uuid)))
      && Holds(v, "flow", if flow == "" then None else Some(Str(flow)))
    case WIREGUARD(_, _, _) =>
      && a.credential.Peer?
      && Holds(v, "public_key", Some(Str(a.credential.publicKey)))
      && At(v, [Key("allowed_ips")]).Some?
      && IsTexts(At(v, [Key("allowed_ips")]).value, [a.credential.address])
    case OTHER => false
    case _ =>
      && a.credential.Password?
      && Holds(v, "name", Some(Str(a.userId)))
      && Holds(v, "password", Some(Str(a.credential.password)))
  }

  lemma Unfold(m: Members)
    ensures forall key: string ::
      Find(m, key) == (if m.NoMembers? then None else if m.key == key then Some(m.value) else Find(m.rest, key))
  {
  }

  lemma UserAdmits(p: Protocol, a: Assignment)
    ensures RenderUser(p, a).Some? <==> Fits(p, a.credential)
    ensures RenderUser(p, a).Some? ==> Admits(RenderUser(p, a).value, p, a)
  {
    if RenderUser(p, a).Some? {
      var m := RenderUser(p, a).value.members;
      assert "name"[0] != "uuid"[0] && "name"[0] != "flow"[0] && "uuid"[0] != "flow"[0] && |"name"| != |"password"|
        && |"public_key"| != |"allowed_ips"|;
      Unfold(m);
      Unfold(m.rest);
      Unfold(m.rest.rest);
      Unfold(NoMembers);
      AtMember(m, "name"); AtMember(m, "uuid"); AtMember(m, "flow"); AtMember(m, "password");
      AtMember(m, "public_key"); AtMember(m, "allowed_ips");
      if p.WIREGUARD? { TextsAre([a.credential.address]); }
      hide At, Texts, IsTexts, Find;
    }
  }

  // ---------------------------------------------------------------- the users of an inbound

  /** The array has one entry for each assignment, in this order. */
  ghost predicate AdmitsAll(users: Json, p: Protocol, order: seq<Assignment>) {
    && At(users, [Index(|order|)]) == None
    && forall k :: 0 <= k < |order| ==>
         At(users, [Index(k)]).Some? && Admits(At(users, [Index(k)]).value, p, order[k])
  }

  lemma {:induction false} AllFit(p: Protocol, s: seq<Assignment>)
    ensures var all := All(Map(s, a => RenderUser(p, a)));
      && (all.Some? <==> forall a :: a in s ==> Fits(p, a.credential))
      && (all.Some? ==> |all.value| == |s|)
      && (all.Some? ==> forall k :: 0 <= k < |s| ==> Some(all.value[k]) == RenderUser(p, s[k]))
  {
    hide RenderUser, Fits;
    if s != [] {
      UserAdmits(p, s[0]);
      assert Map(s, a => RenderUser(p, a))[1..] == Map(s[1..], a => RenderUser(p, a));
      AllFit(p, s[1..]);
      assert s == [s[0]] + s[1..];
    }
  }

  lemma UsersAdmitted(p: Protocol, s: seq<Assignment>)
    requires RenderUsers(p, s).Some?
    ensures AdmitsAll(Arr(Array(RenderUsers(p, s).value)), p, SortBy(s, ByUser()))
  {
    var order, users := SortBy(s, ByUser()), RenderUsers(p, s).value;
    AllFit(p, order);
    hide RenderUser, Fits, Admits, SortBy;
    AtItem(Array(users), |order|);
    ItemOfArray(users, |order|);
    forall k | 0 <= k < |order|
      ensures At(Arr(Array(users)), [Index(k)]).Some? && Admits(At(Arr(Array(users)), [Index(k)]).value, p, order[k])
    {
      AtItem(Array(users), k);
      ItemOfArray(users, k);
      UserAdmits(p, order[k]);
    }
  }

  // ---------------------------------------------------------------- one inbound

  /** Rendering does not throw. */
  predicate Renderable(i: Inbound) {
    && !i.protocol.OTHER?
    && (i.protocol.HYSTERIA2? || i.protocol.TROJAN? ==> i.protocol.rest.Some?)
    && forall a :: a in i.assignments ==> Fits(i.protocol, a.credential)
  }

  predicate HoldsTls(v: Json, r: Reality) {
    && At(v, [Key("tls"), Key("server_name")]) == Some(Str(r.serverName))
    && At(v, [Key("tls"), Key("reality"), Key("private_key")]) == Some(Str(r.privateKey))
    && At(v, [Key("tls"), Key("reality"), Key("handshake"), Key("server")]) == Some(Str(r.handshakeServer))
    && At(v, [Key("tls"), Key("reality"), Key("handshake"), Key("server_port")]) == Some(Number(r.handshakePort))
    && At(v, [Key("tls"), Key("reality"), Key("short_id")]) == Some(Texts(r.shortIds))
  }

  /** The settings of the inbound itself. */
  predicate HoldsSettings(v: Json, i: Inbound) {
    && Holds(v, "tag", Some(Str(i.tag)))
    && Holds(v, "listen_port", Some(Number(i.listenPort)))
    && (!i.protocol.WIREGUARD? ==> Holds(v, "listen", Some(Str(i.listenHost))))
    && match i.protocol
       case HYSTERIA2(_) => Holds(v, "type", Some(Str("hysteria2")))
       case VLESS_REALITY(_, reality) => Holds(v, "type", Some(Str("vless"))) && HoldsTls(v, reality)
       case TROJAN(_) => Holds(v, "type", Some(Str("trojan")))
       case SHADOWSOCKS(cipher, serverPassword) =>
         && Holds(v, "type", Some(Str("shadowsocks")))
         && Holds(v, "method", Some(Str(cipher)))
         && Holds(v, "password", Some(Str(serverPassword)))
       case WIREGUARD(privateKey, address, mtu) =>
         && Holds(v, "type", Some(Str("wireguard")))
         && Holds(v, "private_key", Some(Str(privateKey)))
         && Holds(v, "address", Some(Texts([address])))
         && Holds(v, "mtu", Some(Number(mtu)))
       case OTHER => false
  }

  /** `v` serves the inbound `i`: its settings, and its users in the order of their ids. */
  ghost predicate Serves(v: Json, i: Inbound) {
    var users := At(v, [Key(if i.protocol.WIREGUARD? then "peers" else "users")]);
    HoldsSettings(v, i) && users.Some? && AdmitsAll(users.value, i.protocol, SortBy(i.assignments, ByUser()))
  }

  lemma KeysDiffer()
    ensures |"type"| == |"peers"| - 1 == |"users"| - 1 == |"system"| - 2 == |"listen"| - 2 == |"method"| - 2
    ensures |"address"| == 7 && |"password"| == 8 && |"multiplex"| == 9 && |"listen_port"| == |"private_key"| == 11
    ensures |"tag"| == |"mtu"| == |"tls"| == 3
    ensures "tag"[0] != "mtu"[0] && "tag"[1] != "tls"[1] && "tls"[0] != "mtu"[0] && "listen_port"[0] != "private_key"[0]
    ensures "method"[0] != "listen"[0] && "method"[0] != "system"[0] && "listen"[0] != "system"[0]
      && "peers"[0] != "users"[0]
  {
  }

  lemma HeadHolds(name: string, i: Inbound, rest: Members)
    ensures var v := Obj(Head(name, i, rest));
      && Holds(v, "type", Some(Str(name))) && Holds(v, "tag", Some(Str(i.tag)))
      && Holds(v, "listen", Some(Str(i.listenHost))) && Holds(v, "listen_port", Some(Number(i.listenPort)))
    ensures forall key: string ::
      key != "type" && key != "tag" && key != "listen" && key != "listen_port" ==>
        Find(Head(name, i, rest), key) == Find(rest, key)
  {
    KeysDiffer();
    var m := Head(name, i, rest);
    Unfold(m);
    Unfold(m.rest);
    Unfold(m.rest.rest);
    Unfold(m.rest.rest.rest);
    AtMember(m, "type"); AtMember(m, "tag"); AtMember(m, "listen"); AtMember(m, "listen_port");
    hide At, Find;
  }

  lemma WireguardHolds(i: Inbound, users: Json)
    requires i.protocol.WIREGUARD?
    ensures Rendering(i, users).Some?
    ensures var v := Obj(Rendering(i, users).value); HoldsSettings(v, i) && Holds(v, "peers", Some(users))
  {
    KeysDiffer();
    var m := Rendering(i, users).value;
    Unfold(m);
    Unfold(m.rest);
    Unfold(m.rest.rest);
    Unfold(m.rest.rest.rest);
    Unfold(m.rest.rest.rest.rest);
    Unfold(m.rest.rest.rest.rest.rest);
    Unfold(m.rest.rest.rest.rest.rest.rest);
    Unfold(m.rest.rest.rest.rest.rest.rest.rest);
    AtMember(m, "type"); AtMember(m, "tag"); AtMember(m, "listen_port"); AtMember(m, "private_key");
    AtMember(m, "address"); AtMember(m, "mtu"); AtMember(m, "peers");
    hide At, Find, Texts;
  }

  lemma ShadowsocksHolds(i: Inbound, users: Json)
    requires i.protocol.SHADOWSOCKS?
    ensures Rendering(i, users).Some?
    ensures var v := Obj(Rendering(i, users).value); HoldsSettings(v, i) && Holds(v, "users", Some(users))
  {
    KeysDiffer();
    var m := Rendering(i, users).value;
    var rest := m.rest.rest.rest.rest;
    HeadHolds("shadowsocks", i, rest);
    Unfold(rest);
    Unfold(rest.rest);
    Unfold(rest.rest.rest);
    AtMember(m, "method"); AtMember(m, "password"); AtMember(m, "users");
    hide At, Find;
  }

  lemma TlsHolds(v: Json, r: Reality)
    requires Holds(v, "tls", Some(Tls(r)))
    ensures HoldsTls(v, r)
  {
    var tls := Tls(r).members;
    var reality := tls.rest.rest.value.members;
    var handshake := reality.rest.value.members;
    assert |"enabled"| == |"reality"| == 7 && "enabled"[0] != "reality"[0] && |"handshake"| == 9
      && |"private_key"| == |"server_port"| == |"server_name"| == 11 && |"short_id"| == 8 && |"server"| == 6;
    Unfold(tls); Unfold(tls.rest); Unfold(tls.rest.rest);
    Unfold(reality); Unfold(reality.rest); Unfold(reality.rest.rest); Unfold(reality.rest.rest.rest);
    Unfold(handshake); Unfold(handshake.rest);
    AtMember(tls, "server_name"); AtMember(tls, "reality");
    AtMember(reality, "private_key"); AtMember(reality, "handshake"); AtMember(reality, "short_id");
    AtMember(handshake, "server"); AtMember(handshake, "server_port");
    hide At, Find, Texts, Number;
    Down2(v, "tls", "server_name");
    Down2(v, "tls", "reality");
    Down3(v, "tls", "reality", "private_key");
    Down3(v, "tls", "reality", "short_id");
    Down3(v, "tls", "reality", "handshake");
    Down4(v, "tls", "reality", "handshake", "server");
    Down4(v, "tls", "reality", "handshake", "server_port");
  }

  /** A path is walked one key after the other. */
  lemma Down2(v: Json, a: string, b: string)
    ensures var x := At(v, [Key(a)]); At(v, [Key(a), Key(b)]) == if x.None? then None else At(x.value, [Key(b)])
  {
    AtThen(v, Key(a), [Key(b)]);
    assert [Key(a), Key(b)] == [Key(a)] + [Key(b)];
  }

  lemma Down3(v: Json, a: string, b: string, c: string)
    ensures var x := At(v, [Key(a), Key(b)]);
            At(v, [Key(a), Key(b), Key(c)]) == if x.None? then None else At(x.value, [Key(c)])
  {
    hide At;
    Down2(v, a, b);
    AtThen(v, Key(a), [Key(b), Key(c)]);
    assert [Key(a), Key(b), Key(c)] == [Key(a)] + [Key(b), Key(c)];
    if At(v, [Key(a)]).Some? { Down2(At(v, [Key(a)]).value, b, c); }
  }

  lemma Down4(v: Json, a: string, b: string, c: string, d: string)
    ensures var x := At(v, [Key(a), Key(b), Key(c)]);
            At(v, [Key(a), Key(b), Key(c), Key(d)]) == if x.None? then None else At(x.value, [Key(d)])
  {
    hide At;
    Down3(v, a, b, c);
    Down2(v, a, b);
    AtThen(v, Key(a), [Key(b), Key(c), Key(d)]);
    assert [Key(a), Key(b), Key(c), Key(d)] == [Key(a)] + [Key(b), Key(c), Key(d)];
    if At(v, [Key(a)]).Some? { Down3(At(v, [Key(a)]).value, b, c, d); Down2(At(v, [Key(a)]).value, b, c); }
  }

  lemma PlainHolds(i: Inbound, users: Json)
    requires i.protocol.HYSTERIA2? || i.protocol.TROJAN? || i.protocol.VLESS_REALITY?
    ensures Rendering(i, users).Some? <==> (i.protocol.VLESS_REALITY? || i.protocol.rest.Some?)
    ensures Rendering(i, users).Some? ==>
      var v := Obj(Rendering(i, users).value); HoldsSettings(v, i) && Holds(v, "users", Some(users))
  {
    if Rendering(i, users).Some? {
      KeysDiffer();
      var m := Rendering(i, users).value;
      var rest := m.rest.rest.rest.rest;
      HeadHolds(m.value.text, i, rest);
      Unfold(rest);
      AtMember(m, "users");
      if i.protocol.VLESS_REALITY? {
        Unfold(rest.rest);
        AtMember(m, "tls");
        TlsHolds(Obj(m), i.protocol.reality);
      }
      hide At, Find, HoldsTls, Tls;
    }
  }

  lemma UsersServed(i: Inbound)
    ensures var users := RenderUsers(i.protocol, i.assignments);
      && (users.Some? <==> forall a :: a in i.assignments ==> Fits(i.protocol, a.credential))
      && (users.Some? ==> AdmitsAll(Arr(Array(users.value)), i.protocol, SortBy(i.assignments, ByUser())))
  {
    AllFit(i.protocol, SortBy(i.assignments, ByUser()));
    hide AdmitsAll, Fits, Array, RenderUser;
    if RenderUsers(i.protocol, i.assignments).Some? { UsersAdmitted(i.protocol, i.assignments); }
  }

  lemma SettingsHold(i: Inbound, users: Json)
    ensures Rendering(i, users).Some? <==>
      !i.protocol.OTHER? && (i.protocol.HYSTERIA2? || i.protocol.TROJAN? ==> i.protocol.rest.Some?)
    ensures Rendering(i, users).Some? ==>
      var v := Obj(Rendering(i, users).value);
      HoldsSettings(v, i) && Holds(v, if i.protocol.WIREGUARD? then "peers" else "users", Some(users))
  {
    hide HoldsSettings, Holds;
    match i.protocol {
      case WIREGUARD(_, _, _) => WireguardHolds(i, users);
      case SHADOWSOCKS(_, _) => ShadowsocksHolds(i, users);
      case OTHER =>
      case _ => PlainHolds(i, users);
    }
  }

  /** An inbound is rendered, or makes rendering throw, as it should. */
  lemma InboundServes(i: Inbound)
    ensures RenderInbound(i).Some? <==> Renderable(i)
    ensures RenderInbound(i).Some? ==> Serves(RenderInbound(i).value, i)
  {
    hide At, Array, AdmitsAll, HoldsSettings, SortBy, Fits, Rendering, RenderUsers;
    UsersServed(i);
    var users := RenderUsers(i.protocol, i.assignments);
    if users.Some? { SettingsHold(i, Arr(Array(users.value))); }
  }

  // ---------------------------------------------------------------- the whole config

  ghost predicate ListServes(config: Json, key: string, list: seq<Inbound>) {
    && At(config, [Key(key)]).Some?
    && At(config, [Key(key), Index(|list|)]) == None
    && forall k :: 0 <= k < |list| ==>
         At(config, [Key(key), Index(k)]).Some? && Serves(At(config, [Key(key), Index(k)]).value, list[k])
  }

  lemma ListIsServed(config: Json, key: string, list: seq<Inbound>)
    requires At(config, [Key(key)]) == Some(Arr(Array(Map(list, Shown)))) && forall i :: i in list ==> Renderable(i)
    ensures ListServes(config, key, list)
  {
    var shown := Map(list, Shown);
    forall k: nat | k <= |list|
      ensures At(config, [Key(key), Index(k)]) == if k < |list| then Some(Shown(list[k])) else None
    {
      hide At;
      AtThen(config, Key(key), [Index(k)]);
      assert [Key(key), Index(k)] == [Key(key)] + [Index(k)];
      AtItem(Array(shown), k);
      ItemOfArray(shown, k);
    }
    hide At, Serves, RenderInbound, Renderable;
    forall k | 0 <= k < |list| ensures Serves(At(config, [Key(key), Index(k)]).value, list[k]) {
      assert list[k] in list;
      InboundServes(list[k]);
    }
  }

  /** In the order of tags and, for one tag, of ids. */
  ghost predicate InOrder(list: seq<Inbound>) {
    forall j, k :: 0 <= j < k < |list| ==>
      LexLess(list[j].tag, list[k].tag) || (list[j].tag == list[k].tag && LexLess(list[j].id, list[k].id))
  }

  ghost predicate InUserOrder(order: seq<Assignment>) {
    forall j, k :: 0 <= j < k < |order| ==> LexLess(order[j].userId, order[k].userId)
  }

  lemma PartInOrder(inbounds: seq<Inbound>)
    requires RenderConfig.Proper(inbounds)
    ensures InOrder(SortedInbounds(inbounds)) && InOrder(SortedEndpoints(inbounds))
  {
    hide LexLess, Filter, SortBy;
    SortedPart(inbounds, IsInbound());
    SortedPart(inbounds, IsEndpoint());
    hide RenderConfig.Proper;
  }

  lemma UsersInOrder(i: Inbound)
    requires DistinctUsers(i.assignments)
    ensures InUserOrder(SortBy(i.assignments, ByUser()))
  {
    UsersOrdered(i.assignments);
    SortBySorts(i.assignments, ByUser());
    hide LexLess, SortBy, Orders;
  }

  /** Rendering throws exactly if an inbound is of a foreign protocol, if its settings cannot be
      rendered or if one of its credentials is of the wrong kind. Otherwise the config serves
      every inbound exactly once, WireGuard's under "endpoints" and the others under
      "inbounds", each with one entry for each assignment, in the order of the user ids, that
      holds this user's id and credential. */
  lemma ConfigServes(s: Settings, inbounds: seq<Inbound>, url: string -> string)
    requires RenderConfig.Proper(inbounds)
    ensures Render(s, inbounds, url).Some? <==> forall i :: i in inbounds ==> Renderable(i)
    ensures Render(s, inbounds, url).Some? ==>
      var config := Render(s, inbounds, url).value.config;
      var plain, wireguard := SortedInbounds(inbounds), SortedEndpoints(inbounds);
      && multiset(plain) + multiset(wireguard) == multiset(inbounds)
      && (forall i :: i in plain ==> !i.protocol.WIREGUARD?) && (forall i :: i in wireguard ==> i.protocol.WIREGUARD?)
      && InOrder(plain) && InOrder(wireguard)
      && (forall i :: i in inbounds ==> InUserOrder(SortBy(i.assignments, ByUser())))
      && ListServes(config, "inbounds", plain)
      && (if wireguard == [] then At(config, [Key("endpoints")]) == None
          else ListServes(config, "endpoints", wireguard))
  {
    hide LexLess, SortBy, RenderInbound, Shown, Renderable, Root, InboundTags, UserNames, Array, SortedInbounds,
      SortedEndpoints, At, ListServes, InOrder, InUserOrder, Serves;
    forall i ensures RenderInbound(i).Some? <==> Renderable(i) { InboundServes(i); }
    RenderedOnce(s, inbounds, url);
    PartsSplit(inbounds);
    PartInOrder(inbounds);
    UsersAreInOrder(inbounds);
    if Render(s, inbounds, url).Some? {
      var config := Render(s, inbounds, url).value.config;
      AtMember(config.members, "inbounds");
      AtMember(config.members, "endpoints");
      ListIsServed(config, "inbounds", SortedInbounds(inbounds));
      if SortedEndpoints(inbounds) != [] { ListIsServed(config, "endpoints", SortedEndpoints(inbounds)); }
    }
  }

  lemma UsersAreInOrder(inbounds: seq<Inbound>)
    requires RenderConfig.Proper(inbounds)
    ensures forall i :: i in inbounds ==> InUserOrder(SortBy(i.assignments, ByUser()))
  {
    ProperLists(inbounds);
    hide InUserOrder, SortBy, DistinctUsers, RenderConfig.Proper;
    forall i | i in inbounds ensures InUserOrder(SortBy(i.assignments, ByUser())) { UsersInOrder(i); }
  }

  // ---------------------------------------------------------------- statistics and routes

  /** Every user who has an assignment, once, in order. */
  ghost predicate IsUserList(users: seq<string>, inbounds: seq<Inbound>) {
    && (forall u :: u in users <==> exists i, a :: i in inbounds && a in i.assignments && a.userId == u)
    && (forall j, k :: 0 <= j < k < |users| ==> LexLess(users[j], users[k]))
  }

  /** Every inbound's tag, in order. */
  ghost predicate IsTagList(tags: seq<string>, inbounds: seq<Inbound>) {
    && multiset(tags) == multiset(Tags(inbounds))
    && (forall j, k :: 0 <= j < k < |tags| ==> !LexLess(tags[k], tags[j]))
  }

  /** Statistics are kept for these users and inbounds. */
  predicate Counts(config: Json, users: seq<string>, tags: seq<string>) {
    var stats := At(config, [Key("experimental"), Key("v2ray_api"), Key("stats")]);
    && stats.Some? && Holds(stats.value, "enabled", Some(Bool(true)))
    && Holds(stats.value, "users", Some(Texts(users)))
    && Holds(stats.value, "inbounds", Some(Texts(tags)))
    && Holds(stats.value, "outbounds", Some(Texts(["block", "direct"])))
  }

  lemma RootKeysDiffer()
    ensures |"log"| == |"dns"| == 3 && |"route"| == 5 && |"inbounds"| == 8 && |"endpoints"| == |"outbounds"| == 9
    ensures "endpoints"[0] != "outbounds"[0] && |"experimental"| == 12
  {
  }

  lemma TailFields(tail: Members, outbounds: Json, route: Json, experimental: Json)
    requires tail ==
      Member("outbounds", outbounds, Member("route", route, Member("experimental", experimental, NoMembers)))
    ensures Find(tail, "outbounds") == Some(outbounds) && Find(tail, "route") == Some(route)
    ensures Find(tail, "experimental") == Some(experimental)
  {
    RootKeysDiffer();
    Unfold(tail); Unfold(tail.rest); Unfold(tail.rest.rest);
    hide Find;
  }

  lemma TailOfRoot(inbounds: seq<Json>, endpoints: seq<Json>, s: Settings, tags: seq<string>, users: seq<string>)
    ensures var root := Root(s, inbounds, endpoints, tags, users);
      && Holds(root, "outbounds", Some(Arr(Array([Outbound("direct"), Outbound("block")]))))
      && Holds(root, "route", Some(RouteSection()))
      && Holds(root, "experimental", Some(ExperimentalSection(s, tags, users)))
  {
    RootKeysDiffer();
    var m := Root(s, inbounds, endpoints, tags, users).members;
    AtMember(m, "outbounds"); AtMember(m, "route"); AtMember(m, "experimental");
    hide At, Find, LogSection, DnsSection, RouteSection, ExperimentalSection, Outbound, Array;
    var tail := if endpoints == [] then m.rest.rest.rest else m.rest.rest.rest.rest;
    TailFields(tail, tail.value, tail.rest.value, tail.rest.rest.value);
    Unfold(m); Unfold(m.rest); Unfold(m.rest.rest); Unfold(m.rest.rest.rest);
  }

  lemma HeadOfRoot(inbounds: seq<Json>, endpoints: seq<Json>, s: Settings, tags: seq<string>, users: seq<string>)
    ensures var root := Root(s, inbounds, endpoints, tags, users);
      Holds(root, "log", Some(LogSection())) && Holds(root, "dns", Some(DnsSection()))
  {
    var m := Root(s, inbounds, endpoints, tags, users).members;
    assert "log"[0] != "dns"[0];
    AtMember(m, "log"); AtMember(m, "dns");
    hide At, Find, LogSection, DnsSection, RouteSection, ExperimentalSection, Outbound, Array;
    Unfold(m); Unfold(m.rest);
  }

  /** The core logs, and resolves names by the one server there is. */
  predicate Resolves(config: Json) {
    && At(config, [Key("log"), Key("disabled")]) == Some(Bool(false))
    && At(config, [Key("log"), Key("level")]) == Some(Str("info"))
    && At(config, [Key("log"), Key("timestamp")]) == Some(Bool(true))
    && At(config, [Key("dns"), Key("final")]) == Some(Str("local"))
    && At(config, [Key("dns"), Key("strategy")]) == Some(Str("prefer_ipv4"))
    && At(config, [Key("dns"), Key("servers"), Index(0), Key("tag")]) == Some(Str("local"))
    && At(config, [Key("dns"), Key("servers"), Index(0), Key("type")]) == Some(Str("local"))
    && At(config, [Key("dns"), Key("servers"), Index(0), Key("prefer_go")]) == Some(Bool(true))
  }

  lemma LogHolds()
    ensures var v := LogSection();
      Holds(v, "disabled", Some(Bool(false))) && Holds(v, "level", Some(Str("info")))
      && Holds(v, "timestamp", Some(Bool(true)))
  {
    var m := LogSection().members;
    assert |"disabled"| == 8 && |"level"| == 5 && |"timestamp"| == 9;
    Unfold(m); Unfold(m.rest); Unfold(m.rest.rest);
    AtMember(m, "disabled"); AtMember(m, "level"); AtMember(m, "timestamp");
    hide At, Find;
  }

  lemma DnsHolds()
    ensures var v := DnsSection();
      && Holds(v, "final", Some(Str("local"))) && Holds(v, "strategy", Some(Str("prefer_ipv4")))
      && v.Obj? && v.members.Member? && Holds(v, "servers", Some(v.members.value))
      && var server := At(v.members.value, [Index(0)]);
         && server.Some? && Holds(server.value, "tag", Some(Str("local")))
         && Holds(server.value, "type", Some(Str("local"))) && Holds(server.value, "prefer_go", Some(Bool(true)))
  {
    var m := DnsSection().members;
    assert |"servers"| == 7 && |"final"| == 5 && |"strategy"| == 8;
    assert |"type"| == 4 && |"tag"| == 3 && |"prefer_go"| == 9;
    var local := m.value.items.head.members;
    Unfold(m); Unfold(m.rest); Unfold(m.rest.rest);
    Unfold(local); Unfold(local.rest); Unfold(local.rest.rest);
    AtItem(m.value.items, 0);
    AtMember(m, "final"); AtMember(m, "strategy"); AtMember(m, "servers");
    AtMember(local, "tag"); AtMember(local, "type"); AtMember(local, "prefer_go");
    hide At, Find;
  }

  lemma ResolverIs(config: Json)
    requires Holds(config, "log", Some(LogSection())) && Holds(config, "dns", Some(DnsSection()))
    ensures Resolves(config)
  {
    LogHolds();
    DnsHolds();
    var dns := DnsSection();
    var servers := dns.members.value;
    var server := At(servers, [Index(0)]).value;
    hide At, LogSection, DnsSection;
    Down2(config, "log", "disabled");
    Down2(config, "log", "level");
    Down2(config, "log", "timestamp");
    Down2(config, "dns", "final");
    Down2(config, "dns", "strategy");
    InFirst(config, "dns", dns, "servers", servers, server, "tag");
    InFirst(config, "dns", dns, "servers", servers, server, "type");
    InFirst(config, "dns", dns, "servers", servers, server, "prefer_go");
  }

  /** A member of the first item of a list of a section. */
  lemma InFirst(config: Json, section: string, v: Json, list: string, items: Json, item: Json, key: string)
    requires Holds(config, section, Some(v)) && Holds(v, list, Some(items)) && At(items, [Index(0)]) == Some(item)
    ensures At(config, [Key(section), Key(list), Index(0), Key(key)]) == At(item, [Key(key)])
  {
    hide At;
    assert [Key(section), Key(list), Index(0), Key(key)]
        == [Key(section)] + ([Key(list)] + ([Index(0)] + [Key(key)]));
    Walk(config, Key(section), [Key(list)] + ([Index(0)] + [Key(key)]), v);
    Walk(v, Key(list), [Index(0)] + [Key(key)], items);
    Walk(items, Index(0), [Key(key)], item);
  }

  /** Traffic leaves directly unless it goes to a private address, which is blocked; both
      routes name an outbound there is. */
  predicate Routes(config: Json) {
    && At(config, [Key("route"), Key("final")]) == Some(Str("direct"))
    && At(config, [Key("route"), Key("rules"), Index(0), Key("ip_is_private")]) == Some(Bool(true))
    && At(config, [Key("route"), Key("rules"), Index(0), Key("outbound")]) == Some(Str("block"))
    && At(config, [Key("route"), Key("rules"), Index(1)]) == None
    && At(config, [Key("outbounds"), Index(0), Key("tag")]) == Some(Str("direct"))
    && At(config, [Key("outbounds"), Index(0), Key("type")]) == Some(Str("direct"))
    && At(config, [Key("outbounds"), Index(1), Key("tag")]) == Some(Str("block"))
    && At(config, [Key("outbounds"), Index(1), Key("type")]) == Some(Str("block"))
  }

  lemma OutboundHolds(name: string)
    ensures At(Outbound(name), [Key("tag")]) == At(Outbound(name), [Key("type")]) == Some(Str(name))
  {
    var m := Outbound(name).members;
    assert |"tag"| == 3 && |"type"| == 4;
    Unfold(m); Unfold(m.rest);
    AtMember(m, "tag"); AtMember(m, "type");
  }

  lemma Walk(v: Json, into: Into, rest: seq<Into>, w: Json)
    requires At(v, [into]) == Some(w)
    ensures At(v, [into] + rest) == At(w, rest)
  {
    AtThen(v, into, rest);
  }

  lemma OutboundsAre(config: Json)
    requires Holds(config, "outbounds", Some(Arr(Array([Outbound("direct"), Outbound("block")]))))
    ensures forall k, key :: 0 <= k < 2 && (key == "tag" || key == "type") ==>
      At(config, [Key("outbounds"), Index(k), Key(key)]) == Some(Str(if k == 0 then "direct" else "block"))
  {
    var list := [Outbound("direct"), Outbound("block")];
    OutboundHolds("direct");
    OutboundHolds("block");
    forall k: nat, key: string | k < 2 && (key == "tag" || key == "type")
      ensures At(config, [Key("outbounds"), Index(k), Key(key)]) == Some(Str(if k == 0 then "direct" else "block"))
    {
      hide At, Outbound, Array;
      assert [Key("outbounds"), Index(k), Key(key)] == [Key("outbounds")] + ([Index(k)] + [Key(key)]);
      Walk(config, Key("outbounds"), [Index(k)] + [Key(key)], Arr(Array(list)));
      AtItem(Array(list), k);
      ItemOfArray(list, k);
      Walk(Arr(Array(list)), Index(k), [Key(key)], list[k]);
    }
  }

  lemma RulesAre(config: Json)
    requires Holds(config, "route", Some(RouteSection()))
    ensures At(config, [Key("route"), Key("final")]) == Some(Str("direct"))
    ensures At(config, [Key("route"), Key("rules"), Index(0), Key("ip_is_private")]) == Some(Bool(true))
    ensures At(config, [Key("route"), Key("rules"), Index(0), Key("outbound")]) == Some(Str("block"))
    ensures At(config, [Key("route"), Key("rules"), Index(1)]) == None
  {
    var rule := Obj(Member("ip_is_private", Bool(true), Member("outbound", Str("block"), NoMembers)));
    var rules := Arr(Array([rule]));
    var route := RouteSection();
    assert |"final"| == |"rules"| == 5 && "final"[0] != "rules"[0] && |"auto_detect_interface"| == 21
      && |"ip_is_private"| == 13 && |"outbound"| == 8;
    Unfold(route.members); Unfold(route.members.rest); Unfold(route.members.rest.rest);
    AtMember(route.members, "final"); AtMember(route.members, "rules");
    Unfold(rule.members); Unfold(rule.members.rest);
    AtMember(rule.members, "ip_is_private"); AtMember(rule.members, "outbound");
    hide At, Find;
    assert At(route, [Key("final")]) == Some(Str("direct")) && At(route, [Key("rules")]) == Some(rules);
    hide RouteSection, Array;
    Down2(config, "route", "final");
    assert [Key("route"), Key("rules"), Index(1)] == [Key("route")] + ([Key("rules")] + [Index(1)]);
    Walk(config, Key("route"), [Key("rules")] + [Index(1)], route);
    Walk(route, Key("rules"), [Index(1)], rules);
    AtItem(Array([rule]), 0);
    AtItem(Array([rule]), 1);
    ItemOfArray([rule], 0);
    ItemOfArray([rule], 1);
    InFirst(config, "route", route, "rules", rules, rule, "ip_is_private");
    InFirst(config, "route", route, "rules", rules, rule, "outbound");
  }

  lemma RoutesAre(config: Json)
    requires Holds(config, "route", Some(RouteSection()))
    requires Holds(config, "outbounds", Some(Arr(Array([Outbound("direct"), Outbound("block")]))))
    ensures Routes(config)
  {
    OutboundsAre(config);
    RulesAre(config);
    hide At, RouteSection, Outbound, Array;
  }

  /** The control interfaces listen where the settings say, under the settings' secret. */
  predicate Controls(config: Json, s: Settings) {
    && At(config, [Key("experimental"), Key("clash_api"), Key("external_controller")]) == Some(Str(s.clashApiListen))
    && At(config, [Key("experimental"), Key("clash_api"), Key("secret")]) == Some(Str(s.clashApiSecret))
    && At(config, [Key("experimental"), Key("clash_api"), Key("access_control_allow_origin"), Index(0)]) == None
    && At(config, [Key("experimental"), Key("clash_api"), Key("access_control_allow_private_network")])
         == Some(Bool(false))
    && At(config, [Key("experimental"), Key("v2ray_api"), Key("listen")]) == Some(Str(s.v2rayApiListen))
  }

  lemma ExperimentalHolds(config: Json, s: Settings, tags: seq<string>, users: seq<string>)
    requires Holds(config, "experimental", Some(ExperimentalSection(s, tags, users)))
    ensures Controls(config, s)
    ensures Counts(config, users, tags)
  {
    var e := ExperimentalSection(s, tags, users);
    var clash, v2ray := e.members.value.members, e.members.rest.value.members;
    ClashHolds(s, tags, users);
    StatsHold(s, tags, users);
    hide At, ExperimentalSection, Texts;
    Down2(config, "experimental", "v2ray_api");
    Down2(config, "experimental", "clash_api");
    Down3(config, "experimental", "v2ray_api", "listen");
    Down3(config, "experimental", "v2ray_api", "stats");
    Down3(config, "experimental", "clash_api", "external_controller");
    Down3(config, "experimental", "clash_api", "secret");
    Down3(config, "experimental", "clash_api", "access_control_allow_private_network");
    Down3(config, "experimental", "clash_api", "access_control_allow_origin");
    var origin := [Key("access_control_allow_origin")] + [Index(0)];
    assert [Key("experimental"), Key("clash_api"), Key("access_control_allow_origin"), Index(0)]
        == [Key("experimental")] + ([Key("clash_api")] + origin);
    Walk(config, Key("experimental"), [Key("clash_api")] + origin, e);
    Walk(e, Key("clash_api"), origin, Obj(clash));
    Walk(Obj(clash), Key("access_control_allow_origin"), [Index(0)], Arr(NoItems));
    AtItem(NoItems, 0);
  }

  lemma ClashHolds(s: Settings, tags: seq<string>, users: seq<string>)
    ensures var e := ExperimentalSection(s, tags, users);
      && At(e, [Key("clash_api")]) == Some(e.members.value) && e.members.value.Obj?
      && Holds(e.members.value, "external_controller", Some(Str(s.clashApiListen)))
      && Holds(e.members.value, "secret", Some(Str(s.clashApiSecret)))
      && Holds(e.members.value, "access_control_allow_origin", Some(Arr(NoItems)))
      && Holds(e.members.value, "access_control_allow_private_network", Some(Bool(false)))
  {
    var e := ExperimentalSection(s, tags, users);
    var clash := e.members.value.members;
    assert |"external_controller"| == 19 && |"secret"| == 6 && |"access_control_allow_origin"| == 27
      && |"access_control_allow_private_network"| == 36;
    Unfold(e.members);
    Unfold(clash); Unfold(clash.rest); Unfold(clash.rest.rest); Unfold(clash.rest.rest.rest);
    AtMember(e.members, "clash_api");
    AtMember(clash, "external_controller"); AtMember(clash, "secret"); AtMember(clash, "access_control_allow_origin");
    AtMember(clash, "access_control_allow_private_network");
    hide At, Find, Texts;
  }

  lemma StatsHold(s: Settings, tags: seq<string>, users: seq<string>)
    ensures var e := ExperimentalSection(s, tags, users);
      var v2ray := At(e, [Key("v2ray_api")]);
      && v2ray.Some? && Holds(v2ray.value, "listen", Some(Str(s.v2rayApiListen)))
      && var stats := At(v2ray.value, [Key("stats")]);
         && stats.Some? && Holds(stats.value, "enabled", Some(Bool(true)))
         && Holds(stats.value, "users", Some(Texts(users))) && Holds(stats.value, "inbounds", Some(Texts(tags)))
         && Holds(stats.value, "outbounds", Some(Texts(["block", "direct"])))
  {
    var e := ExperimentalSection(s, tags, users);
    var v2ray := e.members.rest.value.members;
    var stats := v2ray.rest.value.members;
    assert "clash_api"[0] != "v2ray_api"[0] && |"listen"| == 6 && |"stats"| == |"users"| == 5 && |"enabled"| == 7
      && |"inbounds"| == 8 && |"outbounds"| == 9;
    Unfold(e.members); Unfold(e.members.rest);
    Unfold(v2ray); Unfold(v2ray.rest);
    Unfold(stats); Unfold(stats.rest); Unfold(stats.rest.rest); Unfold(stats.rest.rest.rest);
    AtMember(e.members, "v2ray_api"); AtMember(v2ray, "listen"); AtMember(v2ray, "stats");
    AtMember(stats, "enabled"); AtMember(stats, "users"); AtMember(stats, "inbounds"); AtMember(stats, "outbounds");
    hide At, Find, Texts;
  }

  lemma TagsInOrder(inbounds: seq<Inbound>)
    requires RenderConfig.Proper(inbounds)
    ensures IsTagList(InboundTags(inbounds), inbounds)
  {
    ProperLists(inbounds);
    hide LexLess, RenderConfig.Proper;
    SortTags(inbounds);
    InboundsOrdered(inbounds);
    SortBySorts(inbounds, ByTagAndId());
    var list, tags := SortBy(inbounds, ByTagAndId()), InboundTags(inbounds);
    forall j, k | 0 <= j < k < |tags| ensures !LexLess(tags[k], tags[j]) {
      assert TagIdLess(list[j], list[k]);
      LexTotal(tags[j], tags[k]);
    }
  }

  lemma UsersNamedInOrder(inbounds: seq<Inbound>)
    ensures IsUserList(UserNames(inbounds), inbounds)
  {
    hide LexLess;
    TextsOrdered(UserIds(inbounds));
    SortBySorts(UserIds(inbounds), (a, b) => LexLess(a, b));
  }

  lemma SectionsOfRender(s: Settings, inbounds: seq<Inbound>, url: string -> string)
    requires Render(s, inbounds, url).Some?
    ensures var config := Render(s, inbounds, url).value.config;
      && Holds(config, "outbounds", Some(Arr(Array([Outbound("direct"), Outbound("block")]))))
      && Holds(config, "route", Some(RouteSection()))
      && Holds(config, "experimental", Some(ExperimentalSection(s, InboundTags(inbounds), UserNames(inbounds))))
      && Holds(config, "log", Some(LogSection())) && Holds(config, "dns", Some(DnsSection()))
  {
    var rendered := All(Map(SortedInbounds(inbounds), RenderInbound)).value;
    var endpoints := All(Map(SortedEndpoints(inbounds), RenderInbound)).value;
    hide *;
    TailOfRoot(rendered, endpoints, s, InboundTags(inbounds), UserNames(inbounds));
    HeadOfRoot(rendered, endpoints, s, InboundTags(inbounds), UserNames(inbounds));
    ConfigIsRoot(s, inbounds, url);
  }

  lemma ConfigIsRoot(s: Settings, inbounds: seq<Inbound>, url: string -> string)
    requires Render(s, inbounds, url).Some?
    ensures Render(s, inbounds, url).value.config ==
      Root(s, All(Map(SortedInbounds(inbounds), RenderInbound)).value,
           All(Map(SortedEndpoints(inbounds), RenderInbound)).value, InboundTags(inbounds), UserNames(inbounds))
  {
    hide RenderInbound, All, Root, SortedInbounds, SortedEndpoints, InboundTags, UserNames;
  }

  /** Statistics are asked for every user and every inbound, and the routes and the control
      interfaces are as they should be. */
  lemma ConfigControls(s: Settings, inbounds: seq<Inbound>, url: string -> string)
    requires RenderConfig.Proper(inbounds) && Render(s, inbounds, url).Some?
    ensures var config := Render(s, inbounds, url).value.config;
      && Resolves(config) && Routes(config) && Controls(config, s)
      && Counts(config, UserNames(inbounds), InboundTags(inbounds))
      && IsUserList(UserNames(inbounds), inbounds) && IsTagList(InboundTags(inbounds), inbounds)
  {
    hide *;
    var config := Render(s, inbounds, url).value.config;
    SectionsOfRender(s, inbounds, url);
    ResolverIs(config);
    RoutesAre(config);
    ExperimentalHolds(config, s, InboundTags(inbounds), UserNames(inbounds));
    TagsInOrder(inbounds);
    UsersNamedInOrder(inbounds);
  }
}
