/** Traffic counters from the statistics of a core: `aggregateTrafficCounters` of
    apps/api/src/core/sing-box.provider.ts. `BigInt`, which throws for some texts, is
    any partial function. */
module TrafficCounters {
  import opened Options
  import opened Text
  import opened Sorting

  datatype Scope = User | Inbound | Outbound
  datatype Direction = Uplink | Downlink

  function ScopeText(s: Scope): string {
    match s case User => "user" case Inbound => "inbound" case Outbound => "outbound"
  }
  function DirectionText(d: Direction): string {
    match d case Uplink => "uplink" case Downlink => "downlink"
  }

  datatype Stat = Stat(name: string, value: string)
  datatype Name = Name(scope: Scope, key: string, direction: Direction)

  // ---------------------------------------------------------------- names

  /** What `.` does not match. */
  predicate LineEnd(c: char) { c == '\n' || c == '\r' || c == '\U{2028}' || c == '\U{2029}' }

  predicate IsKey(key: string) { key != "" && forall i :: 0 <= i < |key| ==> !LineEnd(key[i]) }

  function Prefix(s: Scope): string { ScopeText(s) + ">>>" }
  function Suffix(d: Direction): string { ">>>traffic>>>" + DirectionText(d) }

  /** The name a core gives a counter. */
  function NameText(n: Name): string { Prefix(n.scope) + n.key + Suffix(n.direction) }

  /** The text matches the pattern with this scope and direction. */
  predicate Matches(text: string, s: Scope, d: Direction) {
    |text| >= |Prefix(s)| + |Suffix(d)| && StartsWith(text, Prefix(s)) && EndsWith(text, Suffix(d))
    && IsKey(KeyOf(text, s, d))
  }

  function KeyOf(text: string, s: Scope, d: Direction): string
    requires |text| >= |Prefix(s)| + |Suffix(d)|
  {
    text[|Prefix(s)|..|text| - |Suffix(d)|]
  }

  /** The regular expression on a stat's name. */
  function ParseName(text: string): Option<Name> {
    if Matches(text, User, Uplink) then Some(Name(User, KeyOf(text, User, Uplink), Uplink))
    else if Matches(text, User, Downlink) then Some(Name(User, KeyOf(text, User, Downlink), Downlink))
    else if Matches(text, Inbound, Uplink) then Some(Name(Inbound, KeyOf(text, Inbound, Uplink), Uplink))
    else if Matches(text, Inbound, Downlink) then Some(Name(Inbound, KeyOf(text, Inbound, Downlink), Downlink))
    else if Matches(text, Outbound, Uplink) then Some(Name(Outbound, KeyOf(text, Outbound, Uplink), Uplink))
    else if Matches(text, Outbound, Downlink) then Some(Name(Outbound, KeyOf(text, Outbound, Downlink), Downlink))
    else None
  }

  lemma ScopeIsUnique(text: string, s: Scope, t: Scope)
    requires StartsWith(text, Prefix(s)) && StartsWith(text, Prefix(t))
    ensures s == t
  {
    assert text[0] == text[..|Prefix(s)|][0] == text[..|Prefix(t)|][0];
  }

  lemma DirectionIsUnique(text: string, d: Direction, e: Direction)
    requires EndsWith(text, Suffix(d)) && EndsWith(text, Suffix(e))
    ensures d == e
  {
    var n := |text|;
    assert text[n - 6] == text[n - |Suffix(d)|..][|Suffix(d)| - 6];
    assert text[n - 6] == text[n - |Suffix(e)|..][|Suffix(e)| - 6];
    assert Suffix(Uplink)[|Suffix(Uplink)| - 6] == 'u' && Suffix(Downlink)[|Suffix(Downlink)| - 6] == 'w';
  }

  /** Parsing finds a name exactly where the text is that name with a proper key, even if
      the key itself contains ">>>traffic>>>". */
  lemma ParseInvertsNames(text: string, n: Name)
    ensures ParseName(text) == Some(n) <==> text == NameText(n) && IsKey(n.key)
  {
    hide Prefix, Suffix, IsKey;
    forall s, d, t, e | Matches(text, s, d) && Matches(text, t, e) ensures s == t && d == e {
      ScopeIsUnique(text, s, t);
      DirectionIsUnique(text, d, e);
    }
    assert ParseName(text) == Some(n) <==>
      Matches(text, n.scope, n.direction) && KeyOf(text, n.scope, n.direction) == n.key;
    var p, q := Prefix(n.scope), Suffix(n.direction);
    if Matches(text, n.scope, n.direction) && KeyOf(text, n.scope, n.direction) == n.key {
      assert text == text[..|p|] + KeyOf(text, n.scope, n.direction) + text[|text| - |q|..];
    }
    if text == NameText(n) && IsKey(n.key) {
      assert text[..|p|] == p && text[|p|..|text| - |q|] == n.key && text[|text| - |q|..] == q;
    }
  }

  /** The names the pattern is meant to find. */
  function Spelled(n: Name): string {
    (match n.scope case User => "user>>>" case Inbound => "inbound>>>" case Outbound => "outbound>>>")
    + n.key
    + if n.direction.Uplink? then ">>>traffic>>>uplink" else ">>>traffic>>>downlink"
  }

  /** A text without the four line ends, which `.` does not match. */
  predicate OneLine(text: string) {
    forall i :: 0 <= i < |text| ==>
      var c := text[i] as int; c != 0x0A && c != 0x0D && c != 0x2028 && c != 0x2029
  }

  /** The regular expression finds exactly the names written so, with a key of at least one
      character on one line. */
  lemma NamesAreFound(text: string, n: Name)
    ensures ParseName(text) == Some(n) <==> text == Spelled(n) && n.key != "" && OneLine(n.key)
  {
    ParseInvertsNames(text, n);
    NameIsSpelled(n);
    hide ParseName, NameText, Spelled;
    assert forall i :: 0 <= i < |n.key| ==> (LineEnd(n.key[i]) <==>
      var c := n.key[i] as int; c == 0x0A || c == 0x0D || c == 0x2028 || c == 0x2029);
  }

  lemma NameIsSpelled(n: Name)
    ensures NameText(n) == Spelled(n)
  {
    var prefix := match n.scope case User => "user>>>" case Inbound => "inbound>>>" case Outbound => "outbound>>>";
    var suffix := if n.direction.Uplink? then ">>>traffic>>>uplink" else ">>>traffic>>>downlink";
    assert Prefix(n.scope) == prefix;
    assert Suffix(n.direction) == suffix;
    hide Prefix, Suffix;
  }

  // ---------------------------------------------------------------- the map key

  datatype Id = Id(scope: Scope, key: string)

  /** `${scope}\0${key}` */
  function MapKey(id: Id): string { ScopeText(id.scope) + "\0" + id.key }

  lemma NulAt(id: Id)
    ensures var n := |ScopeText(id.scope)|;
      MapKey(id)[n] == '\0' && MapKey(id)[n + 1..] == id.key && forall i :: 0 <= i < n ==> MapKey(id)[i] != '\0'
  {
  }

  /** The map never merges two counters. */
  lemma MapKeyIsInjective(a: Id, b: Id)
    requires MapKey(a) == MapKey(b)
    ensures a == b
  {
    NulAt(a);
    NulAt(b);
    var k := MapKey(a);
    assert |ScopeText(a.scope)| == |ScopeText(b.scope)|;
    assert k[0] == ScopeText(a.scope)[0] == ScopeText(b.scope)[0];
  }

  // ---------------------------------------------------------------- aggregation

  type BigInt = string -> Option<int>

  /** The stat counts for this counter: its name parses and its value is a number. */
  predicate CountsFor(stat: Stat, id: Id, d: Direction, bigInt: BigInt) {
    ParseName(stat.name) == Some(Name(id.scope, id.key, d)) && bigInt(stat.value).Some?
  }

  /** The last value that counts. */
  function Last(raw: seq<Stat>, id: Id, d: Direction, bigInt: BigInt): Option<int> {
    if raw == [] then None
    else if CountsFor(raw[|raw| - 1], id, d, bigInt) then bigInt(raw[|raw| - 1].value)
    else Last(raw[..|raw| - 1], id, d, bigInt)
  }

  datatype Entry = Entry(id: Id, uplink: Option<int>, downlink: Option<int>)
  datatype Counter = Counter(id: Id, uplinkBytes: int, downlinkBytes: int)

  function OrZero(v: Option<int>): int { if v.Some? then v.value else 0 }

  /** The counters wanted: which there are and what they say. */
  ghost predicate Wanted(raw: seq<Stat>, bigInt: BigInt, c: Counter) {
    var up, down := Last(raw, c.id, Uplink, bigInt), Last(raw, c.id, Downlink, bigInt);
    && (up.Some? || down.Some?)
    && c.uplinkBytes == (if up.Some? then up.value else 0)
    && c.downlinkBytes == (if down.Some? then down.value else 0)
  }

  /** The loop's map after some stats. */
  ghost predicate Collected(raw: seq<Stat>, bigInt: BigInt, entries: map<string, Entry>) {
    (forall id :: MapKey(id) in entries <==>
      Last(raw, id, Uplink, bigInt).Some? || Last(raw, id, Downlink, bigInt).Some?)
    && (forall id :: MapKey(id) in entries ==>
          entries[MapKey(id)] == Entry(id, Last(raw, id, Uplink, bigInt), Last(raw, id, Downlink, bigInt)))
    && (forall k :: k in entries ==> k == MapKey(entries[k].id))
  }

  lemma LastMore(raw: seq<Stat>, stat: Stat, id: Id, d: Direction, bigInt: BigInt)
    ensures Last(raw + [stat], id, d, bigInt) ==
      if CountsFor(stat, id, d, bigInt) then bigInt(stat.value) else Last(raw, id, d, bigInt)
  {
    assert (raw + [stat])[..|raw|] == raw;
  }

  lemma CollectedIgnored(raw: seq<Stat>, stat: Stat, bigInt: BigInt, entries: map<string, Entry>)
    requires Collected(raw, bigInt, entries)
    requires ParseName(stat.name).None? || bigInt(stat.value).None?
    ensures Collected(raw + [stat], bigInt, entries)
  {
    hide MapKey, ParseName, Last;
    forall id, d
      ensures Last(raw + [stat], id, d, bigInt) == Last(raw, id, d, bigInt)
    { LastMore(raw, stat, id, d, bigInt); }
  }

  function Updated(entries: map<string, Entry>, n: Name, v: int): map<string, Entry> {
    var id := Id(n.scope, n.key);
    var entry := if MapKey(id) in entries then entries[MapKey(id)] else Entry(id, None, None);
    entries[MapKey(id) := if n.direction.Uplink? then entry.(uplink := Some(v)) else entry.(downlink := Some(v))]
  }

  lemma CollectedCounted(raw: seq<Stat>, stat: Stat, bigInt: BigInt, entries: map<string, Entry>)
    requires Collected(raw, bigInt, entries)
    requires ParseName(stat.name).Some? && bigInt(stat.value).Some?
    ensures Collected(raw + [stat], bigInt, Updated(entries, ParseName(stat.name).value, bigInt(stat.value).value))
  {
    hide MapKey, ParseName, Last;
    var n := ParseName(stat.name).value;
    var me := Id(n.scope, n.key);
    forall id, d ensures Last(raw + [stat], id, d, bigInt) ==
      if id == me && d == n.direction then bigInt(stat.value) else Last(raw, id, d, bigInt)
    {
      LastMore(raw, stat, id, d, bigInt);
    }
    forall id | MapKey(id) == MapKey(me) ensures id == me { MapKeyIsInjective(id, me); }
  }

  // ---------------------------------------------------------------- sorting

  predicate IdLess(a: Id, b: Id) {
    LexLess(ScopeText(a.scope), ScopeText(b.scope)) || (a.scope == b.scope && LexLess(a.key, b.key))
  }

  lemma IdTotal(a: Id, b: Id)
    ensures IdLess(a, b) || IdLess(b, a) || a == b
    ensures !(IdLess(a, b) && IdLess(b, a))
  {
    hide LexLess;
    LexTotal(ScopeText(a.scope), ScopeText(b.scope));
    LexTotal(a.key, b.key);
    ScopeTextIsInjective(a.scope, b.scope);
  }

  lemma ScopeTextIsInjective(s: Scope, t: Scope)
    ensures ScopeText(s) == ScopeText(t) ==> s == t
  {
    if ScopeText(s) == ScopeText(t) { assert ScopeText(s)[0] == ScopeText(t)[0]; }
  }

  lemma IdTransitive(a: Id, b: Id, c: Id)
    requires IdLess(a, b) && IdLess(b, c)
    ensures IdLess(a, c)
  {
    hide LexLess;
    if LexLess(ScopeText(a.scope), ScopeText(b.scope)) && LexLess(ScopeText(b.scope), ScopeText(c.scope)) {
      LexTransitive(ScopeText(a.scope), ScopeText(b.scope), ScopeText(c.scope));
    }
    if LexLess(a.key, b.key) && LexLess(b.key, c.key) { LexTransitive(a.key, b.key, c.key); }
  }

  function CounterLess(): (Counter, Counter) -> bool { (a: Counter, b: Counter) => IdLess(a.id, b.id) }

  lemma CountersOrdered(s: seq<Counter>)
    requires forall x, y :: x in s && y in s && x.id == y.id ==> x == y
    ensures Orders(s, CounterLess())
  {
    hide IdLess;
    forall x, y | x in s && y in s ensures x != y ==> IdLess(x.id, y.id) || IdLess(y.id, x.id) { IdTotal(x.id, y.id); }
    forall x, y ensures !(IdLess(x, y) && IdLess(y, x)) { IdTotal(x, y); }
    forall x, y, z | IdLess(x, y) && IdLess(y, z) ensures IdLess(x, z) { IdTransitive(x, y, z); }
  }

  /** The scopes in the order of their names. */
  function Rank(s: Scope): nat { match s case Inbound => 0 case Outbound => 1 case User => 2 }

  lemma RankIsOrder(a: Scope, b: Scope)
    ensures LexLess(ScopeText(a), ScopeText(b)) <==> Rank(a) < Rank(b)
  {
    LexTotal(ScopeText(a), ScopeText(b));
    if a != b { ScopeTextIsInjective(a, b); assert ScopeText(a)[0] != ScopeText(b)[0]; }
  }

  ghost predicate InOrder(counters: seq<Counter>) {
    forall i, j :: 0 <= i < j < |counters| ==>
      var a, b := counters[i].id, counters[j].id;
      Rank(a.scope) < Rank(b.scope) || (a.scope == b.scope && LexLess(a.key, b.key))
  }

  lemma SortedIsInOrder(counters: seq<Counter>)
    requires Sorted(counters, CounterLess())
    ensures InOrder(counters)
  {
    hide LexLess, ScopeText;
    forall i, j | 0 <= i < j < |counters|
      ensures var a, b := counters[i].id, counters[j].id;
        Rank(a.scope) < Rank(b.scope) || (a.scope == b.scope && LexLess(a.key, b.key))
    {
      assert IdLess(counters[i].id, counters[j].id);
      RankIsOrder(counters[i].id.scope, counters[j].id.scope);
    }
  }

  /** `aggregateTrafficCounters`. The two conditions fix the result. */
  method Aggregate(raw: seq<Stat>, bigInt: BigInt) returns (counters: seq<Counter>)
    ensures Sorted(counters, CounterLess())
    ensures forall c :: c in counters <==> Wanted(raw, bigInt, c)
    ensures InOrder(counters)
  {
    hide MapKey, ParseName, Last, IdLess, InOrder;
    var entries: map<string, Entry> := map[];
    CollectedNothing(bigInt);
    var n := 0;
    while n < |raw|
      invariant 0 <= n <= |raw|
      invariant Collected(raw[..n], bigInt, entries)
    {
      var stat := raw[n];
      assert raw[..n + 1] == raw[..n] + [stat];
      var parsed := ParseName(stat.name);
      if parsed.Some? && bigInt(stat.value).Some? {
        CollectedCounted(raw[..n], stat, bigInt, entries);
        entries := Updated(entries, parsed.value, bigInt(stat.value).value);
      } else {
        CollectedIgnored(raw[..n], stat, bigInt, entries);
      }
      n := n + 1;
    }
    assert raw[..n] == raw;
    counters := SortCounters(entries);
    SortedIsInOrder(counters);
    forall c ensures c in counters <==> Wanted(raw, bigInt, c) {
      if Wanted(raw, bigInt, c) { assert MapKey(c.id) in entries; }
      if c in counters {
        var k :| k in entries && c == ToCounter(entries[k]);
        assert k == MapKey(c.id);
      }
    }
  }

  function ToCounter(e: Entry): Counter { Counter(e.id, OrZero(e.uplink), OrZero(e.downlink)) }

  /** `[...counters.values()].sort(...).map(...)`; the values come in some order. */
  method SortCounters(entries: map<string, Entry>) returns (counters: seq<Counter>)
    requires forall k :: k in entries ==> k == MapKey(entries[k].id)
    ensures Sorted(counters, CounterLess())
    ensures forall c :: c in counters <==> exists k :: k in entries && c == ToCounter(entries[k])
  {
    hide MapKey, IdLess;
    counters := [];
    var rest := entries.Keys;
    while rest != {}
      invariant rest <= entries.Keys && Sorted(counters, CounterLess())
      invariant forall x, y :: x in counters && y in counters && x.id == y.id ==> x == y
      invariant forall c :: c in counters <==> exists k :: k in entries && k !in rest && c == ToCounter(entries[k])
    {
      var k :| k in rest;
      var c := ToCounter(entries[k]);
      forall x | x in counters ensures x.id != c.id {
        var m :| m in entries && m !in rest && x == ToCounter(entries[m]);
      }
      assert forall x, y :: x in counters + [c] && y in counters + [c] && x.id == y.id ==> x == y;
      CountersOrdered(counters + [c]);
      InsertSorted(counters, c, CounterLess());
      counters := Insert(counters, c, CounterLess());
      rest := rest - {k};
    }
  }

  lemma CollectedNothing(bigInt: BigInt)
    ensures Collected([], bigInt, map[])
  {
  }

  /** The result does not depend on the order of stats of different counters or
      directions: it is fixed by the last value of each. */
  lemma LastValuesDecide(raw: seq<Stat>, raw2: seq<Stat>, bigInt: BigInt, a: seq<Counter>, b: seq<Counter>)
    requires forall id, d :: Last(raw, id, d, bigInt) == Last(raw2, id, d, bigInt)
    requires Sorted(a, CounterLess()) && forall c :: c in a <==> Wanted(raw, bigInt, c)
    requires Sorted(b, CounterLess()) && forall c :: c in b <==> Wanted(raw2, bigInt, c)
    ensures a == b
  {
    CountersOrdered(a);
    SortedIsUnique(a, b, CounterLess());
  }
}
