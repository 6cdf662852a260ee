/** Canonical and redacted configs: `sortJson`, `canonicalizeJson`, `redactJson` and
    `isSensitiveKey` of apps/api/src/core/core-config-utils.ts. A JavaScript object is
    its list of members in enumeration order: array indices first, by value, then the
    other keys in the order they were added. A number is its shortest decimal text. */
module CanonicalJson {
  import opened Options
  import opened Text

  datatype Json =
    | Null
    | Bool(flag: bool)
    | Num(digits: string)
    | Str(text: string)
    | Arr(items: Items)
    | Obj(members: Members)
  datatype Items = NoItems | Item(head: Json, rest: Items)
  datatype Members = NoMembers | Member(key: string, value: Json, rest: Members)

  // ---------------------------------------------------------------- key order

  /** An array index: a decimal without a leading zero, below 2^32 - 1. */
  predicate IsIndex(s: string) {
    s != "" && Digits(s) && (s[0] != '0' || s == "0") && Value(s) < 0xFFFF_FFFF
  }

  lemma {:induction false} ValuePositive(s: string)
    requires s != "" && Digits(s) && s[0] != '0'
    ensures Value(s) > 0
  {
    if |s| > 1 { ValuePositive(s[..|s| - 1]); }
  }

  lemma {:induction false} ValueInjective(a: string, b: string)
    requires Digits(a) && Digits(b) && Value(a) == Value(b)
    requires (a != "" ==> a[0] != '0') && (b != "" ==> b[0] != '0')
    ensures a == b
  {
    if a != "" { ValuePositive(a); }
    if b != "" { ValuePositive(b); }
    if a != "" && b != "" {
      var a', b' := a[..|a| - 1], b[..|b| - 1];
      LastDigit(Value(a'), a[|a| - 1] as int - '0' as int, Value(b'), b[|b| - 1] as int - '0' as int);
      ValueInjective(a', b');
      assert a == a' + [a[|a| - 1]] && b == b' + [b[|b| - 1]];
    }
  }

  lemma LastDigit(x: nat, d: nat, y: nat, e: nat)
    requires d < 10 && e < 10 && 10 * x + d == 10 * y + e
    ensures x == y && d == e
  {
  }

  lemma IndexInjective(a: string, b: string)
    requires IsIndex(a) && IsIndex(b) && Value(a) == Value(b)
    ensures a == b
  {
    if a[0] == '0' || b[0] == '0' {
      if a[0] != '0' { ValuePositive(a); }
      if b[0] != '0' { ValuePositive(b); }
    } else {
      ValueInjective(a, b);
    }
  }

  /** Which of two keys of an object with sorted members comes first. */
  predicate Before(a: string, b: string) {
    if IsIndex(a) && IsIndex(b) then Value(a) < Value(b)
    else if IsIndex(a) || IsIndex(b) then IsIndex(a)
    else LexLess(a, b)
  }

  lemma BeforeTotal(a: string, b: string)
    ensures Before(a, b) || Before(b, a) || a == b
    ensures !(Before(a, b) && Before(b, a))
  {
    LexTotal(a, b);
    if IsIndex(a) && IsIndex(b) && Value(a) == Value(b) { IndexInjective(a, b); }
  }

  // ---------------------------------------------------------------- objects

  function Keys(m: Members): set<string> {
    if m.NoMembers? then {} else {m.key} + Keys(m.rest)
  }

  /** The value of a member. */
  function Find(m: Members, key: string): Option<Json> {
    if m.NoMembers? then None else if m.key == key then Some(m.value) else Find(m.rest, key)
  }

  function ItemAt(items: Items, i: nat): Option<Json> {
    if items.NoItems? then None else if i == 0 then Some(items.head) else ItemAt(items.rest, i - 1)
  }

  /** A step into a value: to an item of an array or to a member of an object. */
  datatype Into = Index(i: nat) | Key(key: string)

  /** What a path leads to. */
  function At(v: Json, path: seq<Into>): Option<Json>
    decreases |path|
  {
    if path == [] then Some(v)
    else
      var next :=
        if v.Arr? && path[0].Index? then ItemAt(v.items, path[0].i)
        else if v.Obj? && path[0].Key? then Find(v.members, path[0].key)
        else None;
      if next.None? then None else At(next.value, path[1..])
  }

  /** An own property is set: an old key keeps its place, an index goes among the
      indices, another key goes last. */
  function Put(m: Members, k: string, v: Json): Members {
    if m.NoMembers? then Member(k, v, NoMembers)
    else if m.key == k then Member(k, v, m.rest)
    else if IsIndex(k) && (!IsIndex(m.key) || Value(k) < Value(m.key)) then Member(k, v, m)
    else Member(m.key, m.value, Put(m.rest, k, v))
  }

  function PutAll(m: Members, entries: Members): Members
    decreases entries
  {
    if entries.NoMembers? then m else PutAll(Put(m, entries.key, entries.value), entries.rest)
  }

  function FromEntries(entries: Members): Members { PutAll(NoMembers, entries) }

  /** What no operation can build otherwise: distinct keys, and the indices first, by value. */
  predicate Ordered(m: Members) {
    m.Member? ==>
      m.key !in Keys(m.rest) && Ordered(m.rest)
      && forall k :: k in Keys(m.rest) && IsIndex(k) ==> IsIndex(m.key) && Value(m.key) < Value(k)
  }

  predicate IsObject(v: Json) {
    match v
    case Arr(items) => AreObjects(items)
    case Obj(members) => Ordered(members) && HoldObjects(members)
    case _ => true
  }
  predicate AreObjects(items: Items) { items.Item? ==> IsObject(items.head) && AreObjects(items.rest) }
  predicate HoldObjects(m: Members) { m.Member? ==> IsObject(m.value) && HoldObjects(m.rest) }

  // ---------------------------------------------------------------- meaning

  /** A JSON value with objects unordered, as in section 4 of RFC 8259. */
  datatype Unordered =
    | VNull
    | VBool(flag: bool)
    | VNum(digits: string)
    | VStr(text: string)
    | VArr(items: seq<Unordered>)
    | VObj(members: map<string, Unordered>)

  function Meaning(v: Json): Unordered {
    match v
    case Null => VNull
    case Bool(b) => VBool(b)
    case Num(n) => VNum(n)
    case Str(s) => VStr(s)
    case Arr(items) => VArr(MeaningOfItems(items))
    case Obj(members) => VObj(MeaningOf(members))
  }

  function MeaningOfItems(items: Items): seq<Unordered> {
    if items.NoItems? then [] else [Meaning(items.head)] + MeaningOfItems(items.rest)
  }

  function MeaningOf(m: Members): (meaning: map<string, Unordered>)
    ensures meaning.Keys == Keys(m)
  {
    if m.NoMembers? then map[] else MeaningOf(m.rest)[m.key := Meaning(m.value)]
  }

  lemma {:induction false} PutKeys(m: Members, k: string, v: Json)
    ensures Keys(Put(m, k, v)) == Keys(m) + {k}
  {
    if m.Member? { PutKeys(m.rest, k, v); }
  }

  lemma {:induction false} PutMeaning(m: Members, k: string, v: Json)
    requires Distinct(m)
    ensures MeaningOf(Put(m, k, v)) == MeaningOf(m)[k := Meaning(v)]
  {
    hide IsIndex, Value;
    if m.Member? {
      PutMeaning(m.rest, k, v);
      var rest := MeaningOf(m.rest);
      if m.key == k {
        assert rest[m.key := Meaning(m.value)][k := Meaning(v)] == rest[k := Meaning(v)];
      } else {
        assert rest[k := Meaning(v)][m.key := Meaning(m.value)] == rest[m.key := Meaning(m.value)][k := Meaning(v)];
      }
    }
  }

  lemma {:induction false} PutDistinct(m: Members, k: string, v: Json)
    requires Distinct(m) && k !in Keys(m)
    ensures Distinct(Put(m, k, v))
  {
    hide IsIndex, Value;
    PutKeys(m, k, v);
    if m.Member? {
      PutKeys(m.rest, k, v);
      PutDistinct(m.rest, k, v);
    }
  }

  lemma Shift<T>(m: map<string, T>, k: string, v: T, r: map<string, T>)
    requires k !in r
    ensures m[k := v] + r == m + r[k := v]
  {
  }

  lemma {:induction false} PutAllMeaning(m: Members, entries: Members)
    requires Distinct(m) && Distinct(entries) && Keys(m) !! Keys(entries)
    ensures MeaningOf(PutAll(m, entries)) == MeaningOf(m) + MeaningOf(entries)
    decreases entries
  {
    hide IsIndex, Value, Put, Meaning;
    if entries.Member? {
      var k, v := entries.key, entries.value;
      PutKeys(m, k, v);
      PutMeaning(m, k, v);
      PutDistinct(m, k, v);
      PutAllMeaning(Put(m, k, v), entries.rest);
      Shift(MeaningOf(m), k, Meaning(v), MeaningOf(entries.rest));
    }
  }

  predicate Distinct(m: Members) { m.Member? ==> m.key !in Keys(m.rest) && Distinct(m.rest) }

  lemma OrderedIsDistinct(m: Members)
    requires Ordered(m)
    ensures Distinct(m)
  {
  }

  // ---------------------------------------------------------------- sortJson

  function InsertByKey(m: Members, k: string, v: Json): Members {
    if m.NoMembers? || LexLess(k, m.key) then Member(k, v, m)
    else Member(m.key, m.value, InsertByKey(m.rest, k, v))
  }

  /** `Object.keys(value).sort()`, with the values alongside. */
  function SortByKey(m: Members): Members {
    if m.NoMembers? then NoMembers else InsertByKey(SortByKey(m.rest), m.key, m.value)
  }

  function SortJson(v: Json): Json {
    match v
    case Arr(items) => Arr(SortItems(items))
    case Obj(members) => Obj(FromEntries(SortByKey(SortValues(members))))
    case _ => v
  }

  function SortItems(items: Items): Items {
    if items.NoItems? then NoItems else Item(SortJson(items.head), SortItems(items.rest))
  }

  function SortValues(m: Members): Members {
    if m.NoMembers? then NoMembers else Member(m.key, SortJson(m.value), SortValues(m.rest))
  }

  /** Keys in order at every depth. */
  predicate Canonical(v: Json) {
    match v
    case Arr(items) => CanonicalItems(items)
    case Obj(members) => KeysSorted(members) && CanonicalValues(members)
    case _ => true
  }
  predicate CanonicalItems(items: Items) { items.Item? ==> Canonical(items.head) && CanonicalItems(items.rest) }
  predicate CanonicalValues(m: Members) { m.Member? ==> Canonical(m.value) && CanonicalValues(m.rest) }
  predicate KeysSorted(m: Members) {
    m.Member? ==> KeysSorted(m.rest) && forall k :: k in Keys(m.rest) ==> Before(m.key, k)
  }
  predicate LexSorted(m: Members) {
    m.Member? ==> LexSorted(m.rest) && forall k :: k in Keys(m.rest) ==> LexLess(m.key, k)
  }

  lemma {:induction false} SortedIsOrdered(m: Members)
    requires KeysSorted(m)
    ensures Ordered(m)
  {
    if m.Member? {
      SortedIsOrdered(m.rest);
      BeforeTotal(m.key, m.key);
    }
  }

  lemma {:induction false} InsertKeeps(m: Members, k: string, v: Json)
    requires LexSorted(m) && k !in Keys(m)
    ensures LexSorted(InsertByKey(m, k, v)) && Keys(InsertByKey(m, k, v)) == Keys(m) + {k}
    ensures CanonicalValues(m) && Canonical(v) ==> CanonicalValues(InsertByKey(m, k, v))
  {
    hide LexLess;
    if m.Member? {
      LexTotal(k, m.key);
      if LexLess(k, m.key) {
        forall x | x in Keys(m.rest) ensures LexLess(k, x) { LexTransitive(k, m.key, x); }
      } else {
        InsertKeeps(m.rest, k, v);
      }
    }
  }

  lemma {:induction false} InsertMeaning(m: Members, k: string, v: Json)
    requires k !in Keys(m)
    ensures MeaningOf(InsertByKey(m, k, v)) == MeaningOf(m)[k := Meaning(v)]
  {
    hide LexLess;
    if m.Member? {
      InsertMeaning(m.rest, k, v);
      var rest := MeaningOf(m.rest);
      assert rest[k := Meaning(v)][m.key := Meaning(m.value)] == rest[m.key := Meaning(m.value)][k := Meaning(v)];
    }
  }

  lemma {:induction false} SortByKeyKeeps(m: Members)
    requires Distinct(m)
    ensures LexSorted(SortByKey(m)) && Keys(SortByKey(m)) == Keys(m) && MeaningOf(SortByKey(m)) == MeaningOf(m)
    ensures CanonicalValues(m) ==> CanonicalValues(SortByKey(m))
  {
    if m.Member? {
      SortByKeyKeeps(m.rest);
      InsertKeeps(SortByKey(m.rest), m.key, m.value);
      InsertMeaning(SortByKey(m.rest), m.key, m.value);
    }
  }

  lemma {:induction false} LexSortedIsDistinct(m: Members)
    requires LexSorted(m)
    ensures Distinct(m)
  {
    if m.Member? {
      LexSortedIsDistinct(m.rest);
      LexTotal(m.key, m.key);
    }
  }

  /** Setting a key that comes after every other non-index key keeps the order. */
  lemma {:induction false} PutSorted(m: Members, k: string, v: Json)
    requires KeysSorted(m) && k !in Keys(m)
    requires !IsIndex(k) ==> forall x :: x in Keys(m) ==> IsIndex(x) || LexLess(x, k)
    ensures KeysSorted(Put(m, k, v)) && Keys(Put(m, k, v)) == Keys(m) + {k}
    ensures CanonicalValues(m) && Canonical(v) ==> CanonicalValues(Put(m, k, v))
  {
    if m.Member? {
      if IsIndex(k) && (!IsIndex(m.key) || Value(k) < Value(m.key)) {
        forall x | x in Keys(m.rest) ensures Before(k, x) { assert Before(m.key, x); }
      } else {
        PutSorted(m.rest, k, v);
        BeforeTotal(m.key, k);
      }
    }
  }

  lemma {:induction false} PutAllSorted(m: Members, entries: Members)
    requires KeysSorted(m) && LexSorted(entries) && Keys(m) !! Keys(entries)
    requires forall x, k :: x in Keys(m) && k in Keys(entries) && !IsIndex(k) ==> IsIndex(x) || LexLess(x, k)
    ensures KeysSorted(PutAll(m, entries))
    ensures CanonicalValues(m) && CanonicalValues(entries) ==> CanonicalValues(PutAll(m, entries))
    decreases entries
  {
    if entries.Member? {
      var m' := Put(m, entries.key, entries.value);
      PutSorted(m, entries.key, entries.value);
      LexSortedIsDistinct(entries);
      PutAllSorted(m', entries.rest);
    }
  }

  lemma {:induction false} SortValuesMeaning(m: Members)
    requires HoldObjects(m)
    ensures Keys(SortValues(m)) == Keys(m) && MeaningOf(SortValues(m)) == MeaningOf(m)
    ensures Distinct(m) ==> Distinct(SortValues(m))
    ensures CanonicalValues(SortValues(m))
  {
    if m.Member? {
      SortMeaning(m.value);
      SortValuesMeaning(m.rest);
    }
  }

  lemma {:induction false} SortItemsMeaning(items: Items)
    requires AreObjects(items)
    ensures MeaningOfItems(SortItems(items)) == MeaningOfItems(items) && CanonicalItems(SortItems(items))
  {
    if items.Item? {
      SortMeaning(items.head);
      SortItemsMeaning(items.rest);
    }
  }

  /** Sorting changes no meaning and leaves the keys in order at every depth. */
  lemma {:induction false} SortMeaning(v: Json)
    requires IsObject(v)
    ensures Meaning(SortJson(v)) == Meaning(v) && Canonical(SortJson(v))
  {
    match v
    case Arr(items) => SortItemsMeaning(items);
    case Obj(members) =>
      SortValuesMeaning(members);
      OrderedIsDistinct(members);
      SortedMembers(SortValues(members));
    case _ =>
  }

  /** Members sorted by key and put into a new object. */
  lemma SortedMembers(m: Members)
    requires Distinct(m) && CanonicalValues(m)
    ensures MeaningOf(FromEntries(SortByKey(m))) == MeaningOf(m)
    ensures KeysSorted(FromEntries(SortByKey(m))) && CanonicalValues(FromEntries(SortByKey(m)))
  {
    hide PutAll, Put, IsIndex, LexLess, SortByKey;
    var sorted := SortByKey(m);
    SortByKeyKeeps(m);
    LexSortedIsDistinct(sorted);
    PutAllMeaning(NoMembers, sorted);
    PutAllSorted(NoMembers, sorted);
  }

  lemma {:induction false} CanonicalItemsUnique(a: Items, b: Items)
    requires CanonicalItems(a) && CanonicalItems(b) && MeaningOfItems(a) == MeaningOfItems(b)
    ensures a == b
  {
    if a.Item? && b.Item? {
      assert MeaningOfItems(a)[0] == MeaningOfItems(b)[0] && MeaningOfItems(a)[1..] == MeaningOfItems(b)[1..];
      CanonicalUnique(a.head, b.head);
      CanonicalItemsUnique(a.rest, b.rest);
    }
  }

  lemma {:induction false} CanonicalMembersUnique(a: Members, b: Members)
    requires KeysSorted(a) && KeysSorted(b) && CanonicalValues(a) && CanonicalValues(b) && MeaningOf(a) == MeaningOf(b)
    ensures a == b
  {
    assert Keys(a) == MeaningOf(a).Keys == MeaningOf(b).Keys == Keys(b);
    assert a.Member? ==> a.key in Keys(b);
    assert b.Member? ==> b.key in Keys(a);
    if a.Member? {
      assert b.key in Keys(a);
      BeforeTotal(a.key, b.key);
      assert a.key == b.key;
      CanonicalUnique(a.value, b.value);
      SortedIsOrdered(a);
      SortedIsOrdered(b);
      assert MeaningOf(a.rest) == MeaningOf(a) - {a.key} && MeaningOf(b.rest) == MeaningOf(b) - {b.key};
      CanonicalMembersUnique(a.rest, b.rest);
    }
  }

  /** A meaning has one canonical tree. */
  lemma {:induction false} CanonicalUnique(a: Json, b: Json)
    requires Canonical(a) && Canonical(b) && Meaning(a) == Meaning(b)
    ensures a == b
  {
    if a.Arr? { CanonicalItemsUnique(a.items, b.items); }
    if a.Obj? { CanonicalMembersUnique(a.members, b.members); }
  }

  /** `sortJson` gives the same tree exactly for values equal up to key order. */
  lemma SortDecidesEquality(a: Json, b: Json)
    requires IsObject(a) && IsObject(b)
    ensures SortJson(a) == SortJson(b) <==> Meaning(a) == Meaning(b)
  {
    SortMeaning(a);
    SortMeaning(b);
    if Meaning(a) == Meaning(b) { CanonicalUnique(SortJson(a), SortJson(b)); }
  }

  lemma {:induction false} CanonicalIsObject(v: Json)
    requires Canonical(v)
    ensures IsObject(v)
  {
    match v
    case Arr(items) => CanonicalItemsAre(items);
    case Obj(members) =>
      SortedIsOrdered(members);
      CanonicalValuesAre(members);
    case _ =>
  }
  lemma {:induction false} CanonicalItemsAre(items: Items)
    requires CanonicalItems(items)
    ensures AreObjects(items)
  {
    if items.Item? { CanonicalIsObject(items.head); CanonicalItemsAre(items.rest); }
  }
  lemma {:induction false} CanonicalValuesAre(m: Members)
    requires CanonicalValues(m)
    ensures HoldObjects(m)
  {
    if m.Member? { CanonicalIsObject(m.value); CanonicalValuesAre(m.rest); }
  }

  /** The values `sortJson` leaves alone are the canonical ones; so it is idempotent. */
  lemma SortFixesCanonical(v: Json)
    requires IsObject(v)
    ensures SortJson(v) == v <==> Canonical(v)
    ensures SortJson(SortJson(v)) == SortJson(v)
  {
    SortMeaning(v);
    CanonicalIsObject(SortJson(v));
    SortMeaning(SortJson(v));
    CanonicalUnique(SortJson(SortJson(v)), SortJson(v));
    if Canonical(v) { CanonicalUnique(SortJson(v), v); }
  }
}

/** `redactJson` and `isSensitiveKey`. Redacting an http(s) URL string is left to an
    arbitrary function `url`. */
module Redaction {
  import opened Text
  import opened CanonicalJson

  function LowerChar(c: char): char { if 'A' <= c <= 'Z' then c - 'A' + 'a' else c }
  function Lower(s: string): string { seq(|s|, i requires 0 <= i < |s| => LowerChar(s[i])) }

  const SENSITIVE: set<string> := {
    "password", "secret", "token", "api_token", "zone_token", "access_key_secret", "security_token",
    "mac_key", "private_key", "key", "certificate", "account_key", "credential"
  }

  predicate IsSensitiveKey(key: string) {
    var normalized := Lower(key);
    normalized in SENSITIVE
    || EndsWith(normalized, "_password")
    || EndsWith(normalized, "_secret")
    || EndsWith(normalized, "_token")
    || (EndsWith(normalized, "_key") && normalized != "key_id" && !EndsWith(normalized, "_key_path"))
  }

  /** The two exceptions in the last line of `isSensitiveKey` never apply. */
  lemma ExceptionsNeverApply(key: string)
    ensures IsSensitiveKey(key) <==>
      var k := Lower(key);
      k in SENSITIVE || EndsWith(k, "_password") || EndsWith(k, "_secret") || EndsWith(k, "_token")
        || EndsWith(k, "_key")
  {
    LastChar(Lower(key), "_key");
    LastChar(Lower(key), "_key_path");
  }

  lemma LastChar(s: string, suffix: string)
    requires suffix != ""
    ensures EndsWith(s, suffix) ==> s != "" && s[|s| - 1] == suffix[|suffix| - 1]
  {
    if EndsWith(s, suffix) { assert s[|s| - 1] == s[|s| - |suffix|..][|suffix| - 1]; }
  }

  predicate IsHttp(s: string) {
    var l := Lower(s);
    (|l| >= 7 && l[..7] == "http://") || (|l| >= 8 && l[..8] == "https://")
  }

  const REDACTED := Str("[REDACTED]")

  /** `key && isSensitiveKey(key)`: a missing key is the empty one. */
  predicate IsSecret(key: string) { key != "" && IsSensitiveKey(key) }

  /** `redactJson(value, key)` */
  function RedactJson(v: Json, key: string, url: string -> string): Json {
    if IsSecret(key) then REDACTED
    else
      match v
      case Arr(items) => Arr(RedactItems(items, url))
      case Obj(members) => Obj(FromEntries(RedactMembers(members, url)))
      case Str(s) => if IsHttp(s) then Str(url(s)) else v
      case _ => v
  }

  function RedactItems(items: Items, url: string -> string): Items {
    if items.NoItems? then NoItems else Item(RedactJson(items.head, "", url), RedactItems(items.rest, url))
  }

  function RedactMembers(m: Members, url: string -> string): Members {
    if m.NoMembers? then NoMembers else Member(m.key, RedactJson(m.value, m.key, url), RedactMembers(m.rest, url))
  }

  // ---------------------------------------------------------------- objects stay objects

  function Append(a: Members, b: Members): Members {
    if a.NoMembers? then b else Member(a.key, a.value, Append(a.rest, b))
  }

  lemma {:induction false} AppendOne(a: Members, k: string, v: Json, rest: Members)
    ensures Append(Append(a, Member(k, v, NoMembers)), rest) == Append(a, Member(k, v, rest))
  {
    if a.Member? { AppendOne(a.rest, k, v, rest); }
  }

  lemma {:induction false} AppendKeys(a: Members, b: Members)
    ensures Keys(Append(a, b)) == Keys(a) + Keys(b)
  {
    if a.Member? { AppendKeys(a.rest, b); }
  }

  lemma {:induction false} PutLast(a: Members, k: string, v: Json, rest: Members)
    requires Ordered(Append(a, Member(k, v, rest)))
    ensures Put(a, k, v) == Append(a, Member(k, v, NoMembers))
  {
    hide Value;
    if a.Member? {
      AppendKeys(a.rest, Member(k, v, rest));
      PutLast(a.rest, k, v, rest);
    }
  }

  lemma {:induction false} PutAllInOrder(a: Members, b: Members)
    requires Ordered(Append(a, b))
    ensures PutAll(a, b) == Append(a, b)
    decreases b
  {
    if b.Member? {
      PutLast(a, b.key, b.value, b.rest);
      AppendOne(a, b.key, b.value, b.rest);
      PutAllInOrder(Put(a, b.key, b.value), b.rest);
    } else {
      AppendNothing(a);
    }
  }

  lemma {:induction false} AppendNothing(a: Members)
    ensures Append(a, NoMembers) == a
  {
    if a.Member? { AppendNothing(a.rest); }
  }

  lemma {:induction false} SameKeysOrdered(a: Members, url: string -> string)
    ensures Keys(RedactMembers(a, url)) == Keys(a)
    ensures Ordered(a) ==> Ordered(RedactMembers(a, url))
    ensures KeysSorted(a) ==> KeysSorted(RedactMembers(a, url))
    ensures Distinct(a) ==> Distinct(RedactMembers(a, url))
  {
    hide RedactJson, IsIndex, Value, Before;
    if a.Member? { SameKeysOrdered(a.rest, url); }
  }

  /** Rebuilding the object keeps the members where they were. */
  lemma RedactedMembers(m: Members, url: string -> string)
    requires Ordered(m)
    ensures FromEntries(RedactMembers(m, url)) == RedactMembers(m, url)
  {
    SameKeysOrdered(m, url);
    PutAllInOrder(NoMembers, RedactMembers(m, url));
  }

  lemma {:induction false} RedactedIsObject(v: Json, key: string, url: string -> string)
    requires IsObject(v)
    ensures IsObject(RedactJson(v, key, url))
    ensures Canonical(v) ==> Canonical(RedactJson(v, key, url))
  {
    if !IsSecret(key) {
      match v
      case Arr(items) => RedactedItemsAre(items, url);
      case Obj(members) =>
        RedactedMembers(members, url);
        SameKeysOrdered(members, url);
        RedactedMembersAre(members, url);
      case _ =>
    }
  }
  lemma {:induction false} RedactedItemsAre(items: Items, url: string -> string)
    requires AreObjects(items)
    ensures AreObjects(RedactItems(items, url))
    ensures CanonicalItems(items) ==> CanonicalItems(RedactItems(items, url))
  {
    if items.Item? { RedactedIsObject(items.head, "", url); RedactedItemsAre(items.rest, url); }
  }
  lemma {:induction false} RedactedMembersAre(m: Members, url: string -> string)
    requires HoldObjects(m)
    ensures HoldObjects(RedactMembers(m, url))
    ensures CanonicalValues(m) ==> CanonicalValues(RedactMembers(m, url))
  {
    if m.Member? { RedactedIsObject(m.value, m.key, url); RedactedMembersAre(m.rest, url); }
  }

  // ---------------------------------------------------------------- redaction and sorting commute

  lemma {:induction false} InsertRedacts(m: Members, k: string, v: Json, url: string -> string)
    ensures RedactMembers(InsertByKey(m, k, v), url) == InsertByKey(RedactMembers(m, url), k, RedactJson(v, k, url))
  {
    hide RedactJson, LexLess;
    if m.Member? && !LexLess(k, m.key) { InsertRedacts(m.rest, k, v, url); }
  }

  lemma {:induction false} SortByKeyRedacts(m: Members, url: string -> string)
    ensures RedactMembers(SortByKey(m), url) == SortByKey(RedactMembers(m, url))
  {
    hide RedactJson, InsertByKey;
    if m.Member? {
      SortByKeyRedacts(m.rest, url);
      InsertRedacts(SortByKey(m.rest), m.key, m.value, url);
    }
  }

  lemma {:induction false} PutRedacts(m: Members, k: string, v: Json, url: string -> string)
    ensures RedactMembers(Put(m, k, v), url) == Put(RedactMembers(m, url), k, RedactJson(v, k, url))
  {
    hide RedactJson, IsIndex, Value;
    if m.Member? { PutRedacts(m.rest, k, v, url); }
  }

  lemma {:induction false} PutAllRedacts(m: Members, entries: Members, url: string -> string)
    ensures RedactMembers(PutAll(m, entries), url) == PutAll(RedactMembers(m, url), RedactMembers(entries, url))
    decreases entries
  {
    hide RedactJson, Put;
    if entries.Member? {
      PutRedacts(m, entries.key, entries.value, url);
      PutAllRedacts(Put(m, entries.key, entries.value), entries.rest, url);
    }
  }

  /** Redacting a sorted tree is sorting the redacted one. */
  lemma {:induction false} RedactionCommutes(v: Json, key: string, url: string -> string)
    requires IsObject(v)
    ensures RedactJson(SortJson(v), key, url) == SortJson(RedactJson(v, key, url))
  {
    if !IsSecret(key) {
      match v
      case Arr(items) => ItemsCommute(items, url);
      case Obj(members) => ObjectCommutes(members, key, url);
      case _ =>
    }
  }

  lemma {:induction false} ObjectCommutes(m: Members, key: string, url: string -> string)
    requires Ordered(m) && HoldObjects(m) && !IsSecret(key)
    ensures RedactJson(SortJson(Obj(m)), key, url) == SortJson(RedactJson(Obj(m), key, url))
    decreases m, 1
  {
    hide IsIndex, Value, IsSecret, LexLess, Put, InsertByKey;
    var sorted := SortByKey(SortValues(m));
    RedactedMembers(m, url);
    SortMeaning(Obj(m));
    SortedIsOrdered(FromEntries(sorted));
    RedactedMembers(FromEntries(sorted), url);
    PutAllRedacts(NoMembers, sorted, url);
    SortByKeyRedacts(SortValues(m), url);
    MembersCommute(m, url);
  }

  lemma {:induction false} ItemsCommute(items: Items, url: string -> string)
    requires AreObjects(items)
    ensures RedactItems(SortItems(items), url) == SortItems(RedactItems(items, url))
  {
    if items.Item? { RedactionCommutes(items.head, "", url); ItemsCommute(items.rest, url); }
  }

  lemma {:induction false} MembersCommute(m: Members, url: string -> string)
    requires HoldObjects(m)
    ensures RedactMembers(SortValues(m), url) == SortValues(RedactMembers(m, url))
    decreases m, 0
  {
    if m.Member? { RedactionCommutes(m.value, m.key, url); MembersCommute(m.rest, url); }
  }

  // ---------------------------------------------------------------- non-interference

  /** Equal except beneath sensitive keys. */
  predicate Alike(a: Json, b: Json, key: string) {
    IsSecret(key)
    || (a.Arr? && b.Arr? && AlikeItems(a.items, b.items))
    || (a.Obj? && b.Obj? && AlikeMembers(a.members, b.members))
    || (!a.Arr? && !a.Obj? && a == b)
  }
  predicate AlikeItems(a: Items, b: Items) {
    (a.NoItems? && b.NoItems?) || (a.Item? && b.Item? && Alike(a.head, b.head, "") && AlikeItems(a.rest, b.rest))
  }
  predicate AlikeMembers(a: Members, b: Members) {
    (a.NoMembers? && b.NoMembers?)
    || (a.Member? && b.Member? && a.key == b.key && Alike(a.value, b.value, a.key) && AlikeMembers(a.rest, b.rest))
  }

  /** No string outside sensitive keys is an http(s) URL. */
  predicate UrlFree(v: Json, key: string) {
    IsSecret(key)
    || match v
       case Arr(items) => UrlFreeItems(items)
       case Obj(members) => UrlFreeMembers(members)
       case Str(s) => !IsHttp(s)
       case _ => true
  }
  predicate UrlFreeItems(items: Items) { items.Item? ==> UrlFree(items.head, "") && UrlFreeItems(items.rest) }
  predicate UrlFreeMembers(m: Members) { m.Member? ==> UrlFree(m.value, m.key) && UrlFreeMembers(m.rest) }

  /** Secrets never show: trees that are equal except beneath sensitive keys are
      redacted to the same tree, and, where no URL is rewritten, only those are. */
  lemma {:induction false} RedactionHidesSecrets(a: Json, b: Json, key: string, url: string -> string)
    requires IsObject(a) && IsObject(b)
    ensures Alike(a, b, key) ==> RedactJson(a, key, url) == RedactJson(b, key, url)
    ensures UrlFree(a, key) && UrlFree(b, key) && RedactJson(a, key, url) == RedactJson(b, key, url) ==>
      Alike(a, b, key)
  {
    if !IsSecret(key) {
      if a.Arr? && b.Arr? { ItemsHideSecrets(a.items, b.items, url); }
      if a.Obj? && b.Obj? {
        RedactedMembers(a.members, url);
        RedactedMembers(b.members, url);
        MembersHideSecrets(a.members, b.members, url);
      }
    }
  }
  lemma {:induction false} ItemsHideSecrets(a: Items, b: Items, url: string -> string)
    requires AreObjects(a) && AreObjects(b)
    ensures AlikeItems(a, b) ==> RedactItems(a, url) == RedactItems(b, url)
    ensures UrlFreeItems(a) && UrlFreeItems(b) && RedactItems(a, url) == RedactItems(b, url) ==> AlikeItems(a, b)
  {
    if a.Item? && b.Item? { RedactionHidesSecrets(a.head, b.head, "", url); ItemsHideSecrets(a.rest, b.rest, url); }
  }
  lemma {:induction false} MembersHideSecrets(a: Members, b: Members, url: string -> string)
    requires HoldObjects(a) && HoldObjects(b)
    ensures AlikeMembers(a, b) ==> RedactMembers(a, url) == RedactMembers(b, url)
    ensures UrlFreeMembers(a) && UrlFreeMembers(b) && RedactMembers(a, url) == RedactMembers(b, url) ==>
      AlikeMembers(a, b)
  {
    if a.Member? && b.Member? && a.key == b.key {
      RedactionHidesSecrets(a.value, b.value, a.key, url);
      MembersHideSecrets(a.rest, b.rest, url);
    }
  }

  /** The redacted canonical trees of two configs whose canonical trees differ only
      beneath sensitive keys are the same, whatever the key orders. */
  lemma CanonicalRedactionHidesSecrets(a: Json, b: Json, url: string -> string)
    requires IsObject(a) && IsObject(b) && Alike(SortJson(a), SortJson(b), "")
    ensures SortJson(RedactJson(a, "", url)) == SortJson(RedactJson(b, "", url))
  {
    RedactionCommutes(a, "", url);
    RedactionCommutes(b, "", url);
    SortMeaning(a);
    SortMeaning(b);
    CanonicalIsObject(SortJson(a));
    CanonicalIsObject(SortJson(b));
    RedactionHidesSecrets(SortJson(a), SortJson(b), "", url);
  }

  /** Redacting twice is redacting once; the result holds nothing beneath a sensitive key. */
  lemma {:induction false} RedactionIsIdempotent(v: Json, key: string, url: string -> string)
    requires IsObject(v) && UrlFree(v, key)
    ensures RedactJson(RedactJson(v, key, url), key, url) == RedactJson(v, key, url)
  {
    if !IsSecret(key) {
      match v
      case Arr(items) => ItemsIdempotent(items, url);
      case Obj(members) =>
        RedactedMembers(members, url);
        SameKeysOrdered(members, url);
        RedactedMembers(RedactMembers(members, url), url);
        MembersIdempotent(members, url);
      case _ =>
    }
  }
  lemma {:induction false} ItemsIdempotent(items: Items, url: string -> string)
    requires AreObjects(items) && UrlFreeItems(items)
    ensures RedactItems(RedactItems(items, url), url) == RedactItems(items, url)
  {
    if items.Item? { RedactionIsIdempotent(items.head, "", url); ItemsIdempotent(items.rest, url); }
  }
  lemma {:induction false} MembersIdempotent(m: Members, url: string -> string)
    requires HoldObjects(m) && UrlFreeMembers(m)
    ensures RedactMembers(RedactMembers(m, url), url) == RedactMembers(m, url)
  {
    if m.Member? { RedactionIsIdempotent(m.value, m.key, url); MembersIdempotent(m.rest, url); }
  }
}
