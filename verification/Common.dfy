/** An optional value. */
module Options {
  datatype Option<+T> = None | Some(value: T)
}

/** `array.map(f)`. */
module Lists {
  function Map<T, U>(s: seq<T>, f: T -> U): (r: seq<U>)
    ensures |r| == |s| && forall i :: 0 <= i < |s| ==> r[i] == f(s[i])
  {
    seq(|s|, i requires 0 <= i < |s| => f(s[i]))
  }
}

/** The proxy engines (`CoreEngine` in apps/api/prisma/schema.prisma). */
module Engines {
  datatype Engine = SING_BOX | XRAY | MTPROXY | AMNEZIAWG
}

/** Strings as the programs' standard libraries treat them. */
module Text {
  /** Order by character code, as JavaScript's `<` and `sort` have it. */
  predicate LexLess(a: string, b: string) {
    b != "" && (a == "" || a[0] < b[0] || (a[0] == b[0] && LexLess(a[1..], b[1..])))
  }

  /** Equal before `k`, where `a` ends first or has the smaller character. */
  predicate FirstDiffersAt(a: string, b: string, k: nat) {
    k <= |a| && k < |b| && a[..k] == b[..k] && (k == |a| || a[k] < b[k])
  }

  lemma SameBefore(a: string, b: string, k: nat)
    requires FirstDiffersAt(a, b, k)
    ensures k == 0 || (a != "" && a[0] == b[0])
  {
    if k > 0 { assert a[0] == a[..k][0] == b[..k][0] == b[0]; }
  }

  lemma {:induction false} LexLessMeans(a: string, b: string)
    ensures LexLess(a, b) <==> exists k: nat :: FirstDiffersAt(a, b, k)
  {
    if a == "" || b == "" || a[0] != b[0] {
      if LexLess(a, b) { assert FirstDiffersAt(a, b, 0); }
      if k: nat :| FirstDiffersAt(a, b, k) { SameBefore(a, b, k); }
    } else {
      var a', b' := a[1..], b[1..];
      LexLessMeans(a', b');
      if LexLess(a, b) {
        var k: nat :| FirstDiffersAt(a', b', k);
        assert a[..k + 1] == [a[0]] + a'[..k] && b[..k + 1] == [b[0]] + b'[..k];
        assert FirstDiffersAt(a, b, k + 1);
      }
      if k: nat :| FirstDiffersAt(a, b, k) {
        assert k > 0;
        assert a'[..k - 1] == a[..k][1..] && b'[..k - 1] == b[..k][1..];
        assert FirstDiffersAt(a', b', k - 1);
      }
    }
  }

  lemma {:induction false} LexTotal(a: string, b: string)
    ensures LexLess(a, b) || LexLess(b, a) || a == b
    ensures !(LexLess(a, b) && LexLess(b, a)) && !LexLess(a, a)
  {
    if a != "" {
      LexTotal(a[1..], if b == "" then "" else b[1..]);
      assert b != "" && a[0] == b[0] && a[1..] == b[1..] ==> a == [a[0]] + a[1..] && b == [b[0]] + b[1..];
    }
  }

  lemma {:induction false} LexTransitive(a: string, b: string, c: string)
    requires LexLess(a, b) && LexLess(b, c)
    ensures LexLess(a, c)
  {
    if a != "" && a[0] == b[0] && b[0] == c[0] { LexTransitive(a[1..], b[1..], c[1..]); }
  }

  // ---------------------------------------------------------------- parts

  /** `text.split(separator)` for one character. */
  function Split(text: string, separator: char): (parts: seq<string>)
    ensures parts != []
  {
    if text == "" then [""]
    else
      var rest := Split(text[1..], separator);
      if text[0] == separator then [""] + rest else [[text[0]] + rest[0]] + rest[1..]
  }

  /** `parts.join(separator)` */
  function Join(parts: seq<string>, separator: char): string {
    if parts == [] then ""
    else if |parts| == 1 then parts[0]
    else parts[0] + [separator] + Join(parts[1..], separator)
  }

  ghost predicate Whole(parts: seq<string>, separator: char) {
    forall i :: 0 <= i < |parts| ==> separator !in parts[i]
  }

  lemma {:induction false} SplitFirst(part: string, rest: string, separator: char)
    requires separator !in part
    ensures Split(part, separator) == [part]
    ensures Split(part + [separator] + rest, separator) == [part] + Split(rest, separator)
  {
    var text := part + [separator] + rest;
    if part == "" {
      assert text[1..] == rest;
    } else {
      SplitFirst(part[1..], rest, separator);
      assert text[0] == part[0] && text[1..] == part[1..] + [separator] + rest && part[0] in part;
      assert part == [part[0]] + part[1..];
    }
  }

  lemma {:induction false} SplitJoin(parts: seq<string>, separator: char)
    requires parts != [] && Whole(parts, separator)
    ensures Split(Join(parts, separator), separator) == parts
  {
    assert separator !in parts[0];
    if |parts| == 1 {
      SplitFirst(parts[0], "", separator);
    } else {
      SplitFirst(parts[0], Join(parts[1..], separator), separator);
      SplitJoin(parts[1..], separator);
    }
  }

  lemma {:induction false} JoinSplit(text: string, separator: char)
    ensures Join(Split(text, separator), separator) == text && Whole(Split(text, separator), separator)
  {
    if text != "" {
      JoinSplit(text[1..], separator);
      var rest := Split(text[1..], separator);
      var c := text[0];
      var parts := if c == separator then [""] + rest else [[c] + rest[0]] + rest[1..];
      assert Split(text, separator) == parts;
      hide Split;
      assert separator !in rest[0];
      assert parts[1..] == if c == separator then rest else rest[1..];
      assert text == [c] + text[1..];
      if c != separator && |rest| > 1 {
        assert Join(parts, separator) == ([c] + rest[0]) + [separator] + Join(rest[1..], separator);
        assert text[1..] == rest[0] + [separator] + Join(rest[1..], separator);
      }
    }
  }

  lemma {:induction false} SplitEnd(text: string, separator: char)
    ensures Split(text + [separator], separator) == Split(text, separator) + [""]
  {
    if text != "" {
      assert (text + [separator])[1..] == text[1..] + [separator];
      SplitEnd(text[1..], separator);
    } else {
      assert "" + [separator] == [separator] && [separator][1..] == "";
    }
  }

  predicate StartsWith(s: string, prefix: string) { |s| >= |prefix| && s[..|prefix|] == prefix }

  predicate EndsWith(s: string, suffix: string) { |s| >= |suffix| && s[|s| - |suffix|..] == suffix }

  // ---------------------------------------------------------------- numbers

  predicate Digits(s: string) { forall i :: 0 <= i < |s| ==> '0' <= s[i] <= '9' }

  /** The number a text of decimal digits stands for. */
  function Value(s: string): nat
    requires Digits(s)
  {
    if s == "" then 0 else 10 * Value(s[..|s| - 1]) + (s[|s| - 1] as int - '0' as int)
  }

  function Decimal(n: nat): (s: string)
    ensures s != "" && Digits(s)
  {
    var last := [('0' as int + n % 10) as char];
    if n < 10 then last else Decimal(n / 10) + last
  }

  lemma {:induction false} PrintedIsRead(n: nat)
    ensures Value(Decimal(n)) == n
  {
    if n >= 10 {
      PrintedIsRead(n / 10);
      assert Decimal(n)[..|Decimal(n)| - 1] == Decimal(n / 10);
    } else {
      assert Decimal(n)[..0] == "";
    }
  }

  /** `/^[a-f0-9]{64}$/` */
  predicate IsSha256Hex(s: string) {
    |s| == 64 && forall i :: 0 <= i < 64 ==> 'a' <= s[i] <= 'f' || '0' <= s[i] <= '9'
  }

  function HexDigit(d: nat): char
    requires d < 16
  {
    "0123456789abcdef"[d]
  }
}

/** `array.sort(comparator)`. */
module Sorting {
  ghost predicate Asymmetric<T(!new)>(s: seq<T>, less: (T, T) -> bool) {
    forall x, y :: x in s && y in s && less(x, y) ==> !less(y, x)
  }
  ghost predicate Connected<T(!new)>(s: seq<T>, less: (T, T) -> bool) {
    forall x, y :: x in s && y in s && x != y ==> less(x, y) || less(y, x)
  }
  ghost predicate Transitive<T(!new)>(s: seq<T>, less: (T, T) -> bool) {
    forall x, y, z :: x in s && y in s && z in s && less(x, y) && less(y, z) ==> less(x, z)
  }

  /** The comparator tells any two different elements apart. */
  ghost predicate Orders<T(!new)>(s: seq<T>, less: (T, T) -> bool) {
    Asymmetric(s, less) && Connected(s, less) && Transitive(s, less)
  }

  predicate NoRepeats<T(==)>(s: seq<T>) { forall i, j :: 0 <= i < j < |s| ==> s[i] != s[j] }

  ghost predicate Sorted<T>(s: seq<T>, less: (T, T) -> bool) { forall i, j :: 0 <= i < j < |s| ==> less(s[i], s[j]) }

  function Insert<T(!new)>(s: seq<T>, c: T, less: (T, T) -> bool): (r: seq<T>)
    ensures |r| == |s| + 1 && multiset(r) == multiset(s) + multiset{c}
    ensures forall x :: x in r <==> x in s || x == c
  {
    if s == [] || !less(s[0], c) then
      assert multiset([c] + s) == multiset{c} + multiset(s);
      [c] + s
    else
      assert s == [s[0]] + s[1..];
      [s[0]] + Insert(s[1..], c, less)
  }

  function SortBy<T(!new)>(s: seq<T>, less: (T, T) -> bool): (r: seq<T>)
    ensures |r| == |s| && multiset(r) == multiset(s)
    ensures forall x :: x in r <==> x in s
  {
    if s == [] then []
    else
      assert s == [s[0]] + s[1..];
      Insert(SortBy(s[1..], less), s[0], less)
  }

  lemma {:induction false} InsertSorted<T(!new)>(s: seq<T>, c: T, less: (T, T) -> bool)
    requires Sorted(s, less) && Orders(s + [c], less) && c !in s
    ensures Sorted(Insert(s, c, less), less)
  {
    if s != [] {
      var all := s + [c];
      assert c in all && forall x :: x in s ==> x in all;
      assert s[0] in s;
      if !less(s[0], c) {
        forall i | 0 <= i < |s| ensures less(c, s[i]) {
          assert s[i] in s;
          assert i > 0 ==> less(s[0], s[i]);
        }
      } else {
        assert s == [s[0]] + s[1..];
        assert Orders(s[1..] + [c], less) by { assert forall x :: x in s[1..] + [c] ==> x in all; }
        InsertSorted(s[1..], c, less);
        var rest := Insert(s[1..], c, less);
        forall i | 0 <= i < |rest| ensures less(s[0], rest[i]) {
          if rest[i] in s[1..] {
            var j :| 0 <= j < |s[1..]| && s[1..][j] == rest[i];
            assert rest[i] == s[j + 1];
          } else {
            assert rest[i] in rest;
          }
        }
      }
    }
  }

  lemma {:induction false} SortBySorts<T(!new)>(s: seq<T>, less: (T, T) -> bool)
    requires NoRepeats(s) && Orders(s, less)
    ensures Sorted(SortBy(s, less), less)
  {
    if s != [] {
      assert s == [s[0]] + s[1..];
      assert forall x :: x in s[1..] ==> x in s;
      SortBySorts(s[1..], less);
      var rest := SortBy(s[1..], less);
      assert s[0] !in s[1..];
      assert Orders(rest + [s[0]], less) by { assert forall x :: x in rest + [s[0]] ==> x in s; }
      InsertSorted(rest, s[0], less);
    }
  }

  lemma HeadOnce<T>(s: seq<T>, x: T, less: (T, T) -> bool)
    requires s != [] && Sorted(s, less) && !less(s[0], s[0])
    ensures x in s[1..] <==> x in s && x != s[0]
  {
    assert s == [s[0]] + s[1..];
    if x in s[1..] {
      var i :| 0 <= i < |s[1..]| && s[1..][i] == x;
      assert s[i + 1] == x;
    }
  }

  /** Two sorted lists of the same elements are one list. */
  lemma {:induction false} SortedIsUnique<T(!new)>(a: seq<T>, b: seq<T>, less: (T, T) -> bool)
    requires Sorted(a, less) && Sorted(b, less) && Asymmetric(a, less) && forall x :: x in a <==> x in b
    ensures a == b
  {
    assert a != [] ==> a[0] in b;
    assert b != [] ==> b[0] in a;
    if a != [] {
      var i :| 0 <= i < |b| && b[i] == a[0];
      var j :| 0 <= j < |a| && a[j] == b[0];
      assert a[0] in a && b[0] in a;
      assert a[0] == b[0];
      forall x ensures x in a[1..] <==> x in b[1..] {
        HeadOnce(a, x, less);
        HeadOnce(b, x, less);
      }
      assert forall x :: x in a[1..] ==> x in a;
      SortedIsUnique(a[1..], b[1..], less);
      assert a == [a[0]] + a[1..] && b == [b[0]] + b[1..];
    }
  }

  /** Sorting forgets the order: only the elements matter. */
  lemma SortForgetsOrder<T(!new)>(a: seq<T>, b: seq<T>, less: (T, T) -> bool)
    requires NoRepeats(a) && NoRepeats(b) && Orders(a, less) && forall x :: x in a <==> x in b
    ensures SortBy(a, less) == SortBy(b, less)
  {
    SortBySorts(a, less);
    SortBySorts(b, less);
    SortedIsUnique(SortBy(a, less), SortBy(b, less), less);
  }
}
