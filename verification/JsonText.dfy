/** The text of a config: `JSON.stringify(value, null, 2)` as `canonicalizeJson` of
    apps/api/src/core/core-config-utils.ts calls it (section 25.5.2 of ECMA-262). No two
    trees have one text, so equal canonical texts mean equal configs. */
module JsonText {
  import opened Text
  import opened CanonicalJson

  function QuoteChar(c: char): string {
    if c == '\U{0008}' then "\\b"
    else if c == '\t' then "\\t"
    else if c == '\n' then "\\n"
    else if c == '\U{000C}' then "\\f"
    else if c == '\r' then "\\r"
    else if c == '\"' then "\\\""
    else if c == '\\' then "\\\\"
    else if c as int < 0x20 then "\\u00" + [HexDigit(c as int / 16), HexDigit(c as int % 16)]
    else [c]
  }

  function QuoteChars(s: string): string {
    if s == "" then "" else QuoteChar(s[0]) + QuoteChars(s[1..])
  }

  function Quote(s: string): string { "\"" + QuoteChars(s) + "\"" }

  function Print(v: Json, indent: string): string {
    match v
    case Null => "null"
    case Bool(b) => if b then "true" else "false"
    case Num(digits) => digits
    case Str(s) => Quote(s)
    case Arr(items) =>
      if items.NoItems? then "[]"
      else "[\n" + (indent + "  ") + PrintItems(items, indent + "  ") + "\n" + indent + "]"
    case Obj(members) =>
      if members.NoMembers? then "{}"
      else "{\n" + (indent + "  ") + PrintMembers(members, indent + "  ") + "\n" + indent + "}"
  }

  function PrintItems(items: Items, indent: string): string
    requires items.Item?
  {
    Print(items.head, indent) + if items.rest.NoItems? then "" else ",\n" + indent + PrintItems(items.rest, indent)
  }

  function PrintMembers(m: Members, indent: string): string
    requires m.Member?
  {
    Quote(m.key) + ": " + Print(m.value, indent)
    + if m.rest.NoMembers? then "" else ",\n" + indent + PrintMembers(m.rest, indent)
  }

  /** `canonicalizeJson`. */
  function CanonicalizeJson(v: Json): string { Print(SortJson(v), "") + "\n" }

  // ---------------------------------------------------------------- nothing is lost

  predicate NumberChar(c: char) { '0' <= c <= '9' || c == '-' || c == '+' || c == '.' || c == 'e' }

  predicate NumberText(s: string) { s != "" && forall i :: 0 <= i < |s| ==> NumberChar(s[i]) }

  /** Every number is a number's text. */
  predicate Printable(v: Json) {
    match v
    case Num(digits) => NumberText(digits)
    case Arr(items) => PrintableItems(items)
    case Obj(members) => PrintableMembers(members)
    case _ => true
  }
  predicate PrintableItems(items: Items) { items.Item? ==> Printable(items.head) && PrintableItems(items.rest) }
  predicate PrintableMembers(m: Members) { m.Member? ==> Printable(m.value) && PrintableMembers(m.rest) }

  lemma Cut(a: string, x: string, y: string)
    requires a + x == a + y
    ensures x == y
  {
    assert x == (a + x)[|a|..] && y == (a + y)[|a|..];
  }

  lemma Regroup(a: string, b: string, c: string)
    ensures (a + b) + c == a + (b + c)
  {
  }

  lemma QuoteCharStart(c: char, x: string)
    ensures var q := QuoteChar(c) + x;
      q[0] != '\"' && q[0] == QuoteChar(c)[0]
      && |QuoteChar(c)| == if q[0] != '\\' then 1 else if q[1] != 'u' then 2 else 6
  {
  }

  lemma HexDigitTells(d: nat, e: nat)
    requires d < 16 && e < 16 && HexDigit(d) == HexDigit(e)
    ensures d == e
  {
  }

  lemma QuoteCharTells(c: char, d: char)
    requires QuoteChar(c) == QuoteChar(d)
    ensures c == d
  {
    hide HexDigit;
    if |QuoteChar(c)| == 6 {
      assert QuoteChar(c)[4] == QuoteChar(d)[4] && QuoteChar(c)[5] == QuoteChar(d)[5];
      HexDigitTells(c as int / 16, d as int / 16);
      HexDigitTells(c as int % 16, d as int % 16);
    } else if |QuoteChar(c)| == 2 {
      assert QuoteChar(c)[1] == QuoteChar(d)[1];
    } else {
      assert QuoteChar(c)[0] == QuoteChar(d)[0];
    }
  }

  lemma QuoteCharPrefix(c: char, x: string, d: char, y: string)
    requires QuoteChar(c) + x == QuoteChar(d) + y
    ensures c == d && x == y
  {
    hide QuoteChar;
    QuoteCharStart(c, x);
    QuoteCharStart(d, y);
    var q := QuoteChar(c) + x;
    assert QuoteChar(c) == q[..|QuoteChar(c)|] && QuoteChar(d) == q[..|QuoteChar(d)|];
    QuoteCharTells(c, d);
    Cut(QuoteChar(c), x, y);
  }

  lemma {:induction false} QuoteCharsPrefix(s: string, x: string, t: string, y: string)
    requires QuoteChars(s) + "\"" + x == QuoteChars(t) + "\"" + y
    ensures s == t && x == y
  {
    var q := "\"" + x;
    var r := "\"" + y;
    Regroup(QuoteChars(s), "\"", x);
    Regroup(QuoteChars(t), "\"", y);
    if s != "" && t != "" {
      Regroup(QuoteChar(s[0]), QuoteChars(s[1..]), q);
      Regroup(QuoteChar(t[0]), QuoteChars(t[1..]), r);
      QuoteCharPrefix(s[0], QuoteChars(s[1..]) + q, t[0], QuoteChars(t[1..]) + r);
      Regroup(QuoteChars(s[1..]), "\"", x);
      Regroup(QuoteChars(t[1..]), "\"", y);
      QuoteCharsPrefix(s[1..], x, t[1..], y);
      assert s == [s[0]] + s[1..] && t == [t[0]] + t[1..];
    } else if s != "" {
      Regroup(QuoteChar(s[0]), QuoteChars(s[1..]), q);
      QuoteCharStart(s[0], QuoteChars(s[1..]) + q);
      assert false;
    } else if t != "" {
      Regroup(QuoteChar(t[0]), QuoteChars(t[1..]), r);
      QuoteCharStart(t[0], QuoteChars(t[1..]) + r);
      assert false;
    } else {
      assert QuoteChars(s) + q == q && QuoteChars(t) + r == r;
      Cut("\"", x, y);
    }
  }

  lemma QuoteText(s: string, x: string)
    ensures Quote(s) + x == "\"" + (QuoteChars(s) + "\"" + x)
  {
    hide QuoteChars;
    Regroup("\"", QuoteChars(s), "\"");
    Regroup("\"", QuoteChars(s) + "\"", x);
  }

  lemma QuotePrefix(s: string, x: string, t: string, y: string)
    requires Quote(s) + x == Quote(t) + y
    ensures s == t && x == y
  {
    hide QuoteChars;
    QuoteText(s, x);
    QuoteText(t, y);
    Cut("\"", QuoteChars(s) + "\"" + x, QuoteChars(t) + "\"" + y);
    QuoteCharsPrefix(s, x, t, y);
  }

  /** What follows a value: nothing that could lengthen a number. */
  predicate Follows(x: string) { x == "" || !NumberChar(x[0]) }

  lemma NotLonger(a: string, x: string, b: string, y: string)
    requires NumberText(b) && Follows(x) && a + x == b + y
    ensures |b| <= |a|
  {
    var q := a + x;
    assert |a| < |q| ==> q[|a|] == x[0];
    assert forall i :: 0 <= i < |b| ==> q[i] == b[i];
  }

  lemma NumberPrefix(a: string, x: string, b: string, y: string)
    requires NumberText(a) && NumberText(b) && Follows(x) && Follows(y) && a + x == b + y
    ensures a == b && x == y
  {
    var q := a + x;
    NotLonger(a, x, b, y);
    NotLonger(b, y, a, x);
    assert a == q[..|a|] && b == q[..|a|];
    Cut(a, x, y);
  }

  function First(v: Json): char {
    match v
    case Null => 'n'
    case Bool(b) => if b then 't' else 'f'
    case Num(digits) => if digits == "" then ' ' else digits[0]
    case Str(_) => '\"'
    case Arr(_) => '['
    case Obj(_) => '{'
  }

  lemma PrintFirst(v: Json, indent: string, x: string)
    requires Printable(v)
    ensures Print(v, indent) != "" && (Print(v, indent) + x)[0] == Print(v, indent)[0] == First(v)
  {
  }

  lemma FirstTells(a: Json, b: Json)
    requires Printable(a) && Printable(b) && First(a) == First(b)
    ensures a.Null? == b.Null? && a.Bool? == b.Bool? && a.Num? == b.Num? && a.Str? == b.Str? && a.Arr? == b.Arr?
      && a.Obj? == b.Obj?
    ensures a.Bool? ==> a == b
  {
    assert a.Num? ==> NumberChar(a.digits[0]);
    assert b.Num? ==> NumberChar(b.digits[0]);
  }

  /** Printing is a prefix code: the text read so far tells the tree. */
  lemma {:induction false} PrintPrefix(a: Json, x: string, b: Json, y: string, indent: string)
    requires Printable(a) && Printable(b) && Follows(x) && Follows(y)
    requires Print(a, indent) + x == Print(b, indent) + y
    ensures a == b && x == y
    decreases a, 1
  {
    PrintFirst(a, indent, x);
    PrintFirst(b, indent, y);
    FirstTells(a, b);
    match a
    case Num(digits) => NumberPrefix(digits, x, b.digits, y);
    case Str(s) => QuotePrefix(s, x, b.text, y);
    case Arr(items) => ArrPrefix(items, x, b.items, y, indent);
    case Obj(members) => ObjPrefix(members, x, b.members, y, indent);
    case _ => Cut(Print(a, indent), x, y);
  }

  lemma {:induction false} ArrPrefix(a: Items, x: string, b: Items, y: string, indent: string)
    requires PrintableItems(a) && PrintableItems(b)
    requires Print(Arr(a), indent) + x == Print(Arr(b), indent) + y
    ensures a == b && x == y
    decreases a, 1
  {
    hide *;
    var deeper, close := indent + "  ", "\n" + indent + "]";
    ArrText(a, x, indent);
    ArrText(b, y, indent);
    assert a.Item? == b.Item?;
    if a.Item? && b.Item? {
      Cut("[\n" + deeper, PrintItems(a, deeper) + (close + x), PrintItems(b, deeper) + (close + y));
      ItemsPrefix(a, close + x, b, close + y, deeper);
      Cut(close, x, y);
    } else {
      Cut("[]", x, y);
    }
  }

  lemma ArrText(a: Items, x: string, indent: string)
    ensures |Print(Arr(a), indent) + x| > 1 && (Print(Arr(a), indent) + x)[1] == if a.Item? then '\n' else ']'
    ensures a.NoItems? ==> Print(Arr(a), indent) + x == "[]" + x
    ensures a.Item? ==>
      Print(Arr(a), indent) + x ==
        "[\n" + (indent + "  ") + (PrintItems(a, indent + "  ") + (("\n" + indent + "]") + x))
  {
    hide PrintItems;
  }

  lemma {:induction false} ItemsPrefix(a: Items, x: string, b: Items, y: string, indent: string)
    requires a.Item? && b.Item? && PrintableItems(a) && PrintableItems(b)
    requires x != "" && y != "" && x[0] == '\n' && y[0] == '\n'
    requires PrintItems(a, indent) + x == PrintItems(b, indent) + y
    ensures a == b && x == y
    decreases a, 0
  {
    var comma := ",\n" + indent;
    var p := if a.rest.NoItems? then x else comma + (PrintItems(a.rest, indent) + x);
    var q := if b.rest.NoItems? then y else comma + (PrintItems(b.rest, indent) + y);
    assert PrintItems(a, indent) + x == Print(a.head, indent) + p;
    assert PrintItems(b, indent) + y == Print(b.head, indent) + q;
    PrintPrefix(a.head, p, b.head, q, indent);
    if a.rest.Item? && b.rest.Item? {
      Cut(comma, PrintItems(a.rest, indent) + x, PrintItems(b.rest, indent) + y);
      ItemsPrefix(a.rest, x, b.rest, y, indent);
    } else {
      assert p[0] == q[0];
    }
  }

  lemma {:induction false} ObjPrefix(a: Members, x: string, b: Members, y: string, indent: string)
    requires PrintableMembers(a) && PrintableMembers(b)
    requires Print(Obj(a), indent) + x == Print(Obj(b), indent) + y
    ensures a == b && x == y
    decreases a, 1
  {
    hide *;
    var deeper, close := indent + "  ", "\n" + indent + "}";
    ObjText(a, x, indent);
    ObjText(b, y, indent);
    assert a.Member? == b.Member?;
    if a.Member? && b.Member? {
      Cut("{\n" + deeper, PrintMembers(a, deeper) + (close + x), PrintMembers(b, deeper) + (close + y));
      MembersPrefix(a, close + x, b, close + y, deeper);
      Cut(close, x, y);
    } else {
      Cut("{}", x, y);
    }
  }

  lemma ObjText(a: Members, x: string, indent: string)
    ensures |Print(Obj(a), indent) + x| > 1 && (Print(Obj(a), indent) + x)[1] == if a.Member? then '\n' else '}'
    ensures a.NoMembers? ==> Print(Obj(a), indent) + x == "{}" + x
    ensures a.Member? ==>
      Print(Obj(a), indent) + x ==
        "{\n" + (indent + "  ") + (PrintMembers(a, indent + "  ") + (("\n" + indent + "}") + x))
  {
    hide PrintMembers;
  }

  lemma {:induction false} MembersPrefix(a: Members, x: string, b: Members, y: string, indent: string)
    requires a.Member? && b.Member? && PrintableMembers(a) && PrintableMembers(b)
    requires x != "" && y != "" && x[0] == '\n' && y[0] == '\n'
    requires PrintMembers(a, indent) + x == PrintMembers(b, indent) + y
    ensures a == b && x == y
    decreases a, 0
  {
    var comma := ",\n" + indent;
    var p := if a.rest.NoMembers? then x else comma + (PrintMembers(a.rest, indent) + x);
    var q := if b.rest.NoMembers? then y else comma + (PrintMembers(b.rest, indent) + y);
    MembersText(a, x, p, indent);
    MembersText(b, y, q, indent);
    QuotePrefix(a.key, ": " + (Print(a.value, indent) + p), b.key, ": " + (Print(b.value, indent) + q));
    Cut(": ", Print(a.value, indent) + p, Print(b.value, indent) + q);
    PrintPrefix(a.value, p, b.value, q, indent);
    if a.rest.Member? && b.rest.Member? {
      Cut(comma, PrintMembers(a.rest, indent) + x, PrintMembers(b.rest, indent) + y);
      MembersPrefix(a.rest, x, b.rest, y, indent);
    } else {
      assert p[0] == q[0];
    }
  }

  lemma MembersText(m: Members, x: string, p: string, indent: string)
    requires m.Member?
    requires p == if m.rest.NoMembers? then x else (",\n" + indent) + (PrintMembers(m.rest, indent) + x)
    ensures PrintMembers(m, indent) + x == Quote(m.key) + (": " + (Print(m.value, indent) + p))
  {
    hide Quote, Print;
  }

  // ---------------------------------------------------------------- sorting keeps numbers

  lemma {:induction false} SortPrintable(v: Json)
    requires Printable(v)
    ensures Printable(SortJson(v))
  {
    match v
    case Arr(items) => SortItemsPrintable(items);
    case Obj(members) =>
      SortMembersPrintable(members);
      SortByKeyPrintable(SortValues(members));
      PutAllPrintable(NoMembers, SortByKey(SortValues(members)));
    case _ =>
  }
  lemma {:induction false} SortItemsPrintable(items: Items)
    requires PrintableItems(items)
    ensures PrintableItems(SortItems(items))
  {
    if items.Item? { SortPrintable(items.head); SortItemsPrintable(items.rest); }
  }
  lemma {:induction false} SortMembersPrintable(m: Members)
    requires PrintableMembers(m)
    ensures PrintableMembers(SortValues(m))
  {
    if m.Member? { SortPrintable(m.value); SortMembersPrintable(m.rest); }
  }
  lemma {:induction false} SortByKeyPrintable(m: Members)
    requires PrintableMembers(m)
    ensures PrintableMembers(SortByKey(m))
  {
    if m.Member? { SortByKeyPrintable(m.rest); InsertPrintable(SortByKey(m.rest), m.key, m.value); }
  }
  lemma {:induction false} InsertPrintable(m: Members, k: string, v: Json)
    requires PrintableMembers(m) && Printable(v)
    ensures PrintableMembers(InsertByKey(m, k, v))
  {
    if m.Member? { InsertPrintable(m.rest, k, v); }
  }
  lemma {:induction false} PutPrintable(m: Members, k: string, v: Json)
    requires PrintableMembers(m) && Printable(v)
    ensures PrintableMembers(Put(m, k, v))
  {
    if m.Member? { PutPrintable(m.rest, k, v); }
  }
  lemma {:induction false} PutAllPrintable(m: Members, entries: Members)
    requires PrintableMembers(m) && PrintableMembers(entries)
    ensures PrintableMembers(PutAll(m, entries))
    decreases entries
  {
    if entries.Member? {
      PutPrintable(m, entries.key, entries.value);
      PutAllPrintable(Put(m, entries.key, entries.value), entries.rest);
    }
  }

  /** Two configs have one canonical text exactly when they are equal up to key order. */
  lemma CanonicalTextDecidesEquality(a: Json, b: Json)
    requires IsObject(a) && IsObject(b) && Printable(a) && Printable(b)
    ensures CanonicalizeJson(a) == CanonicalizeJson(b) <==> Meaning(a) == Meaning(b)
  {
    SortDecidesEquality(a, b);
    if CanonicalizeJson(a) == CanonicalizeJson(b) {
      SortPrintable(a);
      SortPrintable(b);
      PrintPrefix(SortJson(a), "\n", SortJson(b), "\n", "");
    }
  }
}
