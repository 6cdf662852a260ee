/** A reader of JSON texts by the grammar of RFC 8259, and the proof that it reads what
    `canonicalizeJson` of apps/api/src/core/core-config-utils.ts writes. A number is read as the
    run of its characters. */
module JsonRead {
  import opened Options
  import opened Text
  import opened CanonicalJson
  import opened JsonText

  /** What was read and the text after it. */
  datatype Parsed<+T> = Bad | Good(value: T, rest: string)

  // ---------------------------------------------------------------- white space, section 2

  predicate IsSpace(c: char) { c as int == 0x20 || c as int == 0x09 || c as int == 0x0A || c as int == 0x0D }

  function Skip(t: string): (r: string)
    ensures |r| <= |t|
    ensures r != "" ==> !IsSpace(r[0])
  {
    if t != "" && IsSpace(t[0]) then Skip(t[1..]) else t
  }

  predicate Blank(t: string) { forall i :: 0 <= i < |t| ==> IsSpace(t[i]) }

  lemma {:induction false} SkipBlank(blank: string, t: string)
    requires Blank(blank) && (t != "" ==> !IsSpace(t[0]))
    ensures Skip(blank + t) == t
  {
    if blank == "" {
      assert blank + t == t;
    } else {
      assert (blank + t)[0] == blank[0] && (blank + t)[1..] == blank[1..] + t;
      SkipBlank(blank[1..], t);
    }
  }

  // ---------------------------------------------------------------- strings, section 7

  /** What a hexadecimal digit of either case stands for. */
  function HexValue(c: char): Option<nat> {
    var n := c as int;
    if 0x30 <= n <= 0x39 then Some(n - 0x30)
    else if 0x41 <= n <= 0x46 then Some(n - 0x41 + 10)
    else if 0x61 <= n <= 0x66 then Some(n - 0x61 + 10)
    else None
  }

  /** The character of an escape of one letter. */
  function Escaped(c: char): Option<char> {
    match c as int
    case 0x22 => Some(0x22 as char)
    case 0x5C => Some(0x5C as char)
    case 0x2F => Some(0x2F as char)
    case 0x62 => Some(0x08 as char)
    case 0x66 => Some(0x0C as char)
    case 0x6E => Some(0x0A as char)
    case 0x72 => Some(0x0D as char)
    case 0x74 => Some(0x09 as char)
    case _ => None
  }

  /** `\uXXXX`, after the `u`; surrogates, which are no characters here, are not read. */
  function ReadHex4(t: string): (r: Parsed<char>)
    ensures r.Good? ==> |r.rest| < |t|
  {
    if |t| < 4 then Bad
    else
      var a, b, c, d := HexValue(t[0]), HexValue(t[1]), HexValue(t[2]), HexValue(t[3]);
      if a.None? || b.None? || c.None? || d.None? then Bad
      else
        var n := 0x1000 * a.value + 0x100 * b.value + 0x10 * c.value + d.value;
        if n < 0xD800 then Good(n as char, t[4..]) else Bad
  }

  /** One character of a string. */
  function ReadChar(t: string): (r: Parsed<char>)
    ensures r.Good? ==> |r.rest| < |t|
  {
    if t == "" || t[0] as int < 0x20 || t[0] as int == 0x22 then Bad
    else if t[0] as int != 0x5C then Good(t[0], t[1..])
    else if |t| == 1 then Bad
    else if t[1] as int == 0x75 then ReadHex4(t[2..])
    else if Escaped(t[1]).None? then Bad
    else Good(Escaped(t[1]).value, t[2..])
  }

  /** The characters up to the closing quotation mark. */
  function ReadChars(t: string): (r: Parsed<string>)
    ensures r.Good? ==> |r.rest| < |t|
    decreases |t|
  {
    if t != "" && t[0] as int == 0x22 then Good("", t[1..])
    else
      var first := ReadChar(t);
      if first.Bad? then Bad
      else
        var more := ReadChars(first.rest);
        if more.Bad? then Bad else Good([first.value] + more.value, more.rest)
  }

  function ReadString(t: string): (r: Parsed<string>)
    ensures r.Good? ==> |r.rest| < |t|
  {
    if t == "" || t[0] as int != 0x22 then Bad else ReadChars(t[1..])
  }

  // ---------------------------------------------------------------- values, sections 3 to 6

  /** The number characters at the front. */
  function Run(t: string): (r: string)
    ensures |r| <= |t| && t[..|r|] == r
  {
    if t != "" && NumberChar(t[0]) then [t[0]] + Run(t[1..]) else ""
  }

  predicate Begins(t: string, c: char) { t != "" && t[0] == c }

  function ReadValue(t: string): (r: Parsed<Json>)
    ensures r.Good? ==> |r.rest| < |t|
    decreases |t|, 2
  {
    if StartsWith(t, "null") then Good(Null, t[4..])
    else if StartsWith(t, "true") then Good(Bool(true), t[4..])
    else if StartsWith(t, "false") then Good(Bool(false), t[5..])
    else if Begins(t, '\"') then
      var text := ReadString(t);
      if text.Bad? then Bad else Good(Str(text.value), text.rest)
    else if Begins(t, '[') then
      var inner := Skip(t[1..]);
      if Begins(inner, ']') then Good(Arr(NoItems), inner[1..])
      else
        var items := ReadItems(inner);
        if items.Bad? then Bad else Good(Arr(items.value), items.rest)
    else if Begins(t, '{') then
      var inner := Skip(t[1..]);
      if Begins(inner, '}') then Good(Obj(NoMembers), inner[1..])
      else
        var members := ReadMembers(inner);
        if members.Bad? then Bad else Good(Obj(members.value), members.rest)
    else if Run(t) != "" then Good(Num(Run(t)), t[|Run(t)|..])
    else Bad
  }

  /** Values with commas between them, up to the closing bracket. */
  function ReadItems(t: string): (r: Parsed<Items>)
    ensures r.Good? ==> |r.rest| < |t|
    decreases |t|, 3
  {
    var head := ReadValue(t);
    if head.Bad? then Bad
    else
      var next := Skip(head.rest);
      if Begins(next, ']') then Good(Item(head.value, NoItems), next[1..])
      else if Begins(next, ',') then
        var more := ReadItems(Skip(next[1..]));
        if more.Bad? then Bad else Good(Item(head.value, more.value), more.rest)
      else Bad
  }

  /** Names and values with colons and commas between them, up to the closing brace. */
  function ReadMembers(t: string): (r: Parsed<Members>)
    ensures r.Good? ==> |r.rest| < |t|
    decreases |t|, 3
  {
    var name := ReadString(t);
    if name.Bad? || !Begins(Skip(name.rest), ':') then Bad
    else
      var value := ReadValue(Skip(Skip(name.rest)[1..]));
      if value.Bad? then Bad
      else
        var next := Skip(value.rest);
        if Begins(next, '}') then Good(Member(name.value, value.value, NoMembers), next[1..])
        else if Begins(next, ',') then
          var more := ReadMembers(Skip(next[1..]));
          if more.Bad? then Bad else Good(Member(name.value, value.value, more.value), more.rest)
        else Bad
  }

  /** A JSON text: one value with white space around it. */
  function ReadText(t: string): Option<Json> {
    var v := ReadValue(Skip(t));
    if v.Good? && Skip(v.rest) == "" then Some(v.value) else None
  }

  // ---------------------------------------------------------------- what was quoted is read

  lemma HexDigitIsRead(d: nat)
    requires d < 16
    ensures HexValue(HexDigit(d)) == Some(d)
  {
  }

  lemma ControlIsRead(c: char, x: string)
    requires c as int < 0x20
    ensures ReadHex4("00" + [HexDigit(c as int / 16), HexDigit(c as int % 16)] + x) == Good(c, x)
  {
    HexDigitIsRead(0);
    HexDigitIsRead(c as int / 16);
    HexDigitIsRead(c as int % 16);
    hide HexDigit;
    var t := "00" + [HexDigit(c as int / 16), HexDigit(c as int % 16)] + x;
    assert t[0] == '0' && t[1] == '0' && t[2] == HexDigit(c as int / 16) && t[3] == HexDigit(c as int % 16);
    assert t[4..] == x;
  }

  lemma CharIsRead(c: char, x: string)
    ensures ReadChar(QuoteChar(c) + x) == Good(c, x)
    ensures (QuoteChar(c) + x)[0] as int != 0x22
  {
    var q := QuoteChar(c);
    if |q| == 1 {
      assert (q + x)[1..] == x;
    } else if |q| == 2 {
      assert (q + x)[2..] == x && (q + x)[1] == q[1];
    } else {
      ControlIsRead(c, x);
      assert (q + x)[2..] == "00" + [HexDigit(c as int / 16), HexDigit(c as int % 16)] + x;
      hide ReadHex4;
    }
  }

  lemma {:induction false} CharsAreRead(s: string, x: string)
    ensures ReadChars(QuoteChars(s) + "\"" + x) == Good(s, x)
  {
    if s == "" {
      assert QuoteChars(s) + "\"" + x == "\"" + x && ("\"" + x)[1..] == x;
    } else {
      var after := QuoteChars(s[1..]) + "\"" + x;
      CharsAreRead(s[1..], x);
      CharIsRead(s[0], after);
      hide QuoteChar, ReadChar;
      assert QuoteChars(s) + "\"" + x == QuoteChar(s[0]) + after;
      assert s == [s[0]] + s[1..];
    }
  }

  lemma StringIsRead(s: string, x: string)
    ensures ReadString(Quote(s) + x) == Good(s, x) && Begins(Quote(s) + x, '\"')
  {
    CharsAreRead(s, x);
    hide QuoteChars, ReadChars;
    assert Quote(s) + x == "\"" + (QuoteChars(s) + "\"" + x);
    assert (Quote(s) + x)[1..] == QuoteChars(s) + "\"" + x;
  }

  lemma {:induction false} NumberIsRead(s: string, x: string)
    requires (forall i :: 0 <= i < |s| ==> NumberChar(s[i])) && Follows(x)
    ensures Run(s + x) == s
  {
    if s == "" {
      assert s + x == x;
    } else {
      assert (s + x)[1..] == s[1..] + x;
      NumberIsRead(s[1..], x);
    }
  }

  // ---------------------------------------------------------------- what was printed is read

  /** The first character of a printed value decides how it is read. */
  lemma {:induction false} ValueIsRead(v: Json, indent: string, x: string)
    requires Printable(v) && Follows(x) && Blank(indent)
    ensures ReadValue(Print(v, indent) + x) == Good(v, x)
    decreases v, 1
  {
    var t := Print(v, indent) + x;
    match v
    case Null =>
      assert t[..4] == "null" && t[4..] == x;
    case Bool(flag) =>
      OtherStart(t);
      if flag { assert t[..4] == "true" && t[4..] == x; } else { assert t[..5] == "false" && t[5..] == x; }
    case Num(digits) => NumIsRead(digits, x);
    case Str(s) => StrIsRead(s, x);
    case Arr(items) => ArrIsRead(items, indent, x);
    case Obj(members) => ObjIsRead(members, indent, x);
  }

  lemma OtherStart(t: string)
    requires t != ""
    ensures t[0] != 'n' ==> !StartsWith(t, "null")
    ensures t[0] != 't' ==> !StartsWith(t, "true")
    ensures t[0] != 'f' ==> !StartsWith(t, "false")
  {
    assert |t| >= 4 ==> t[..4][0] == t[0];
    assert |t| >= 5 ==> t[..5][0] == t[0];
  }

  lemma NumIsRead(digits: string, x: string)
    requires NumberText(digits) && Follows(x)
    ensures ReadValue(digits + x) == Good(Num(digits), x)
  {
    var t := digits + x;
    assert t[0] == digits[0];
    OtherStart(t);
    NumberIsRead(digits, x);
    hide Run;
    assert t[|digits|..] == x;
  }

  lemma StrIsRead(s: string, x: string)
    ensures ReadValue(Quote(s) + x) == Good(Str(s), x)
  {
    StringIsRead(s, x);
    hide Quote, ReadString;
    OtherStart(Quote(s) + x);
  }

  lemma ArrIsReadWhole(t: string)
    requires Begins(t, '[')
    ensures ReadValue(t) ==
      var inner := Skip(t[1..]);
      if Begins(inner, ']') then Good(Arr(NoItems), inner[1..])
      else var items := ReadItems(inner); if items.Bad? then Bad else Good(Arr(items.value), items.rest)
  {
    OtherStart(t);
    hide ReadItems, ReadMembers, ReadString, Run, Skip;
  }

  lemma ObjIsReadWhole(t: string)
    requires Begins(t, '{')
    ensures ReadValue(t) ==
      var inner := Skip(t[1..]);
      if Begins(inner, '}') then Good(Obj(NoMembers), inner[1..])
      else var members := ReadMembers(inner); if members.Bad? then Bad else Good(Obj(members.value), members.rest)
  {
    OtherStart(t);
    hide ReadItems, ReadMembers, ReadString, Run, Skip;
  }

  /** A printed value begins with neither white space nor a closing bracket. */
  lemma PrintStarts(v: Json, indent: string, x: string)
    requires Printable(v)
    ensures var t := Print(v, indent) + x;
      t != "" && !IsSpace(t[0]) && t[0] != ']' && t[0] != '}'
  {
    PrintFirst(v, indent, x);
    hide Print;
    assert v.Num? ==> NumberChar(v.digits[0]);
  }

  lemma {:induction false} ArrIsRead(items: Items, indent: string, x: string)
    requires PrintableItems(items) && Blank(indent)
    ensures ReadValue(Print(Arr(items), indent) + x) == Good(Arr(items), x)
    decreases items, 1
  {
    hide *;
    ArrText(items, x, indent);
    var t := Print(Arr(items), indent) + x;
    if items.NoItems? {
      EmptyArrIsRead(x);
    } else {
      var deeper, close := indent + "  ", "\n" + indent + "]";
      var inner := PrintItems(items, deeper) + (close + x);
      DeeperIsBlank(indent);
      ItemsAreRead(items, deeper, indent, x);
      ItemsStart(items, deeper, close + x);
      SkipBlank("\n" + deeper, inner);
      assert t == "[" + (("\n" + deeper) + inner);
      OpenBracket(t, ("\n" + deeper) + inner);
      ArrIsReadWhole(t);
      NotClosed(inner);
    }
  }

  lemma EmptyArrIsRead(x: string)
    ensures ReadValue("[]" + x) == Good(Arr(NoItems), x)
  {
    var t := "[]" + x;
    assert t[1..] == "]" + x && ("]" + x)[1..] == x;
    ArrIsReadWhole(t);
    hide ReadValue, ReadItems;
  }

  lemma DeeperIsBlank(indent: string)
    requires Blank(indent)
    ensures Blank(indent + "  ") && Blank("\n" + indent) && Blank("\n" + (indent + "  "))
  {
  }

  lemma OpenBracket(t: string, rest: string)
    requires t == "[" + rest || t == "{" + rest
    ensures t[1..] == rest && (t == "[" + rest ==> Begins(t, '[')) && (t == "{" + rest ==> Begins(t, '{'))
  {
    assert |"["| == |"{"| == 1;
  }

  lemma NotClosed(t: string)
    requires t != "" && t[0] != ']' && t[0] != '}'
    ensures !Begins(t, ']') && !Begins(t, '}')
  {
  }

  lemma ItemsStart(items: Items, indent: string, x: string)
    requires items.Item? && PrintableItems(items)
    ensures var t := PrintItems(items, indent) + x;
      t != "" && !IsSpace(t[0]) && t[0] != ']' && t[0] != '}'
  {
    PrintStarts(items.head, indent, "");
    hide Print, Printable;
    assert Print(items.head, indent) + "" == Print(items.head, indent);
  }

  /** The text after an item. */
  function AfterItem(rest: Items, deeper: string, close: string): string {
    if rest.NoItems? then close else ("," + ("\n" + deeper)) + (PrintItems(rest, deeper) + close)
  }

  lemma ItemsText(items: Items, deeper: string, close: string)
    requires items.Item?
    ensures PrintItems(items, deeper) + close == Print(items.head, deeper) + AfterItem(items.rest, deeper, close)
  {
    hide Print;
    assert ",\n" + deeper == "," + ("\n" + deeper);
    if items.rest.Item? {
      var more := PrintItems(items.rest, deeper);
      assert PrintItems(items, deeper) == Print(items.head, deeper) + (",\n" + deeper + more);
      assert ",\n" + deeper + more + close == (",\n" + deeper) + (more + close);
    }
  }

  lemma CloseIsRead(indent: string, bracket: char, x: string)
    requires Blank(indent) && !IsSpace(bracket)
    ensures var close := ("\n" + indent + [bracket]) + x;
      Skip(close) == [bracket] + x && ([bracket] + x)[1..] == x && Begins([bracket] + x, bracket)
      && Follows(close)
  {
    var close := ("\n" + indent + [bracket]) + x;
    assert close == ("\n" + indent) + ([bracket] + x);
    SkipBlank("\n" + indent, [bracket] + x);
    hide Skip;
    assert close[0] == '\n';
  }

  lemma CommaIsRead(deeper: string, more: string)
    requires Blank(deeper) && more != "" && !IsSpace(more[0])
    ensures var p := ("," + ("\n" + deeper)) + more;
      Skip(p) == p && Begins(p, ',') && Skip(p[1..]) == more && Follows(p)
  {
    var p := ("," + ("\n" + deeper)) + more;
    assert p[0] == ',' && p[1..] == ("\n" + deeper) + more;
    SkipBlank("\n" + deeper, more);
    SkipBlank("", p);
    hide Skip;
    assert "" + p == p;
  }

  lemma {:induction false} ItemsAreRead(items: Items, deeper: string, indent: string, x: string)
    requires items.Item? && PrintableItems(items) && Blank(deeper) && Blank(indent)
    ensures ReadItems(PrintItems(items, deeper) + (("\n" + indent + "]") + x)) == Good(items, x)
    decreases items, 0
  {
    var close := ("\n" + indent + "]") + x;
    var p := AfterItem(items.rest, deeper, close);
    ItemsText(items, deeper, close);
    CloseIsRead(indent, ']', x);
    assert Printable(items.head) && PrintableItems(items.rest);
    if items.rest.Item? {
      ItemsStart(items.rest, deeper, close);
      CommaIsRead(deeper, PrintItems(items.rest, deeper) + close);
      ItemsAreRead(items.rest, deeper, indent, x);
    }
    hide Print, PrintItems, Printable, Skip, ReadValue, Blank, Follows;
    ValueIsRead(items.head, deeper, p);
  }

  lemma {:induction false} ObjIsRead(members: Members, indent: string, x: string)
    requires PrintableMembers(members) && Blank(indent)
    ensures ReadValue(Print(Obj(members), indent) + x) == Good(Obj(members), x)
    decreases members, 1
  {
    hide *;
    ObjText(members, x, indent);
    var t := Print(Obj(members), indent) + x;
    if members.NoMembers? {
      EmptyObjIsRead(x);
    } else {
      var deeper, close := indent + "  ", "\n" + indent + "}";
      var inner := PrintMembers(members, deeper) + (close + x);
      DeeperIsBlank(indent);
      MembersAreRead(members, deeper, indent, x);
      MembersStart(members, deeper, close + x);
      SkipBlank("\n" + deeper, inner);
      assert t == "{" + (("\n" + deeper) + inner);
      OpenBracket(t, ("\n" + deeper) + inner);
      ObjIsReadWhole(t);
      NotClosed(inner);
    }
  }

  lemma EmptyObjIsRead(x: string)
    ensures ReadValue("{}" + x) == Good(Obj(NoMembers), x)
  {
    var t := "{}" + x;
    assert t[1..] == "}" + x && ("}" + x)[1..] == x;
    ObjIsReadWhole(t);
    hide ReadValue, ReadMembers;
  }

  lemma MembersStart(m: Members, indent: string, x: string)
    requires m.Member?
    ensures var t := PrintMembers(m, indent) + x;
      t != "" && !IsSpace(t[0]) && t[0] != ']' && t[0] != '}'
  {
    hide Print, QuoteChars;
    assert (PrintMembers(m, indent) + x)[0] == '\"';
  }

  function AfterMember(rest: Members, deeper: string, close: string): string {
    if rest.NoMembers? then close else ("," + ("\n" + deeper)) + (PrintMembers(rest, deeper) + close)
  }

  lemma MemberText(m: Members, deeper: string, close: string)
    requires m.Member?
    ensures PrintMembers(m, deeper) + close
         == Quote(m.key) + (":" + (" " + (Print(m.value, deeper) + AfterMember(m.rest, deeper, close))))
  {
    hide Print, Quote;
    var p := AfterMember(m.rest, deeper, close);
    var more := if m.rest.NoMembers? then "" else ",\n" + deeper + PrintMembers(m.rest, deeper);
    assert PrintMembers(m, deeper) == Quote(m.key) + ": " + Print(m.value, deeper) + more;
    assert more + close == p by {
      if m.rest.Member? {
        assert ",\n" + deeper == "," + ("\n" + deeper);
        assert more + close == (",\n" + deeper) + (PrintMembers(m.rest, deeper) + close);
      }
    }
    assert ": " == ":" + " ";
    hide PrintMembers, AfterMember;
    assert Quote(m.key) + ": " + Print(m.value, deeper) + more + close
        == Quote(m.key) + (": " + (Print(m.value, deeper) + (more + close)));
    assert ": " + (Print(m.value, deeper) + p) == ":" + (" " + (Print(m.value, deeper) + p));
  }

  lemma ColonIsRead(value: string)
    requires value != "" && !IsSpace(value[0])
    ensures var t := ":" + (" " + value); Skip(t) == t && Begins(t, ':') && Skip(t[1..]) == value
  {
    var t := ":" + (" " + value);
    assert t[1..] == " " + value;
    SkipBlank(" ", value);
    SkipBlank("", t);
    hide Skip;
    assert "" + t == t;
  }

  lemma {:induction false} MembersAreRead(m: Members, deeper: string, indent: string, x: string)
    requires m.Member? && PrintableMembers(m) && Blank(deeper) && Blank(indent)
    ensures ReadMembers(PrintMembers(m, deeper) + (("\n" + indent + "}") + x)) == Good(m, x)
    decreases m, 0
  {
    var close := ("\n" + indent + "}") + x;
    var p := AfterMember(m.rest, deeper, close);
    MemberText(m, deeper, close);
    CloseIsRead(indent, '}', x);
    assert Printable(m.value) && PrintableMembers(m.rest);
    if m.rest.Member? {
      MembersStart(m.rest, deeper, close);
      CommaIsRead(deeper, PrintMembers(m.rest, deeper) + close);
      MembersAreRead(m.rest, deeper, indent, x);
    }
    PrintStarts(m.value, deeper, p);
    hide Print, PrintMembers, Printable, Skip, ReadValue, ReadString, Blank, Follows, Quote;
    StringIsRead(m.key, ":" + (" " + (Print(m.value, deeper) + p)));
    ColonIsRead(Print(m.value, deeper) + p);
    ValueIsRead(m.value, deeper, p);
  }

  /** `canonicalizeJson` writes a JSON text that is read back as the sorted tree, and so as a
      value of the same meaning. */
  lemma CanonicalTextIsRead(v: Json)
    requires IsObject(v) && Printable(v)
    ensures ReadText(CanonicalizeJson(v)) == Some(SortJson(v)) && Meaning(SortJson(v)) == Meaning(v)
  {
    SortPrintable(v);
    SortMeaning(v);
    ValueIsRead(SortJson(v), "", "\n");
    PrintStarts(SortJson(v), "", "\n");
    var t := CanonicalizeJson(v);
    SkipBlank("", t);
    SkipBlank("\n", "");
    hide Print, ReadValue, SortJson, Skip, Meaning;
    assert "" + t == t && "\n" + "" == "\n";
  }
}
