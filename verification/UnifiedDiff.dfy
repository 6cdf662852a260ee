/** Config diffs: `unifiedDiff` and `summarizeDiff` of
    apps/api/src/core/core-config-utils.ts. */
module UnifiedDiff {

  import opened Text

  // ---------------------------------------------------------------- text and lines

  predicate NoNewline(s: string) { '\n' !in s }

  ghost predicate AreLines(lines: seq<string>) { Whole(lines, '\n') }

  function WithoutTrailingEmpty(lines: seq<string>): seq<string> {
    if lines != [] && lines[|lines| - 1] == "" then lines[..|lines| - 1] else lines
  }

  function LinesOf(text: string): seq<string> { WithoutTrailingEmpty(Split(text, '\n')) }

  // ---------------------------------------------------------------- unifiedDiff

  /** What the loop adds for one index. */
  function Entry(current: seq<string>, desired: seq<string>, i: nat): seq<string> {
    if i < |current| && i < |desired| && current[i] == desired[i] then [" " + current[i]]
    else (if i < |current| then ["-" + current[i]] else []) + (if i < |desired| then ["+" + desired[i]] else [])
  }

  function Body(current: seq<string>, desired: seq<string>, n: nat): seq<string> {
    if n == 0 then [] else Body(current, desired, n - 1) + Entry(current, desired, n - 1)
  }

  function Max(a: nat, b: nat): nat { if a < b then b else a }
  function Min(a: nat, b: nat): nat { if a < b then a else b }

  function HunkHeader(removed: nat, added: nat): string {
    "@@ -1," + Decimal(removed) + " +1," + Decimal(added) + " @@"
  }

  function Diff(current: string, desired: string, currentName: string, desiredName: string): string {
    if current == desired then Join(["--- " + currentName, "+++ " + desiredName, ""], '\n')
    else
      var a, b := LinesOf(current), LinesOf(desired);
      Join(["--- " + currentName, "+++ " + desiredName, HunkHeader(|a|, |b|)] + Body(a, b, Max(|a|, |b|)) + [""], '\n')
  }

  lemma JoinNames(a: string, b: string)
    ensures Join([a, b, ""], '\n') == a + "\n" + b + "\n"
  {
    assert [a, b, ""][1..] == [b, ""] && [b, ""][1..] == [""];
    assert Join([b, ""], '\n') == b + "\n" + "";
  }

  method UnifiedDiff(current: string, desired: string, currentName: string, desiredName: string) returns (diff: string)
    ensures diff == Diff(current, desired, currentName, desiredName)
  {
    hide Join, Split, HunkHeader, Decimal;
    if current == desired {
      diff := "--- " + currentName + "\n" + "+++ " + desiredName + "\n";
      JoinNames("--- " + currentName, "+++ " + desiredName);
      return;
    }
    var currentLines := WithoutTrailingEmpty(Split(current, '\n'));
    var desiredLines := WithoutTrailingEmpty(Split(desired, '\n'));
    var count := Max(|currentLines|, |desiredLines|);
    var body: seq<string> := [];
    var index := 0;
    while index < count
      invariant 0 <= index <= count
      invariant body == Body(currentLines, desiredLines, index)
    {
      var before := index < |currentLines|;
      var after := index < |desiredLines|;
      if before && after && currentLines[index] == desiredLines[index] {
        body := body + [" " + currentLines[index]];
      } else {
        if before { body := body + ["-" + currentLines[index]]; }
        if after { body := body + ["+" + desiredLines[index]]; }
      }
      index := index + 1;
    }
    var header := HunkHeader(|currentLines|, |desiredLines|);
    diff := Join(["--- " + currentName, "+++ " + desiredName, header] + body + [""], '\n');
  }

  // ---------------------------------------------------------------- undoing a diff

  predicate Marked(line: string, mark: char) { line != "" && line[0] == mark }

  /** The unchanged lines and those with `mark`, without their first character. */
  function Kept(lines: seq<string>, mark: char): seq<string> {
    if lines == [] then []
    else
      var line := lines[|lines| - 1];
      Kept(lines[..|lines| - 1], mark) + if Marked(line, ' ') || Marked(line, mark) then [line[1..]] else []
  }

  lemma KeptMore(lines: seq<string>, line: string, mark: char)
    ensures Kept(lines + [line], mark) ==
      Kept(lines, mark) + if Marked(line, ' ') || Marked(line, mark) then [line[1..]] else []
  {
    assert (lines + [line])[..|lines|] == lines;
  }

  /** The first `n` lines, or all if there are fewer. */
  function Upto(side: seq<string>, n: nat): seq<string> { side[..Min(n, |side|)] }

  lemma Grow(side: seq<string>, n: nat)
    requires n > 0
    ensures Upto(side, n - 1) + (if n - 1 < |side| then [side[n - 1]] else []) == Upto(side, n)
  {
  }

  lemma NothingKept(current: seq<string>, desired: seq<string>, side: seq<string>, mark: char)
    ensures Kept(Body(current, desired, 0), mark) == Upto(side, 0)
  {
  }

  /** What an entry adds to one side: the three shapes of line it can have. */
  lemma EntryShape(current: seq<string>, desired: seq<string>, i: nat)
    ensures var entry := Entry(current, desired, i);
      if i < |current| && i < |desired| && current[i] == desired[i] then entry == [" " + current[i]]
      else if i < |current| && i < |desired| then entry == ["-" + current[i]] + ["+" + desired[i]]
      else if i < |current| then entry == ["-" + current[i]]
      else if i < |desired| then entry == ["+" + desired[i]]
      else entry == []
  {
  }

  /** A line written for one mark, read for another. */
  lemma KeptLine(lines: seq<string>, written: char, text: string, mark: char)
    ensures Kept(lines + [[written] + text], mark) ==
      Kept(lines, mark) + if written == ' ' || written == mark then [text] else []
  {
    hide Kept;
    KeptMore(lines, [written] + text, mark);
  }

  lemma OldKept(body: seq<string>, current: seq<string>, desired: seq<string>, i: nat)
    ensures Kept(body + Entry(current, desired, i), '-') == Kept(body, '-') + if i < |current| then [current[i]] else []
  {
    hide Kept, Entry;
    EntryShape(current, desired, i);
    if i < |current| && i < |desired| && current[i] == desired[i] {
      KeptLine(body, ' ', current[i], '-');
    } else if i < |current| {
      KeptLine(body, '-', current[i], '-');
      if i < |desired| {
        KeptLine(body + ["-" + current[i]], '+', desired[i], '-');
        assert body + (["-" + current[i]] + ["+" + desired[i]]) == body + ["-" + current[i]] + ["+" + desired[i]];
      }
    } else if i < |desired| {
      KeptLine(body, '+', desired[i], '-');
    } else {
      assert body + [] == body;
    }
  }

  lemma NewKept(body: seq<string>, current: seq<string>, desired: seq<string>, i: nat)
    ensures Kept(body + Entry(current, desired, i), '+') == Kept(body, '+') + if i < |desired| then [desired[i]] else []
  {
    hide Kept, Entry;
    EntryShape(current, desired, i);
    if i < |current| && i < |desired| && current[i] == desired[i] {
      KeptLine(body, ' ', current[i], '+');
    } else if i < |current| {
      KeptLine(body, '-', current[i], '+');
      if i < |desired| {
        KeptLine(body + ["-" + current[i]], '+', desired[i], '+');
        assert body + (["-" + current[i]] + ["+" + desired[i]]) == body + ["-" + current[i]] + ["+" + desired[i]];
      }
    } else if i < |desired| {
      KeptLine(body, '+', desired[i], '+');
    } else {
      assert body + [] == body;
    }
  }

  lemma BodyMore(current: seq<string>, desired: seq<string>, n: nat)
    requires n > 0
    ensures Body(current, desired, n) == Body(current, desired, n - 1) + Entry(current, desired, n - 1)
  {
  }

  /** The lines of the old text, read off the body. */
  lemma {:induction false} BodyKeepsOld(current: seq<string>, desired: seq<string>, n: nat)
    ensures Kept(Body(current, desired, n), '-') == Upto(current, n)
  {
    hide *;
    if n == 0 {
      NothingKept(current, desired, current, '-');
    } else {
      BodyMore(current, desired, n);
      BodyKeepsOld(current, desired, n - 1);
      OldKept(Body(current, desired, n - 1), current, desired, n - 1);
      Grow(current, n);
    }
  }

  /** The lines of the new text, read off the body. */
  lemma {:induction false} BodyKeepsNew(current: seq<string>, desired: seq<string>, n: nat)
    ensures Kept(Body(current, desired, n), '+') == Upto(desired, n)
  {
    hide *;
    if n == 0 {
      NothingKept(current, desired, desired, '+');
    } else {
      BodyMore(current, desired, n);
      BodyKeepsNew(current, desired, n - 1);
      NewKept(Body(current, desired, n - 1), current, desired, n - 1);
      Grow(desired, n);
    }
  }

  lemma {:induction false} BodyAreLines(current: seq<string>, desired: seq<string>, n: nat)
    requires AreLines(current) && AreLines(desired)
    ensures AreLines(Body(current, desired, n))
  {
    if n > 0 { BodyAreLines(current, desired, n - 1); }
  }

  lemma LinesAreLines(text: string)
    ensures AreLines(LinesOf(text))
  {
    JoinSplit(text, '\n');
  }

  lemma HeaderIsLine(a: nat, b: nat)
    ensures NoNewline(HunkHeader(a, b))
  {
  }

  /** The lines of a diff as they are read back from its text. */
  lemma DiffLines(current: string, desired: string, currentName: string, desiredName: string)
    requires NoNewline(currentName) && NoNewline(desiredName)
    ensures var a, b := LinesOf(current), LinesOf(desired);
      Split(Diff(current, desired, currentName, desiredName), '\n') ==
        ["--- " + currentName, "+++ " + desiredName]
        + (if current == desired then [] else [HunkHeader(|a|, |b|)] + Body(a, b, Max(|a|, |b|)))
        + [""]
  {
    var a, b := LinesOf(current), LinesOf(desired);
    hide Join, Split, Body, LinesOf, HunkHeader;
    var names := ["--- " + currentName, "+++ " + desiredName];
    if current == desired {
      SplitJoin(["--- " + currentName, "+++ " + desiredName, ""], '\n');
      assert names + [] + [""] == ["--- " + currentName, "+++ " + desiredName, ""];
    } else {
      LinesAreLines(current);
      LinesAreLines(desired);
      HeaderIsLine(|a|, |b|);
      var body := Body(a, b, Max(|a|, |b|));
      BodyAreLines(a, b, Max(|a|, |b|));
      var header := ["--- " + currentName, "+++ " + desiredName, HunkHeader(|a|, |b|)];
      assert AreLines(header) && AreLines([""]);
      SplitJoin(header + body + [""], '\n');
      assert names + ([HunkHeader(|a|, |b|)] + body) + [""] == header + body + [""];
    }
  }

  lemma HeaderIs(removed: nat, added: nat)
    ensures HunkHeader(removed, added) == "@@ -1," + Decimal(removed) + " +1," + Decimal(added) + " @@"
  {
  }

  /** A diff of two different texts can be undone and replayed: its ' ' and '-' lines are
      the old lines, its ' ' and '+' lines the new ones, and the header counts them. */
  lemma DiffCanBeUndone(current: string, desired: string, currentName: string, desiredName: string)
    requires NoNewline(currentName) && NoNewline(desiredName) && current != desired
    ensures var lines := Split(Diff(current, desired, currentName, desiredName), '\n');
      |lines| >= 4 && lines[|lines| - 1] == ""
      && lines[0] == "--- " + currentName && lines[1] == "+++ " + desiredName
      && lines[2] == "@@ -1," + Decimal(|LinesOf(current)|) + " +1," + Decimal(|LinesOf(desired)|) + " @@"
      && Kept(lines[3..|lines| - 1], '-') == LinesOf(current)
      && Kept(lines[3..|lines| - 1], '+') == LinesOf(desired)
  {
    HeaderIs(|LinesOf(current)|, |LinesOf(desired)|);
    hide Split, LinesOf, Diff, HunkHeader, Body, Kept, Upto;
    var a, b := LinesOf(current), LinesOf(desired);
    var n := Max(|a|, |b|);
    DiffLines(current, desired, currentName, desiredName);
    Sections("--- " + currentName, "+++ " + desiredName, HunkHeader(|a|, |b|), Body(a, b, n));
    BodyKeepsOld(a, b, n);
    BodyKeepsNew(a, b, n);
    UptoAll(a, n);
    UptoAll(b, n);
  }

  lemma UptoAll(side: seq<string>, n: nat)
    requires n >= |side|
    ensures Upto(side, n) == side
  {
  }

  lemma Sections(first: string, second: string, header: string, body: seq<string>)
    ensures var lines := [first, second] + ([header] + body) + [""];
      |lines| >= 4 && lines[0] == first && lines[1] == second && lines[|lines| - 1] == "" && lines[2] == header
      && lines[3..|lines| - 1] == body
  {
  }

  // ---------------------------------------------------------------- summarizeDiff

  datatype Summary = Summary(addedLines: nat, removedLines: nat, changed: bool)

  predicate Counts(line: string, mark: char) { StartsWith(line, [mark]) && !StartsWith(line, [mark, mark, mark]) }

  function CountMarked(lines: seq<string>, mark: char): nat {
    if lines == [] then 0
    else CountMarked(lines[..|lines| - 1], mark) + if Counts(lines[|lines| - 1], mark) then 1 else 0
  }

  function SummarizeDiff(diff: string): Summary {
    var all := Split(diff, '\n');
    var lines := if |all| < 2 then [] else all[2..];
    var added, removed := CountMarked(lines, '+'), CountMarked(lines, '-');
    Summary(added, removed, added > 0 || removed > 0)
  }

  /** The positions where the new text has a line the old one has not. */
  function Changed(from: seq<string>, to: seq<string>): set<nat> {
    set i: nat | i < |to| && !(i < |from| && from[i] == to[i])
  }

  /** ... without those `summarizeDiff` takes for a file header. */
  function Counted(from: seq<string>, to: seq<string>, prefix: string): set<nat> {
    set i: nat | i < |to| && !(i < |from| && from[i] == to[i]) && !StartsWith(to[i], prefix)
  }

  function CountedBelow(from: seq<string>, to: seq<string>, prefix: string, n: nat): set<nat> {
    set i: nat | i < |to| && i < n && !(i < |from| && from[i] == to[i]) && !StartsWith(to[i], prefix)
  }

  lemma CountMore(lines: seq<string>, line: string, mark: char)
    ensures CountMarked(lines + [line], mark) == CountMarked(lines, mark) + if Counts(line, mark) then 1 else 0
  {
    assert (lines + [line])[..|lines|] == lines;
  }

  lemma {:induction false} CountAppend(a: seq<string>, b: seq<string>, mark: char)
    ensures CountMarked(a + b, mark) == CountMarked(a, mark) + CountMarked(b, mark)
  {
    if b == [] {
      assert a + b == a;
    } else {
      assert (a + b)[..|a + b| - 1] == a + b[..|b| - 1];
      CountAppend(a, b[..|b| - 1], mark);
    }
  }

  lemma CountsSource(mark: char, other: char, source: string)
    requires mark != other
    ensures Counts([mark] + source, mark) <==> !StartsWith(source, [mark, mark])
    ensures !Counts([other] + source, mark)
  {
    var line := [mark] + source;
    assert line[..1] == [mark];
    assert ([other] + source)[..1] == [other];
    if |source| >= 2 { assert line[..3] == [mark] + source[..2] && line[..3][1..] == source[..2]; }
  }

  lemma EntryCount(current: seq<string>, desired: seq<string>, i: nat, mark: char)
    requires mark == '-' || mark == '+'
    ensures var from, to := if mark == '-' then desired else current, if mark == '-' then current else desired;
      CountMarked(Entry(current, desired, i), mark) ==
      if i < |to| && !(i < |from| && from[i] == to[i]) && !StartsWith(to[i], [mark, mark]) then 1 else 0
  {
    hide Counts, StartsWith, CountMarked, Entry;
    CountNone(mark);
    EntryShape(current, desired, i);
    if i < |current| && i < |desired| && current[i] == desired[i] {
      CountLine([], ' ', current[i], mark);
    } else if i < |current| {
      CountLine([], '-', current[i], mark);
      if i < |desired| { CountLine(["-" + current[i]], '+', desired[i], mark); }
    } else if i < |desired| {
      CountLine([], '+', desired[i], mark);
    }
  }

  /** A line written for one mark, counted for another. */
  lemma CountLine(lines: seq<string>, written: char, text: string, mark: char)
    ensures CountMarked(lines + [[written] + text], mark) ==
      CountMarked(lines, mark) + if written == mark && !StartsWith(text, [mark, mark]) then 1 else 0
    ensures lines == [] ==> lines + [[written] + text] == [[written] + text]
  {
    hide Counts, StartsWith, CountMarked;
    CountMore(lines, [written] + text, mark);
    CountsSource(mark, if written != mark then written else if mark == ' ' then '+' else ' ', text);
  }

  lemma CountNone(mark: char)
    ensures CountMarked([], mark) == 0
  {
  }

  lemma {:induction false} BodyCount(current: seq<string>, desired: seq<string>, n: nat, mark: char)
    requires mark == '-' || mark == '+'
    ensures var from, to := if mark == '-' then desired else current, if mark == '-' then current else desired;
      CountMarked(Body(current, desired, n), mark) == |CountedBelow(from, to, [mark, mark], n)|
  {
    hide StartsWith, CountMarked, Entry;
    var from, to := if mark == '-' then desired else current, if mark == '-' then current else desired;
    var below := CountedBelow(from, to, [mark, mark], n);
    if n == 0 {
      CountNone(mark);
      assert below == {};
    } else {
      var i := n - 1;
      BodyCount(current, desired, i, mark);
      CountAppend(Body(current, desired, i), Entry(current, desired, i), mark);
      EntryCount(current, desired, i, mark);
      var counts := i < |to| && !(i < |from| && from[i] == to[i]) && !StartsWith(to[i], [mark, mark]);
      assert below == CountedBelow(from, to, [mark, mark], i) + if counts then {i} else {};
    }
  }

  lemma HeaderIsNotCounted(a: nat, b: nat)
    ensures CountMarked([HunkHeader(a, b)], '+') == 0 && CountMarked([HunkHeader(a, b)], '-') == 0
    ensures CountMarked([""], '+') == 0 && CountMarked([""], '-') == 0
  {
    var h := HunkHeader(a, b);
    assert h[..1] == "@" && h[0] == '@';
    CountMore([], h, '+');
    CountMore([], h, '-');
    assert [] + [h] == [h];
  }

  lemma SubsetSize(a: set<nat>, b: set<nat>)
    requires a <= b
    ensures |a| <= |b| && (|a| == |b| <==> a == b)
  {
    assert b == a + (b - a);
  }

  /** What `summarizeDiff` reports of a diff: the changed lines, except the added ones
      that begin with "++" and the removed ones that begin with "--". */
  lemma SummaryOfDiff(current: string, desired: string, currentName: string, desiredName: string)
    requires NoNewline(currentName) && NoNewline(desiredName)
    ensures var a, b := LinesOf(current), LinesOf(desired);
      var s := SummarizeDiff(Diff(current, desired, currentName, desiredName));
      s.addedLines == |Counted(a, b, "++")| && s.removedLines == |Counted(b, a, "--")|
      && (s.changed <==> Counted(a, b, "++") + Counted(b, a, "--") != {})
  {
    hide Split, LinesOf, Diff, HunkHeader, CountMarked, StartsWith, Body;
    var a, b := LinesOf(current), LinesOf(desired);
    var n := Max(|a|, |b|);
    DiffLines(current, desired, currentName, desiredName);
    var all := Split(Diff(current, desired, currentName, desiredName), '\n');
    HeaderIsNotCounted(|a|, |b|);
    if current == desired {
      assert all[2..] == [""];
      assert Counted(a, b, "++") == {} && Counted(b, a, "--") == {};
    } else {
      var header, body := [HunkHeader(|a|, |b|)], Body(a, b, n);
      assert all[2..] == header + body + [""];
      forall mark | mark == '+' || mark == '-' ensures CountMarked(all[2..], mark) == CountMarked(body, mark) {
        CountAppend(header + body, [""], mark);
        CountAppend(header, body, mark);
      }
      BodyCount(a, b, n, '+');
      BodyCount(a, b, n, '-');
      assert CountedBelow(a, b, ['+', '+'], n) == Counted(a, b, "++");
      assert CountedBelow(b, a, ['-', '-'], n) == Counted(b, a, "--");
    }
  }

  /** The added count is exact if and only if no added line begins with "++"; likewise "--". */
  lemma SummaryIsExact(current: string, desired: string, currentName: string, desiredName: string)
    requires NoNewline(currentName) && NoNewline(desiredName)
    ensures var a, b := LinesOf(current), LinesOf(desired);
      var s := SummarizeDiff(Diff(current, desired, currentName, desiredName));
      (s.addedLines == |Changed(a, b)| <==> forall i :: i in Changed(a, b) ==> !StartsWith(b[i], "++"))
      && (s.removedLines == |Changed(b, a)| <==> forall i :: i in Changed(b, a) ==> !StartsWith(a[i], "--"))
  {
    hide Diff, SummarizeDiff, LinesOf, StartsWith;
    var a, b := LinesOf(current), LinesOf(desired);
    SummaryOfDiff(current, desired, currentName, desiredName);
    SubsetSize(Counted(a, b, "++"), Changed(a, b));
    SubsetSize(Counted(b, a, "--"), Changed(b, a));
  }

  // ---------------------------------------------------------------- texts with the same lines

  /** One text is the other with a final newline added. */
  predicate OnlyFinalNewline(a: string, b: string) { a != "" && a[|a| - 1] != '\n' && b == a + "\n" }

  lemma {:induction false} LastLine(text: string)
    ensures Split(text, '\n')[|Split(text, '\n')| - 1] == "" <==> text == "" || text[|text| - 1] == '\n'
  {
    if text != "" {
      var rest := Split(text[1..], '\n');
      LastLine(text[1..]);
      assert |rest| > 1 ==> Split(text, '\n')[|Split(text, '\n')| - 1] == rest[|rest| - 1];
      if |text| > 1 {
        assert text[1..][|text| - 2] == text[|text| - 1];
        if |rest| == 1 { JoinSplit(text[1..], '\n'); assert text[1..] == rest[0]; }
      }
    }
  }

  lemma TextOfLines(text: string)
    ensures LinesOf(text) == [] <==> text == ""
    ensures text != "" ==> text == Join(LinesOf(text), '\n') + if text[|text| - 1] == '\n' then "\n" else ""
    ensures text != "" && text[|text| - 1] != '\n' ==> LinesOf(text + "\n") == LinesOf(text)
  {
    JoinSplit(text, '\n');
    LastLine(text);
    SplitEnd(text, '\n');
    if text != "" && text[|text| - 1] == '\n' {
      var short := text[..|text| - 1];
      assert text == short + "\n";
      SplitEnd(short, '\n');
      JoinSplit(short, '\n');
      assert LinesOf(text) == Split(short, '\n');
    }
    if text != "" && text[|text| - 1] != '\n' {
      assert (text + "\n")[|text|] == '\n';
      LastLine(text + "\n");
    }
  }

  /** Two texts have the same lines exactly if they are equal or differ only in a final newline. */
  lemma SameLines(a: string, b: string)
    ensures LinesOf(a) == LinesOf(b) <==> a == b || OnlyFinalNewline(a, b) || OnlyFinalNewline(b, a)
  {
    hide LinesOf, Join, Split;
    TextOfLines(a);
    TextOfLines(b);
    if a != "" && b != "" && LinesOf(a) == LinesOf(b) {
      var text := Join(LinesOf(a), '\n');
      assert a == text + if a[|a| - 1] == '\n' then "\n" else "";
      assert b == text + if b[|b| - 1] == '\n' then "\n" else "";
      assert text + "" == text;
    }
  }

  lemma NothingChanged(a: seq<string>, b: seq<string>)
    ensures Changed(a, b) + Changed(b, a) == {} <==> a == b
  {
    if Changed(a, b) + Changed(b, a) == {} {
      assert |a| < |b| ==> |a| in Changed(a, b);
      assert |b| < |a| ==> |b| in Changed(b, a);
      forall i | 0 <= i < |a| ensures a[i] == b[i] { assert i !in Changed(b, a); }
    }
  }

  /** No changed line looks like a file header. */
  ghost predicate PlainChanges(a: seq<string>, b: seq<string>) {
    (forall i :: i in Changed(a, b) ==> !StartsWith(b[i], "++"))
      && (forall i :: i in Changed(b, a) ==> !StartsWith(a[i], "--"))
  }

  /** `changed` is false exactly if every added line begins with "++" and every removed one
      with "--"; where no changed line begins so, exactly if the texts are equal or differ
      only in a final newline. */
  lemma ChangedMeansDifferent(current: string, desired: string, currentName: string, desiredName: string)
    requires NoNewline(currentName) && NoNewline(desiredName)
    ensures var a, b := LinesOf(current), LinesOf(desired);
      var s := SummarizeDiff(Diff(current, desired, currentName, desiredName));
      (!s.changed <==>
        (forall i :: i in Changed(a, b) ==> StartsWith(b[i], "++"))
        && (forall i :: i in Changed(b, a) ==> StartsWith(a[i], "--")))
      && (PlainChanges(a, b) ==>
        (!s.changed <==>
          current == desired || OnlyFinalNewline(current, desired) || OnlyFinalNewline(desired, current)))
  {
    hide Diff, SummarizeDiff, LinesOf, StartsWith;
    var a, b := LinesOf(current), LinesOf(desired);
    SummaryOfDiff(current, desired, currentName, desiredName);
    forall i ensures i in Counted(a, b, "++") <==> i in Changed(a, b) && !StartsWith(b[i], "++") {}
    forall i ensures i in Counted(b, a, "--") <==> i in Changed(b, a) && !StartsWith(a[i], "--") {}
    NothingChanged(a, b);
    SameLines(current, desired);
  }

  /** A text that gains a final newline is reported as unchanged. */
  lemma FinalNewlineGoesUnseen()
    ensures "a" != "a\n" && !SummarizeDiff(Diff("a", "a\n", "current", "desired")).changed
  {
    hide Diff, SummarizeDiff;
    assert OnlyFinalNewline("a", "a\n");
    SplitFirst("a", "", '\n');
    assert "a" + "\n" + "" == "a\n";
    assert LinesOf("a") == ["a"] && LinesOf("a\n") == ["a"];
    ChangedMeansDifferent("a", "a\n", "current", "desired");
  }
}
