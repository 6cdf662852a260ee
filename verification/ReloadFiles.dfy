/** The texts of the reload request and acknowledgement files: written and read by
    `requestSharedVolumeReload` and `parseKeyValueFile` of
    apps/api/src/core/core-adapters.ts and by `parse_request` and `write_ack` of
    deploy/mtproxy/supervisor.py; deploy/amneziawg/supervisor.py reads requests its own way. */
module ReloadFiles {
  import opened Options
  import opened Text
  import opened Lists

  /** A line `key=value`. */
  function Pair(key: string, value: string): string { key + "=" + value }

  /** The position of the first '=', or the length. */
  function Equals(line: string): (i: nat)
    ensures i <= |line| && (i < |line| ==> line[i] == '=') && forall k :: 0 <= k < i ==> line[k] != '='
  {
    if line == "" || line[0] == '=' then 0 else 1 + Equals(line[1..])
  }

  lemma {:induction false} EqualsAt(key: string, value: string)
    requires '=' !in key
    ensures Equals(Pair(key, value)) == |key|
  {
    var line := Pair(key, value);
    if key != "" {
      assert line[0] == key[0] && key[0] in key && line[1..] == Pair(key[1..], value);
      EqualsAt(key[1..], value);
    }
  }

  // ---------------------------------------------------------------- the request, read in Python

  /** What `splitlines` breaks at. */
  predicate Break(c: char) {
    c == '\n' || c == '\r' || c == '\U{0B}' || c == '\U{0C}' || c == '\U{1C}' || c == '\U{1D}' || c == '\U{1E}'
    || c == '\U{85}' || c == '\U{2028}' || c == '\U{2029}'
  }

  predicate Space(c: char) { Break(c) || c == ' ' || c == '\t' || c == '\U{1F}' || c == '\U{A0}' }

  /** Empty lines, which hold no '=', may come on top. */
  function PythonLines(text: string): seq<string> {
    Split(seq(|text|, i requires 0 <= i < |text| => if Break(text[i]) then '\n' else text[i]), '\n')
  }

  function StripLeft(s: string): string { if s != "" && Space(s[0]) then StripLeft(s[1..]) else s }
  function StripRight(s: string): string { if s != "" && Space(s[|s| - 1]) then StripRight(s[..|s| - 1]) else s }
  function Strip(s: string): string { StripRight(StripLeft(s)) }

  /** `parse_request` of the MTProxy supervisor: the last line with each key, as it stands. */
  function RequestFields(lines: seq<string>): (string, string) {
    if lines == [] then ("", "")
    else
      var fields, line := RequestFields(lines[..|lines| - 1]), lines[|lines| - 1];
      var i := Equals(line);
      if i < |line| && line[..i] == "id" then (line[i + 1..], fields.1)
      else if i < |line| && line[..i] == "hash" then (fields.0, line[i + 1..])
      else fields
  }

  function ParseRequest(text: string): (string, string) { RequestFields(PythonLines(text)) }

  /** `parse_request` of the AmneziaWG supervisor: a dict of stripped keys and values. */
  function RequestData(lines: seq<string>): map<string, string> {
    if lines == [] then map["id" := "", "hash" := ""]
    else
      var data, line := RequestData(lines[..|lines| - 1]), lines[|lines| - 1];
      var i := Equals(line);
      if i == |line| then data else data[Strip(line[..i]) := Strip(line[i + 1..])]
  }

  function ParseStrippedRequest(text: string): (string, string) {
    var data := RequestData(PythonLines(text));
    (if "id" in data then data["id"] else "", if "hash" in data then data["hash"] else "")
  }

  function RequestText(id: string, hash: string): string { Join([Pair("id", id), Pair("hash", hash), ""], '\n') }

  predicate Unbroken(s: string) { forall i :: 0 <= i < |s| ==> !Break(s[i]) }

  predicate Clean(s: string) { forall i :: 0 <= i < |s| ==> !Space(s[i]) }

  lemma {:induction false} StripClean(s: string)
    requires Clean(s)
    ensures Strip(s) == s
  {
  }

  lemma NoBreaks(text: string)
    requires forall i :: 0 <= i < |text| ==> Break(text[i]) ==> text[i] == '\n'
    ensures PythonLines(text) == Split(text, '\n')
  {
    assert seq(|text|, i requires 0 <= i < |text| => if Break(text[i]) then '\n' else text[i]) == text;
  }

  lemma LineParts(lines: seq<string>, key: string, value: string)
    requires '=' !in key
    ensures var line := Pair(key, value);
      (lines + [line])[..|lines|] == lines && Equals(line) == |key| < |line|
      && line[..|key|] == key && line[|key| + 1..] == value
  {
    EqualsAt(key, value);
  }

  lemma TwoLines(a: string, b: string)
    requires Unbroken(a) && Unbroken(b)
    ensures PythonLines(Join([a, b, ""], '\n')) == [a, b, ""]
  {
    var text := Join([a, b, ""], '\n');
    assert [a, b, ""][1..] == [b, ""] && [b, ""][1..] == [""];
    assert Join([b, ""], '\n') == b + ['\n'] + Join([""], '\n');
    assert text == a + ['\n'] + Join([b, ""], '\n');
    assert text == a + ['\n'] + (b + ['\n'] + "");
    NoBreaks(text);
    SplitJoin([a, b, ""], '\n');
  }

  lemma RequestLines(id: string, hash: string)
    requires Unbroken(id) && Unbroken(hash)
    ensures PythonLines(RequestText(id, hash)) == [] + [Pair("id", id)] + [Pair("hash", hash)] + [""]
  {
    assert Unbroken(Pair("id", id)) && Unbroken(Pair("hash", hash));
    TwoLines(Pair("id", id), Pair("hash", hash));
  }

  /** The MTProxy supervisor reads the id and hash the requester wrote. */
  lemma RequestRoundTrip(id: string, hash: string)
    requires Unbroken(id) && Unbroken(hash)
    ensures ParseRequest(RequestText(id, hash)) == (id, hash)
  {
    RequestLines(id, hash);
    hide Pair, PythonLines, RequestText;
    var one := [] + [Pair("id", id)];
    LineParts([], "id", id);
    LineParts(one, "hash", hash);
    assert (one + [Pair("hash", hash)] + [""])[..2] == one + [Pair("hash", hash)];
    assert RequestFields(one) == (id, "");
    assert RequestFields(one + [Pair("hash", hash)]) == (id, hash);
  }

  /** So does the AmneziaWG supervisor, if they hold no white space. */
  lemma StrippedRoundTrip(id: string, hash: string)
    requires Clean(id) && Clean(hash)
    ensures ParseStrippedRequest(RequestText(id, hash)) == (id, hash)
  {
    RequestLines(id, hash);
    hide Pair, PythonLines, RequestText;
    var one := [] + [Pair("id", id)];
    LineParts([], "id", id);
    LineParts(one, "hash", hash);
    StripClean("id");
    StripClean("hash");
    StripClean(id);
    StripClean(hash);
    assert (one + [Pair("hash", hash)] + [""])[..2] == one + [Pair("hash", hash)];
    assert RequestData(one) == map["id" := id, "hash" := ""];
    assert RequestData(one + [Pair("hash", hash)]) == map["id" := id, "hash" := hash];
  }

  // ---------------------------------------------------------------- the acknowledgement, read in JavaScript

  function DropCr(line: string): string {
    if line != "" && line[|line| - 1] == '\r' then line[..|line| - 1] else line
  }

  /** `value.split(/\r?\n/)` */
  function JsLines(text: string): seq<string> {
    var parts := Split(text, '\n');
    Map(parts[..|parts| - 1], DropCr) + [parts[|parts| - 1]]
  }

  function Key(line: string): string { var i := Equals(line); if i < 1 || i == |line| then line else line[..i] }
  function Val(line: string): string { var i := Equals(line); if i < 1 || i == |line| then "" else line[i + 1..] }

  /** A line is a key and a value around its first '=', or, without one or with nothing before
      it, a key alone. */
  lemma LineIsPair(line: string)
    ensures forall key, value :: '=' !in key && key != "" && line == Pair(key, value) ==>
      Key(line) == key && Val(line) == value
    ensures line == "" || line[0] == '=' || '=' !in line ==> Key(line) == line && Val(line) == ""
  {
    forall key, value | '=' !in key && key != "" && line == Pair(key, value)
      ensures Key(line) == key && Val(line) == value
    {
      EqualsAt(key, value);
      assert line[..|key|] == key && line[|key| + 1..] == value;
    }
    if '=' !in line { NoEquals(line); }
  }

  lemma {:induction false} NoEquals(line: string)
    requires '=' !in line
    ensures Equals(line) == |line|
  {
    if line != "" { NoEquals(line[1..]); }
  }

  /** `Object.fromEntries` of the lines that are not empty. */
  function Entries(lines: seq<string>): map<string, string> {
    if lines == [] then map[]
    else
      var before, line := Entries(lines[..|lines| - 1]), lines[|lines| - 1];
      if line == "" then before else before[Key(line) := Val(line)]
  }

  function ParseKeyValueFile(text: string): map<string, string> { Entries(JsLines(text)) }

  function Get(m: map<string, string>, key: string): Option<string> { if key in m then Some(m[key]) else None }

  /** The value the last line with this key gives it. */
  function LastWith(lines: seq<string>, key: string): Option<string> {
    if lines == [] then None
    else
      var line := lines[|lines| - 1];
      if line != "" && Key(line) == key then Some(Val(line)) else LastWith(lines[..|lines| - 1], key)
  }

  function Or(a: Option<string>, b: Option<string>): Option<string> { if a.Some? then a else b }

  lemma {:induction false} EntriesAreLast(lines: seq<string>, key: string)
    ensures Get(Entries(lines), key) == LastWith(lines, key)
  {
    hide Key, Val;
    if lines != [] { EntriesAreLast(lines[..|lines| - 1], key); }
  }

  lemma {:induction false} LastOfBoth(a: seq<string>, b: seq<string>, key: string)
    ensures LastWith(a + b, key) == Or(LastWith(b, key), LastWith(a, key))
  {
    hide Key, Val;
    if b == [] {
      assert a + b == a;
    } else {
      assert (a + b)[..|a + b| - 1] == a + b[..|b| - 1];
      LastOfBoth(a, b[..|b| - 1], key);
    }
  }

  /** `write_ack` */
  function AckText(id: string, hash: string, status: string, message: string): string {
    Pair("id", id) + "\n"
      + (Pair("hash", hash) + "\n" + (Pair("status", status) + "\n" + (Pair("message", message) + "\n")))
  }

  predicate OneLine(s: string) { '\n' !in s && (s != "" ==> s[|s| - 1] != '\r') }

  /** The lines of a message after its first. */
  function MoreLines(message: string): seq<string> { Map(Split(message, '\n')[1..], DropCr) }

  lemma {:induction false} SplitPrefix(prefix: string, text: string)
    requires '\n' !in prefix
    ensures Split(prefix + text, '\n') == [prefix + Split(text, '\n')[0]] + Split(text, '\n')[1..]
  {
    if prefix == "" {
      assert prefix + text == text;
      assert prefix + Split(text, '\n')[0] == Split(text, '\n')[0];
    } else {
      var all := prefix + text;
      assert all[0] == prefix[0] && prefix[0] in prefix && all[1..] == prefix[1..] + text;
      SplitPrefix(prefix[1..], text);
      assert [prefix[0]] + (prefix[1..] + Split(text, '\n')[0]) == prefix + Split(text, '\n')[0];
    }
  }

  lemma Dropped(key: string, value: string)
    ensures DropCr(Pair(key, value)) == Pair(key, DropCr(value))
    ensures OneLine(value) ==> DropCr(value) == value
    ensures OneLine(value) && '\n' !in key ==> '\n' !in Pair(key, value)
  {
    var line := Pair(key, value);
    if value != "" {
      assert line[|line| - 1] == value[|value| - 1];
      assert line[..|line| - 1] == Pair(key, value[..|value| - 1]);
    } else {
      assert line[|line| - 1] == '=';
    }
  }

  /** The first lines of an acknowledgement and those the message adds. */
  function AckHead(id: string, hash: string, status: string, message: string): seq<string> {
    [Pair("id", id), Pair("hash", hash), Pair("status", status), Pair("message", DropCr(Split(message, '\n')[0]))]
  }

  lemma MessageLines(message: string)
    ensures Split(Pair("message", message) + "\n", '\n') ==
      [Pair("message", Split(message, '\n')[0])] + Split(message, '\n')[1..] + [""]
  {
    SplitEnd(Pair("message", message), '\n');
    SplitPrefix("message" + "=", message);
  }

  /** The parts of an acknowledgement between newlines, but for the empty last one. */
  function AckParts(id: string, hash: string, status: string, message: string): seq<string> {
    var ms := Split(message, '\n');
    [Pair("id", id), Pair("hash", hash), Pair("status", status), Pair("message", ms[0])] + ms[1..]
  }

  lemma AckSplit(id: string, hash: string, status: string, message: string)
    requires OneLine(id) && OneLine(hash) && OneLine(status)
    ensures Split(AckText(id, hash, status, message), '\n') == AckParts(id, hash, status, message) + [""]
  {
    hide Split, Pair, DropCr, OneLine;
    var d := Pair("message", message) + "\n";
    var c := Pair("status", status) + "\n" + d;
    var b := Pair("hash", hash) + "\n" + c;
    Dropped("id", id);
    Dropped("hash", hash);
    Dropped("status", status);
    SplitFirst(Pair("id", id), b, '\n');
    SplitFirst(Pair("hash", hash), c, '\n');
    SplitFirst(Pair("status", status), d, '\n');
    MessageLines(message);
  }

  lemma AckLines(id: string, hash: string, status: string, message: string)
    requires OneLine(id) && OneLine(hash) && OneLine(status)
    ensures JsLines(AckText(id, hash, status, message)) ==
      AckHead(id, hash, status, message) + MoreLines(message) + [""]
  {
    hide Split, Pair, DropCr, OneLine, AckText;
    AckSplit(id, hash, status, message);
    Dropped("id", id);
    Dropped("hash", hash);
    Dropped("status", status);
    Dropped("message", Split(message, '\n')[0]);
    var init := AckParts(id, hash, status, message);
    assert (init + [""])[..|init|] == init;
    assert Map(init, DropCr) == AckHead(id, hash, status, message) + MoreLines(message);
  }

  lemma KeyOfLine(key: string, value: string)
    requires key != "" && '=' !in key
    ensures Key(Pair(key, value)) == key && Val(Pair(key, value)) == value && Pair(key, value) != ""
  {
    EqualsAt(key, value);
    var line := Pair(key, value);
    assert line[..|key|] == key && line[|key| + 1..] == value;
  }

  lemma LastMore(lines: seq<string>, key: string, value: string, wanted: string)
    requires key != "" && '=' !in key
    ensures LastWith(lines + [Pair(key, value)], wanted) ==
      if key == wanted then Some(value) else LastWith(lines, wanted)
  {
    hide Key, Val, Pair;
    KeyOfLine(key, value);
    assert (lines + [Pair(key, value)])[..|lines|] == lines;
  }

  lemma LastAddsEmpty(lines: seq<string>, key: string)
    ensures LastWith(lines + [""], key) == LastWith(lines, key)
  {
    assert (lines + [""])[..|lines|] == lines;
  }

  function Written(id: string, hash: string, status: string, key: string): string {
    if key == "id" then id else if key == "hash" then hash else status
  }

  lemma HeadValues(id: string, hash: string, status: string, m0: string, key: string)
    requires key == "id" || key == "hash" || key == "status" || key == "message"
    ensures LastWith([Pair("id", id), Pair("hash", hash), Pair("status", status), Pair("message", m0)], key) ==
      Some(if key == "message" then m0 else Written(id, hash, status, key))
  {
    hide LastWith, Pair;
    var one := [] + [Pair("id", id)];
    var two := one + [Pair("hash", hash)];
    var three := two + [Pair("status", status)];
    LastMore([], "id", id, key);
    LastMore(one, "hash", hash, key);
    LastMore(two, "status", status, key);
    LastMore(three, "message", m0, key);
    assert three + [Pair("message", m0)] ==
      [Pair("id", id), Pair("hash", hash), Pair("status", status), Pair("message", m0)];
  }

  /** What the requester reads under a key: the supervisor's value, unless a later line
      of the message has that key. */
  lemma AckIsRead(id: string, hash: string, status: string, message: string, key: string)
    requires OneLine(id) && OneLine(hash) && OneLine(status)
    requires key == "id" || key == "hash" || key == "status"
    ensures Get(ParseKeyValueFile(AckText(id, hash, status, message)), key) ==
      Or(LastWith(MoreLines(message), key), Some(Written(id, hash, status, key)))
  {
    hide Pair, DropCr, Split, MoreLines, JsLines, LastWith, AckText;
    var head := AckHead(id, hash, status, message);
    AckLines(id, hash, status, message);
    EntriesAreLast(head + MoreLines(message) + [""], key);
    LastAddsEmpty(head + MoreLines(message), key);
    LastOfBoth(head, MoreLines(message), key);
    HeadValues(id, hash, status, DropCr(Split(message, '\n')[0]), key);
  }

  datatype Decision = Wait | HashMismatch | Rejected(message: string) | Accepted

  /** What the requester makes of the acknowledgement file. */
  function Decide(text: string, requestId: string, hash: string): Decision {
    var ack := ParseKeyValueFile(text);
    if Get(ack, "id") != Some(requestId) then Wait
    else if Get(ack, "hash") != Some(hash) then HashMismatch
    else if Get(ack, "status") != Some("ok") then Rejected(if "message" in ack then ack["message"] else "unknown error")
    else Accepted
  }

  datatype ReloadResult = BadHash | NotWritten | TimedOut | Failed(decision: Decision) | Acknowledged

  /** What one poll of the acknowledgement file shows; a file that cannot be read is waited for. */
  function DecideOn(poll: Option<string>, requestId: string, hash: string): Decision {
    if poll.None? then Wait else Decide(poll.value, requestId, hash)
  }

  /** The first decision that ends the waiting. */
  function FirstDecision(polls: seq<Option<string>>, requestId: string, hash: string): Decision {
    if polls == [] then Wait
    else if DecideOn(polls[0], requestId, hash).Wait? then FirstDecision(polls[1..], requestId, hash)
    else DecideOn(polls[0], requestId, hash)
  }

  /** It is Wait exactly if no poll shows an answer to this request. */
  lemma {:induction false} FirstDecisionIsFirst(polls: seq<Option<string>>, requestId: string, hash: string)
    ensures FirstDecision(polls, requestId, hash).Wait? <==>
      forall k :: 0 <= k < |polls| ==> DecideOn(polls[k], requestId, hash).Wait?
    ensures !FirstDecision(polls, requestId, hash).Wait? ==>
      (exists k :: (
        0 <= k < |polls| && DecideOn(polls[k], requestId, hash) == FirstDecision(polls, requestId, hash)
        && forall j :: 0 <= j < k ==> DecideOn(polls[j], requestId, hash).Wait?))
  {
    hide DecideOn;
    if polls != [] && DecideOn(polls[0], requestId, hash).Wait? {
      FirstDecisionIsFirst(polls[1..], requestId, hash);
      assert forall k :: 1 <= k < |polls| ==> polls[k] == polls[1..][k - 1];
      if !FirstDecision(polls[1..], requestId, hash).Wait? {
        var k :| 0 <= k < |polls[1..]|
          && DecideOn(polls[1..][k], requestId, hash) == FirstDecision(polls[1..], requestId, hash)
          && forall j :: 0 <= j < k ==> DecideOn(polls[1..][j], requestId, hash).Wait?;
        assert DecideOn(polls[k + 1], requestId, hash) == FirstDecision(polls, requestId, hash);
      }
    }
  }

  /** `requestSharedVolumeReload`; `polls` is what the file holds at each poll before the
      deadline. The first answer to this request decides, and without one it times out. */
  method RequestSharedVolumeReload(hash: string, requestId: string, written: bool, polls: seq<Option<string>>)
      returns (r: ReloadResult)
    ensures r == if !IsSha256Hex(hash) then BadHash
                 else if !written then NotWritten
                 else match FirstDecision(polls, requestId, hash)
                      case Wait => TimedOut
                      case Accepted => Acknowledged
                      case other => Failed(other)
  {
    hide Decide, IsSha256Hex;
    if !IsSha256Hex(hash) { return BadHash; }
    if !written { return NotWritten; }
    var k := 0;
    while k < |polls|
      invariant 0 <= k <= |polls|
      invariant FirstDecision(polls, requestId, hash) == FirstDecision(polls[k..], requestId, hash)
    {
      if polls[k].Some? {
        var decision := Decide(polls[k].value, requestId, hash);
        if decision.Accepted? { return Acknowledged; }
        if !decision.Wait? { return Failed(decision); }
      }
      assert polls[k..][1..] == polls[k + 1..];
      k := k + 1;
    }
    r := TimedOut;
  }

  /** A later line of the message gives this key another value. */
  predicate Overrides(message: string, key: string, value: string) {
    var last := LastWith(MoreLines(message), key);
    last.Some? && last != Some(value)
  }

  /** The later lines of the message leave the answer as it was. */
  predicate Harmless(id: string, hash: string, status: string, message: string) {
    if status == "ok" then
      !Overrides(message, "id", id) && !Overrides(message, "hash", hash) && !Overrides(message, "status", "ok")
    else
      Overrides(message, "id", id) || Overrides(message, "hash", hash)
        || LastWith(MoreLines(message), "status") != Some("ok")
  }

  /** The requester accepts exactly the acknowledgements with status "ok" if and only if
      the message is harmless. */
  lemma AcceptsWhatIsOk(id: string, hash: string, status: string, message: string)
    requires OneLine(id) && OneLine(hash) && OneLine(status)
    ensures (Decide(AckText(id, hash, status, message), id, hash) == Accepted <==> status == "ok") <==>
      Harmless(id, hash, status, message)
  {
    hide ParseKeyValueFile, LastWith, MoreLines, AckText;
    AckIsRead(id, hash, status, message, "id");
    AckIsRead(id, hash, status, message, "hash");
    AckIsRead(id, hash, status, message, "status");
  }

  lemma OneLineHasNoMore(message: string)
    requires OneLine(message)
    ensures Split(message, '\n') == [message] && MoreLines(message) == [] && DropCr(message) == message
  {
    SplitFirst(message, "", '\n');
  }

  /** One-line messages, as all but those with the log of a dead child are, are harmless,
      and the requester reads them. */
  lemma OneLineMessages(id: string, hash: string, status: string, message: string)
    requires OneLine(id) && OneLine(hash) && OneLine(status) && OneLine(message)
    ensures Decide(AckText(id, hash, status, message), id, hash) ==
      if status == "ok" then Accepted else Rejected(message)
  {
    OneLineHasNoMore(message);
    assert LastWith([], "id") == None && LastWith([], "hash") == None && LastWith([], "status") == None;
    hide ParseKeyValueFile, LastWith, MoreLines, AckText;
    AckIsRead(id, hash, status, message, "id");
    AckIsRead(id, hash, status, message, "hash");
    AckIsRead(id, hash, status, message, "status");
    MessageIsRead(id, hash, status, message);
  }

  lemma MessageIsRead(id: string, hash: string, status: string, message: string)
    requires OneLine(id) && OneLine(hash) && OneLine(status) && OneLine(message)
    ensures Get(ParseKeyValueFile(AckText(id, hash, status, message)), "message") == Some(message)
  {
    hide Pair, DropCr, Split, MoreLines, JsLines, LastWith, AckText;
    var head := AckHead(id, hash, status, message);
    OneLineHasNoMore(message);
    AckLines(id, hash, status, message);
    assert head + MoreLines(message) == head;
    EntriesAreLast(head + [""], "message");
    LastAddsEmpty(head, "message");
    HeadValues(id, hash, status, message, "message");
  }

  // ---------------------------------------------------------------- answers to other requests

  predicate IsHex(c: char) { '0' <= c <= '9' || 'a' <= c <= 'f' }

  predicate IsDash(i: nat) { i == 8 || i == 13 || i == 18 || i == 23 }

  /** What `randomUUID` can return: a UUID of version 4 (section 5.4 of RFC 9562). */
  predicate IsId(s: string) {
    |s| == 36
    && (forall i :: 0 <= i < 36 ==> if IsDash(i) then s[i] == '-' else IsHex(s[i]))
    && s[14] == '4' && (s[19] == '8' || s[19] == '9' || s[19] == 'a' || s[19] == 'b')
  }

  predicate IsRequest(id: string, hash: string) { IsId(id) && IsSha256Hex(hash) }

  lemma RequestsAreLines(id: string, hash: string)
    requires IsRequest(id, hash)
    ensures OneLine(id) && OneLine(hash) && Unbroken(id) && Unbroken(hash)
  {
    assert forall i :: 0 <= i < |hash| ==> !Break(hash[i]);
    assert forall i :: 0 <= i < |id| ==> !Break(id[i]);
    assert id[35] != '\r' && hash[63] != '\r';
  }

  /** When the answer to one request is taken for an acceptance of another, or of itself. */
  lemma AcceptedAnswers(id0: string, hash0: string, status: string, message: string, id: string, hash: string)
    requires OneLine(id0) && OneLine(hash0) && OneLine(status)
    ensures Decide(AckText(id0, hash0, status, message), id, hash) == Accepted <==>
      Or(LastWith(MoreLines(message), "id"), Some(id0)) == Some(id)
      && Or(LastWith(MoreLines(message), "hash"), Some(hash0)) == Some(hash)
      && Or(LastWith(MoreLines(message), "status"), Some(status)) == Some("ok")
  {
    hide ParseKeyValueFile, LastWith, MoreLines, AckText;
    AckIsRead(id0, hash0, status, message, "id");
    AckIsRead(id0, hash0, status, message, "hash");
    AckIsRead(id0, hash0, status, message, "status");
  }

  /** The later lines of the message do not spell an acceptance: no last `status=ok` beside
      an id and a hash that are absent or could be a request's. */
  predicate Innocent(message: string) {
    var id, hash := LastWith(MoreLines(message), "id"), LastWith(MoreLines(message), "hash");
    LastWith(MoreLines(message), "status") != Some("ok")
    || (id.Some? && !IsId(id.value))
    || (hash.Some? && !IsSha256Hex(hash.value))
  }

  /** An error answer is taken for an acceptance of no request exactly if its message is innocent. */
  lemma InnocentIsExact(message: string)
    ensures Innocent(message) <==>
      forall id0, hash0, id, hash :: IsRequest(id0, hash0) && IsRequest(id, hash) ==>
        Decide(AckText(id0, hash0, "error", message), id, hash) != Accepted
  {
    if Innocent(message) {
      forall id0, hash0, id, hash | IsRequest(id0, hash0) && IsRequest(id, hash)
        ensures Decide(AckText(id0, hash0, "error", message), id, hash) != Accepted
      {
        InnocentIsRefused(id0, hash0, message, id, hash);
      }
    } else {
      GuiltyIsAccepted(message);
    }
  }

  lemma InnocentIsRefused(id0: string, hash0: string, message: string, id: string, hash: string)
    requires Innocent(message) && IsRequest(id0, hash0) && IsRequest(id, hash)
    ensures Decide(AckText(id0, hash0, "error", message), id, hash) != Accepted
  {
    hide Decide, LastWith, MoreLines, IsId, IsSha256Hex;
    RequestsAreLines(id0, hash0);
    AcceptedAnswers(id0, hash0, "error", message, id, hash);
  }

  /** One id for each last digit. */
  function SomeId(last: char): string {
    seq(36, i requires 0 <= i < 36 =>
      if IsDash(i) then '-' else if i == 14 then '4' else if i == 19 then '8' else if i == 35 then last else '0')
  }

  function SomeHash(): string { seq(64, _ => '0') }

  /** A request whose own error answer with this message is taken for an acceptance. */
  function TakenFor(message: string): (string, string) {
    var id, hash := LastWith(MoreLines(message), "id"), LastWith(MoreLines(message), "hash");
    (if id.Some? then id.value else SomeId('0'), if hash.Some? then hash.value else SomeHash())
  }

  lemma GuiltyIsAccepted(message: string)
    requires !Innocent(message)
    ensures var taken := TakenFor(message);
      IsRequest(taken.0, taken.1)
      && Decide(AckText(taken.0, taken.1, "error", message), taken.0, taken.1) == Accepted
  {
    assert IsId(SomeId('0')) && IsSha256Hex(SomeHash());
    hide Decide, LastWith, MoreLines, IsId, IsSha256Hex;
    var taken := TakenFor(message);
    RequestsAreLines(taken.0, taken.1);
    AcceptedAnswers(taken.0, taken.1, "error", message, taken.0, taken.1);
  }

  /** A one-line "ok" answer accepts its own request and no other. */
  lemma OkAcceptsItsRequest(id0: string, hash0: string, message: string, id: string, hash: string)
    requires IsRequest(id0, hash0) && OneLine(message)
    ensures Decide(AckText(id0, hash0, "ok", message), id, hash) == Accepted <==> id == id0 && hash == hash0
  {
    hide Decide, MoreLines, IsId, IsSha256Hex;
    RequestsAreLines(id0, hash0);
    OneLineHasNoMore(message);
    AcceptedAnswers(id0, hash0, "ok", message, id, hash);
  }

  /** A log line of a dead child can turn a rejection into an acceptance. */
  lemma LogLineCanAccept(id: string, hash: string, detail: string)
    requires OneLine(id) && OneLine(hash) && OneLine(detail)
    ensures Decide(AckText(id, hash, "error", detail + "\n" + Pair("status", "ok")), id, hash) == Accepted
  {
    hide ParseKeyValueFile, LastWith, MoreLines, AckText, Pair;
    var line := Pair("status", "ok");
    var message := detail + "\n" + line;
    LogLines(detail, "status", "ok");
    LastMore([], "status", "ok", "id");
    LastMore([], "status", "ok", "hash");
    LastMore([], "status", "ok", "status");
    assert [] + [line] == [line];
    NothingLast("id");
    NothingLast("hash");
    AckIsRead(id, hash, "error", message, "id");
    AckIsRead(id, hash, "error", message, "hash");
    AckIsRead(id, hash, "error", message, "status");
  }

  lemma NothingLast(key: string)
    ensures LastWith([], key) == None
  {
  }

  lemma LogLines(detail: string, key: string, value: string)
    requires OneLine(detail) && OneLine(value) && '\n' !in key
    ensures MoreLines(detail + "\n" + Pair(key, value)) == [Pair(key, value)]
  {
    hide Pair;
    Dropped(key, value);
    SplitFirst(detail, Pair(key, value), '\n');
    SplitFirst(Pair(key, value), "", '\n');
  }
}
