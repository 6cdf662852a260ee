/** Unpadded base64url, section 5 of RFC 4648, as Node's 'base64url' encoding has it, and
    the subscription tokens of packages/shared/src/schemas.ts. */
module Base64Url {
  type Byte = x: int | 0 <= x < 256
  type Sextet = x: int | 0 <= x < 64

  function Letter(v: Sextet): (c: char)
    ensures InAlphabet(c) && SextetOf(c) == v
  {
    if v < 26 then ('A' as int + v) as char
    else if v < 52 then ('a' as int + (v - 26)) as char
    else if v < 62 then ('0' as int + (v - 52)) as char
    else if v == 62 then '-'
    else '_'
  }

  predicate InAlphabet(c: char) {
    'A' <= c <= 'Z' || 'a' <= c <= 'z' || '0' <= c <= '9' || c == '-' || c == '_'
  }

  function SextetOf(c: char): Sextet
    requires InAlphabet(c)
  {
    if 'A' <= c <= 'Z' then c as int - 'A' as int
    else if 'a' <= c <= 'z' then c as int - 'a' as int + 26
    else if '0' <= c <= '9' then c as int - '0' as int + 52
    else if c == '-' then 62
    else 63
  }

  lemma LetterOfSextet(c: char)
    requires InAlphabet(c)
    ensures Letter(SextetOf(c)) == c
  {
  }

  ghost predicate IsText(s: string) { forall i :: 0 <= i < |s| ==> InAlphabet(s[i]) }

  function First(a: Byte): Sextet { a / 4 }
  function Second(a: Byte, b: Byte): Sextet { a % 4 * 16 + b / 16 }
  function Third(b: Byte, c: Byte): Sextet { b % 16 * 4 + c / 64 }
  function Fourth(c: Byte): Sextet { c % 64 }

  function Byte1(p: Sextet, q: Sextet): Byte { p * 4 + q / 16 }
  function Byte2(q: Sextet, r: Sextet): Byte { q % 16 * 16 + r / 4 }
  function Byte3(r: Sextet, s: Sextet): Byte { r % 4 * 64 + s }

  function Sextets(b: seq<Byte>): seq<Sextet> {
    if |b| == 0 then []
    else if |b| == 1 then [First(b[0]), Second(b[0], 0)]
    else if |b| == 2 then [First(b[0]), Second(b[0], b[1]), Third(b[1], 0)]
    else [First(b[0]), Second(b[0], b[1]), Third(b[1], b[2]), Fourth(b[2])] + Sextets(b[3..])
  }

  /** Bits that make no whole byte are dropped. */
  function Bytes(v: seq<Sextet>): seq<Byte> {
    if |v| < 2 then []
    else if |v| == 2 then [Byte1(v[0], v[1])]
    else if |v| == 3 then [Byte1(v[0], v[1]), Byte2(v[1], v[2])]
    else [Byte1(v[0], v[1]), Byte2(v[1], v[2]), Byte3(v[2], v[3])] + Bytes(v[4..])
  }

  /** `buffer.toString('base64url')`. */
  function Encode(b: seq<Byte>): string { var v := Sextets(b); seq(|v|, i requires 0 <= i < |v| => Letter(v[i])) }

  /** `Buffer.from(text, 'base64url')`, for letters of the alphabet. */
  ghost function Decode(s: string): seq<Byte>
    requires IsText(s)
  {
    Bytes(seq(|s|, i requires 0 <= i < |s| => SextetOf(s[i])))
  }

  /** The unused bits are zero and no letter is left over (section 3.5 of RFC 4648). */
  predicate Canonical(v: seq<Sextet>) {
    match |v| % 4
    case 0 => true
    case 1 => false
    case 2 => v[|v| - 1] % 16 == 0
    case _ => v[|v| - 1] % 4 == 0
  }

  lemma Regroup(a: Byte, b: Byte, c: Byte)
    ensures Byte1(First(a), Second(a, b)) == a && Byte2(Second(a, b), Third(b, c)) == b
      && Byte3(Third(b, c), Fourth(c)) == c
    ensures Second(a, 0) % 16 == 0 && Third(b, 0) % 4 == 0
  {
  }

  lemma Group(p: Sextet, q: Sextet, r: Sextet, s: Sextet)
    ensures var a, b, c := Byte1(p, q), Byte2(q, r), Byte3(r, s);
      First(a) == p && Second(a, b) == q && Third(b, c) == r && Fourth(c) == s
    ensures Second(Byte1(p, q), 0) == q <==> q % 16 == 0
    ensures Third(Byte2(q, r), 0) == r <==> r % 4 == 0
  {
  }

  lemma SextetsMore(a: Byte, b: Byte, c: Byte, rest: seq<Byte>)
    ensures Sextets([a, b, c] + rest) == [First(a), Second(a, b), Third(b, c), Fourth(c)] + Sextets(rest)
  {
    hide First, Second, Third, Fourth;
    assert ([a, b, c] + rest)[3..] == rest;
  }

  lemma BytesMore(p: Sextet, q: Sextet, r: Sextet, s: Sextet, rest: seq<Sextet>)
    ensures Bytes([p, q, r, s] + rest) == [Byte1(p, q), Byte2(q, r), Byte3(r, s)] + Bytes(rest)
  {
    hide Byte1, Byte2, Byte3;
    assert ([p, q, r, s] + rest)[4..] == rest;
  }

  lemma SplitOne(a: Byte)
    ensures Byte1(First(a), Second(a, 0)) == a && Second(a, 0) % 16 == 0
  {
  }

  lemma CanonicalTwo(p: Sextet, q: Sextet)
    requires q % 16 == 0
    ensures Canonical([p, q])
  {
  }

  lemma OneByte(a: Byte)
    ensures Bytes(Sextets([a])) == [a] && Canonical(Sextets([a]))
  {
    hide First, Second, Byte1, Canonical;
    SplitOne(a);
    CanonicalTwo(First(a), Second(a, 0));
  }

  lemma TwoBytes(a: Byte, b: Byte)
    ensures Bytes(Sextets([a, b])) == [a, b] && Canonical(Sextets([a, b]))
  {
    Regroup(a, b, 0);
    hide First, Second, Third, Byte1, Byte2;
    assert Sextets([a, b]) == [First(a), Second(a, b), Third(b, 0)];
  }

  lemma {:induction false} BytesOfSextets(b: seq<Byte>)
    ensures Bytes(Sextets(b)) == b && Canonical(Sextets(b))
  {
    if |b| == 1 {
      OneByte(b[0]);
      assert b == [b[0]];
    } else if |b| == 2 {
      TwoBytes(b[0], b[1]);
      assert b == [b[0], b[1]];
    } else if |b| >= 3 {
      hide *;
      var rest := b[3..];
      assert b == [b[0], b[1], b[2]] + rest;
      BytesOfSextets(rest);
      SextetsMore(b[0], b[1], b[2], rest);
      BytesMore(First(b[0]), Second(b[0], b[1]), Third(b[1], b[2]), Fourth(b[2]), Sextets(rest));
      Regroup(b[0], b[1], b[2]);
      assert Sextets(b)[4..] == Sextets(rest);
      CanonicalTail(Sextets(b));
    }
  }

  lemma {:induction false} Lengths(b: seq<Byte>, v: seq<Sextet>)
    ensures |Sextets(b)| == (4 * |b| + 2) / 3
    ensures |v| % 4 != 1 ==> |Bytes(v)| == 3 * |v| / 4
    decreases |b| + |v|
  {
    if |b| >= 3 {
      Lengths(b[3..], []);
      assert (4 * |b| + 2) / 3 == 4 + (4 * (|b| - 3) + 2) / 3;
    }
    if |v| >= 4 {
      Lengths([], v[4..]);
      assert 3 * |v| / 4 == 3 + 3 * (|v| - 4) / 4 && |v| % 4 == (|v| - 4) % 4;
    }
  }

  lemma {:induction false} SextetsOfBytes(v: seq<Sextet>)
    ensures Sextets(Bytes(v)) == v <==> Canonical(v)
  {
    if |v| == 2 {
      Group(v[0], v[1], 0, 0);
    } else if |v| == 3 {
      Group(v[0], v[1], v[2], 0);
    } else if |v| >= 4 {
      hide *;
      var rest := v[4..];
      assert v == [v[0], v[1], v[2], v[3]] + rest;
      SextetsOfBytes(rest);
      BytesMore(v[0], v[1], v[2], v[3], rest);
      SextetsMore(Byte1(v[0], v[1]), Byte2(v[1], v[2]), Byte3(v[2], v[3]), Bytes(rest));
      Group(v[0], v[1], v[2], v[3]);
      CanonicalTail(v);
      if Sextets(Bytes(v)) == v { assert Sextets(Bytes(rest)) == Sextets(Bytes(v))[4..] == rest; }
    }
  }

  lemma CanonicalTail(v: seq<Sextet>)
    requires |v| >= 4
    ensures Canonical(v) == Canonical(v[4..])
  {
    var w := v[4..];
    assert |v| == |w| + 4;
    assert |v| % 4 == |w| % 4;
    if |w| > 0 { assert v[|v| - 1] == w[|w| - 1]; }
  }

  function SextetsOf(s: string): (v: seq<Sextet>)
    requires forall i :: 0 <= i < |s| ==> InAlphabet(s[i])
    ensures |v| == |s| && forall i :: 0 <= i < |s| ==> v[i] == SextetOf(s[i])
  {
    seq(|s|, i requires 0 <= i < |s| => SextetOf(s[i]))
  }

  /** Decoding undoes encoding; the text has only letters and ceil(4n/3) of them. */
  lemma DecodeEncode(b: seq<Byte>)
    ensures IsText(Encode(b)) && Decode(Encode(b)) == b && |Encode(b)| == (4 * |b| + 2) / 3
  {
    BytesOfSextets(b);
    Lengths(b, []);
    var s := Encode(b);
    assert SextetsOf(s) == Sextets(b);
    assert Decode(s) == Bytes(SextetsOf(s));
  }

  /** Encoding undoes decoding exactly for canonical texts. */
  lemma EncodeDecode(s: string)
    requires IsText(s)
    ensures Encode(Decode(s)) == s <==> Canonical(SextetsOf(s))
    ensures |s| % 4 != 1 ==> |Decode(s)| == 3 * |s| / 4
  {
    var v := SextetsOf(s);
    SextetsOfBytes(v);
    Lengths([], v);
    assert Decode(s) == Bytes(v);
    forall i | 0 <= i < |s| ensures Letter(v[i]) == s[i] { LetterOfSextet(s[i]); }
    assert SextetsOf(Encode(Bytes(v))) == Sextets(Bytes(v));
    if Sextets(Bytes(v)) == v { assert Encode(Bytes(v)) == s; }
  }

  /** `subscriptionTokenSchema`: 42 letters and one of AEIMQUYcgkosw048. */
  ghost predicate IsToken(s: string) {
    |s| == 43 && IsText(s) && s[42] in "AEIMQUYcgkosw048"
  }

  lemma LastLetter(c: char)
    requires InAlphabet(c)
    ensures c in "AEIMQUYcgkosw048" <==> SextetOf(c) % 4 == 0
  {
    var v := SextetOf(c);
    LetterOfSextet(c);
    if v % 4 == 0 {
      assert "AEIMQUYcgkosw048"[v / 4] == Letter(v);
    }
  }

  /** A text is a token exactly if it is the encoding of some 32 bytes. */
  lemma TokensAreEncodings(s: string)
    ensures IsToken(s) <==> exists b: seq<Byte> :: |b| == 32 && Encode(b) == s
  {
    hide Encode, Decode;
    if IsToken(s) {
      LastLetter(s[42]);
      EncodeDecode(s);
      assert |Decode(s)| == 32 && Encode(Decode(s)) == s;
    }
    if exists b: seq<Byte> :: |b| == 32 && Encode(b) == s {
      var b: seq<Byte> :| |b| == 32 && Encode(b) == s;
      DecodeEncode(b);
      EncodeDecode(s);
      LastLetter(s[42]);
    }
  }
}

/** The envelopes of `SecretEncryptionService` in apps/api/src/auth/auth-crypto.ts. The
    cipher is any authenticated cipher with a 12-byte iv, a 16-byte tag and ciphertexts
    as long as their plaintexts; a text is its UTF-8 bytes. */
module SecretEnvelope {
  import opened Text
  import opened Base64Url

  datatype Result<+T> = Ok(value: T) | BadEnvelope | BadTag

  datatype Sealed = Sealed(ciphertext: seq<Byte>, tag: seq<Byte>)

  /** `open` is given iv, tag and ciphertext. */
  datatype Cipher = Cipher(
    seal: (seq<Byte>, seq<Byte>) -> Sealed,
    open: (seq<Byte>, seq<Byte>, seq<Byte>) -> Result<seq<Byte>>)

  ghost predicate Authenticated(c: Cipher) {
    forall iv: seq<Byte>, p: seq<Byte> :: (
      |iv| == 12 ==>
      var s := c.seal(iv, p);
      |s.tag| == 16 && |s.ciphertext| == |p| && c.open(iv, s.tag, s.ciphertext) == Ok(p))
  }

  type Decoder = string -> seq<Byte>

  /** Node's decoder, whatever it does with other characters. */
  ghost predicate Decodes(d: Decoder) { forall s :: IsText(s) ==> d(s) == Decode(s) }

  /** `['v1', iv, tag, ciphertext].join(':')`. */
  function Frame(iv: seq<Byte>, s: Sealed): string {
    Join(["v1", Encode(iv), Encode(s.tag), Encode(s.ciphertext)], ':')
  }

  function Encrypt(c: Cipher, iv: seq<Byte>, plaintext: seq<Byte>): string { Frame(iv, c.seal(iv, plaintext)) }

  function Decrypt(c: Cipher, d: Decoder, payload: string): Result<seq<Byte>> {
    var parts := Split(payload, ':');
    if parts[0] != "v1" || |parts| < 4 || parts[1] == "" || parts[2] == "" || parts[3] == ""
       || (|parts| > 4 && parts[4] != "")
    then BadEnvelope
    else c.open(d(parts[1]), d(parts[2]), d(parts[3]))
  }

  lemma NoColon(b: seq<Byte>)
    ensures ':' !in Encode(b) && (Encode(b) == "" <==> b == [])
  {
    DecodeEncode(b);
    var s := Encode(b);
    assert forall i :: 0 <= i < |s| ==> s[i] != ':';
  }

  /** The four parts of an envelope can be told apart. */
  lemma FrameParts(iv: seq<Byte>, s: Sealed)
    ensures Split(Frame(iv, s), ':') == ["v1", Encode(iv), Encode(s.tag), Encode(s.ciphertext)]
  {
    hide Encode;
    NoColon(iv);
    NoColon(s.tag);
    NoColon(s.ciphertext);
    SplitJoin(["v1", Encode(iv), Encode(s.tag), Encode(s.ciphertext)], ':');
  }

  /** Decrypting gives back what was encrypted, except for the empty text, which
      `encrypt` takes and `decrypt` refuses. */
  lemma DecryptEncrypt(c: Cipher, d: Decoder, iv: seq<Byte>, plaintext: seq<Byte>)
    requires Authenticated(c) && Decodes(d) && |iv| == 12
    ensures Decrypt(c, d, Encrypt(c, iv, plaintext)) == if plaintext != [] then Ok(plaintext) else BadEnvelope
  {
    var s := c.seal(iv, plaintext);
    FrameParts(iv, s);
    NoColon(iv);
    NoColon(s.tag);
    NoColon(s.ciphertext);
    DecodeEncode(iv);
    DecodeEncode(s.tag);
    DecodeEncode(s.ciphertext);
  }

  /** One of the three parts of an envelope. */
  predicate IsPart(s: string) { s != "" && ':' !in s }

  /** Version 1, the three parts, and whatever follows an empty fifth part. */
  predicate IsEnvelope(payload: string, iv: string, tag: string, ciphertext: string) {
    var envelope := "v1:" + iv + ":" + tag + ":" + ciphertext;
    && IsPart(iv) && IsPart(tag) && IsPart(ciphertext)
    && (payload == envelope || payload == envelope + ":" || StartsWith(payload, envelope + "::"))
  }

  /** The text before the first colon, and the text after it. */
  lemma {:induction false} FirstPart(text: string)
    ensures var parts := Split(text, ':');
      ':' !in parts[0]
      && (|parts| == 1 ==> text == parts[0])
      && (|parts| > 1 ==> exists rest :: text == parts[0] + ":" + rest && Split(rest, ':') == parts[1..])
  {
    JoinSplit(text, ':');
    var parts := Split(text, ':');
    if |parts| > 1 {
      var rest := Join(parts[1..], ':');
      SplitJoin(parts[1..], ':');
      assert text == parts[0] + ":" + rest && Split(rest, ':') == parts[1..];
    }
  }

  lemma PartThen(part: string, rest: string)
    requires ':' !in part
    ensures Split(rest, ':') != []
    ensures Split(part, ':') == [part] && Split(part + ":" + rest, ':') == [part] + Split(rest, ':')
  {
    SplitFirst(part, rest, ':');
  }

  /** What stands behind the three parts. */
  lemma Behind(payload: string, envelope: string) returns (after: string)
    requires payload == envelope || payload == envelope + ":" || StartsWith(payload, envelope + "::")
    ensures payload == envelope + after && (after == "" || after[0] == ':')
    ensures |after| > 1 ==> after[1] == ':'
  {
    var n := |envelope|;
    after := payload[n..];
    if StartsWith(payload, envelope + "::") {
      assert payload[..n + 2] == envelope + "::";
      assert payload[..n] == payload[..n + 2][..n] == envelope;
      assert payload[n] == payload[..n + 2][n] == ':' && payload[n + 1] == payload[..n + 2][n + 1] == ':';
    }
  }

  lemma RightToLeft(iv: string, tag: string, ciphertext: string, after: string)
    ensures ("v1:" + iv + ":" + tag + ":" + ciphertext) + after
         == "v1" + ":" + (iv + ":" + (tag + ":" + (ciphertext + after)))
  {
  }

  lemma LastPart(ciphertext: string, after: string)
    requires ':' !in ciphertext && (after == "" || after[0] == ':') && (|after| > 1 ==> after[1] == ':')
    ensures var parts := Split(ciphertext + after, ':');
      parts[0] == ciphertext && (|parts| > 1 ==> parts[1] == "")
  {
    if after == "" {
      PartThen(ciphertext, "");
      assert ciphertext + after == ciphertext;
    } else {
      var rest := after[1..];
      PartThen(ciphertext, rest);
      assert ciphertext + after == ciphertext + ":" + rest;
      EmptyFirst(rest);
    }
  }

  lemma EnvelopeParts(payload: string, iv: string, tag: string, ciphertext: string)
    requires IsEnvelope(payload, iv, tag, ciphertext)
    ensures var parts := Split(payload, ':');
      |parts| >= 4 && parts[..4] == ["v1", iv, tag, ciphertext] && (|parts| > 4 ==> parts[4] == "")
  {
    var after := Behind(payload, "v1:" + iv + ":" + tag + ":" + ciphertext);
    hide *;
    ShownParts(payload, iv, tag, ciphertext);
    RightToLeft(iv, tag, ciphertext, after);
    LastPart(ciphertext, after);
    PartThen(tag, ciphertext + after);
    PartThen(iv, tag + ":" + (ciphertext + after));
    PartThen("v1", iv + ":" + (tag + ":" + (ciphertext + after)));
    FourFirst("v1", iv, tag, Split(ciphertext + after, ':'));
  }

  lemma FourFirst(a: string, b: string, c: string, rest: seq<string>)
    requires rest != [] && (|rest| > 1 ==> rest[1] == "")
    ensures var parts := [a] + ([b] + ([c] + rest));
      |parts| >= 4 && parts[..4] == [a, b, c, rest[0]] && (|parts| > 4 ==> parts[4] == "")
  {
  }

  lemma ShownParts(payload: string, iv: string, tag: string, ciphertext: string)
    requires IsEnvelope(payload, iv, tag, ciphertext)
    ensures IsPart(iv) && IsPart(tag) && IsPart(ciphertext)
    ensures ':' !in iv && ':' !in tag && ':' !in ciphertext && ':' !in "v1"
  {
  }

  lemma EmptyFirst(rest: string)
    requires rest == "" || rest[0] == ':'
    ensures Split(rest, ':')[0] == ""
  {
  }

  lemma PartsEnvelope(payload: string)
    requires var parts := Split(payload, ':');
      |parts| >= 4 && parts[0] == "v1" && parts[1] != "" && parts[2] != "" && parts[3] != ""
      && (|parts| > 4 ==> parts[4] == "")
    ensures var parts := Split(payload, ':'); IsEnvelope(payload, parts[1], parts[2], parts[3])
  {
    hide Split, IsEnvelope;
    var parts := Split(payload, ':');
    FirstPart(payload);
    var a :| payload == parts[0] + ":" + a && Split(a, ':') == parts[1..];
    FirstPart(a);
    var b :| a == parts[1] + ":" + b && Split(b, ':') == parts[2..];
    FirstPart(b);
    var c :| b == parts[2] + ":" + c && Split(c, ':') == parts[3..];
    FirstPart(c);
    var d := "";
    if |parts| > 4 {
      d :| c == parts[3] + ":" + d && Split(d, ':') == parts[4..];
      FirstPart(d);
    }
    var after := if |parts| == 4 then "" else ":" + d;
    assert c == parts[3] + after;
    RightToLeft(parts[1], parts[2], parts[3], after);
    assert after == "" || after == ":" || after[..2] == "::" by {
      if |parts| > 5 {
        var e :| d == parts[4] + ":" + e && Split(e, ':') == parts[5..];
        assert d[0] == ':';
      }
    }
    IsThisEnvelope(payload, parts[1], parts[2], parts[3], after);
  }

  lemma IsThisEnvelope(payload: string, iv: string, tag: string, ciphertext: string, after: string)
    requires IsPart(iv) && IsPart(tag) && IsPart(ciphertext)
    requires payload == ("v1:" + iv + ":" + tag + ":" + ciphertext) + after
    requires after == "" || after == ":" || (|after| >= 2 && after[..2] == "::")
    ensures IsEnvelope(payload, iv, tag, ciphertext)
  {
    var envelope := "v1:" + iv + ":" + tag + ":" + ciphertext;
    hide IsPart;
    if |after| >= 2 {
      assert payload[..|envelope| + 2] == envelope + after[..2];
    }
  }

  /** `decrypt` opens exactly the envelopes of version 1 with three non-empty parts; text after
      an empty fifth part goes unseen. */
  lemma DecryptExactly(c: Cipher, d: Decoder, payload: string)
    ensures forall iv, tag, ciphertext :: IsEnvelope(payload, iv, tag, ciphertext) ==>
      Decrypt(c, d, payload) == c.open(d(iv), d(tag), d(ciphertext))
    ensures (forall iv, tag, ciphertext :: !IsEnvelope(payload, iv, tag, ciphertext)) ==>
      Decrypt(c, d, payload) == BadEnvelope
  {
    hide Split, IsEnvelope;
    var parts := Split(payload, ':');
    forall iv, tag, ciphertext | IsEnvelope(payload, iv, tag, ciphertext)
      ensures Decrypt(c, d, payload) == c.open(d(iv), d(tag), d(ciphertext))
    {
      EnvelopeParts(payload, iv, tag, ciphertext);
      assert parts[0] == parts[..4][0] && parts[1] == parts[..4][1] && parts[2] == parts[..4][2]
        && parts[3] == parts[..4][3];
      ShownParts(payload, iv, tag, ciphertext);
    }
    if Decrypt(c, d, payload) != BadEnvelope { PartsEnvelope(payload); }
  }

  /** Text appended to an envelope after two colons goes unnoticed. */
  lemma AppendedTextIsIgnored(c: Cipher, d: Decoder, iv: seq<Byte>, plaintext: seq<Byte>, junk: string)
    requires Authenticated(c) && Decodes(d) && |iv| == 12 && plaintext != []
    ensures Decrypt(c, d, Encrypt(c, iv, plaintext) + "::" + junk) == Ok(plaintext)
  {
    var s := c.seal(iv, plaintext);
    var payload := Encrypt(c, iv, plaintext) + "::" + junk;
    DecryptEncrypt(c, d, iv, plaintext);
    NoColon(iv);
    NoColon(s.tag);
    NoColon(s.ciphertext);
    FrameIsSpelled(iv, s);
    hide Encode, Decrypt, Frame;
    assert payload[..|Encrypt(c, iv, plaintext) + "::"|] == Encrypt(c, iv, plaintext) + "::";
    DecryptExactly(c, d, payload);
    DecryptExactly(c, d, Encrypt(c, iv, plaintext));
    assert IsEnvelope(payload, Encode(iv), Encode(s.tag), Encode(s.ciphertext));
    assert IsEnvelope(Encrypt(c, iv, plaintext), Encode(iv), Encode(s.tag), Encode(s.ciphertext));
  }

  lemma FrameIsSpelled(iv: seq<Byte>, s: Sealed)
    ensures Frame(iv, s) == "v1:" + Encode(iv) + ":" + Encode(s.tag) + ":" + Encode(s.ciphertext)
  {
    hide Encode;
    var a, b, e := Encode(iv), Encode(s.tag), Encode(s.ciphertext);
    assert ["v1", a, b, e][1..] == [a, b, e] && [a, b, e][1..] == [b, e] && [b, e][1..] == [e];
    assert Join([b, e], ':') == b + [':'] + e;
    assert Join([a, b, e], ':') == a + [':'] + (b + [':'] + e);
    assert Frame(iv, s) == "v1" + [':'] + (a + [':'] + (b + [':'] + e));
  }

  /** An envelope tells its iv, tag and ciphertext. */
  lemma FrameIsInjective(iv: seq<Byte>, s: Sealed, iv2: seq<Byte>, s2: Sealed)
    ensures Frame(iv, s) == Frame(iv2, s2) <==> iv == iv2 && s == s2
  {
    if Frame(iv, s) == Frame(iv2, s2) {
      FrameParts(iv, s);
      FrameParts(iv2, s2);
      var parts := Split(Frame(iv, s), ':');
      assert parts[1] == Encode(iv) == Encode(iv2);
      assert parts[2] == Encode(s.tag) == Encode(s2.tag);
      assert parts[3] == Encode(s.ciphertext) == Encode(s2.ciphertext);
      DecodeEncode(iv);
      DecodeEncode(iv2);
      DecodeEncode(s.tag);
      DecodeEncode(s2.tag);
      DecodeEncode(s.ciphertext);
      DecodeEncode(s2.ciphertext);
    }
  }

  // ---------------------------------------------------------------- bytes

  /** "OVB1". */
  const MAGIC: seq<Byte> := [0x4F, 0x56, 0x42, 0x31]

  function EncryptBytes(c: Cipher, iv: seq<Byte>, plaintext: seq<Byte>): seq<Byte> {
    var s := c.seal(iv, plaintext);
    MAGIC + iv + s.tag + s.ciphertext
  }

  function DecryptBytes(c: Cipher, payload: seq<Byte>): Result<seq<Byte>> {
    if |payload| < 4 + 12 + 16 || payload[..4] != MAGIC then BadEnvelope
    else c.open(payload[4..16], payload[16..32], payload[32..])
  }

  /** The bytes of "OVB1", an iv of 12 bytes, a tag of 16, and the ciphertext. */
  predicate IsByteEnvelope(payload: seq<int>, iv: seq<int>, tag: seq<int>, ciphertext: seq<int>) {
    |iv| == 12 && |tag| == 16
    && payload == ['O' as int, 'V' as int, 'B' as int, '1' as int] + iv + tag + ciphertext
  }

  /** `decryptBytes` opens exactly the byte envelopes, and `encryptBytes` writes one. */
  lemma DecryptBytesExactly(c: Cipher, payload: seq<Byte>)
    ensures forall iv: seq<Byte>, tag: seq<Byte>, ciphertext: seq<Byte> ::
      IsByteEnvelope(payload, iv, tag, ciphertext) ==> DecryptBytes(c, payload) == c.open(iv, tag, ciphertext)
    ensures (forall iv: seq<Byte>, tag: seq<Byte>, ciphertext: seq<Byte> ::
      !IsByteEnvelope(payload, iv, tag, ciphertext)) ==> DecryptBytes(c, payload) == BadEnvelope
  {
    forall iv: seq<Byte>, tag: seq<Byte>, ciphertext: seq<Byte> | IsByteEnvelope(payload, iv, tag, ciphertext)
      ensures DecryptBytes(c, payload) == c.open(iv, tag, ciphertext)
    {
      assert payload[..4] == MAGIC && payload[4..16] == iv && payload[16..32] == tag && payload[32..] == ciphertext;
    }
    if |payload| >= 32 && payload[..4] == MAGIC {
      assert payload == payload[..4] + payload[4..16] + payload[16..32] + payload[32..];
      assert IsByteEnvelope(payload, payload[4..16], payload[16..32], payload[32..]);
    }
  }

  /** Any bytes come back from their byte envelope. */
  lemma DecryptEncryptBytes(c: Cipher, iv: seq<Byte>, plaintext: seq<Byte>)
    requires Authenticated(c) && |iv| == 12
    ensures DecryptBytes(c, EncryptBytes(c, iv, plaintext)) == Ok(plaintext)
    ensures var s := c.seal(iv, plaintext); IsByteEnvelope(EncryptBytes(c, iv, plaintext), iv, s.tag, s.ciphertext)
  {
    var s := c.seal(iv, plaintext);
    var payload := EncryptBytes(c, iv, plaintext);
    assert payload[..4] == MAGIC && payload[4..16] == iv && payload[16..32] == s.tag && payload[32..] == s.ciphertext;
  }
}
