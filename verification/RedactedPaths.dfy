/** What `redactJson` of apps/api/src/core/core-config-utils.ts hides and what it shows, told by
    the paths of the config, with the sensitive keys spelled out. */
module RedactedPaths {
  import opened Options
  import opened Text
  import opened CanonicalJson
  import opened Redaction

  /** `text` is `word`, written in lower case here, in any letter case. */
  predicate Like(text: string, word: string) {
    |text| == |word|
    && forall i :: 0 <= i < |text| ==>
         text[i] == word[i] || (65 <= text[i] as int <= 90 && word[i] as int == text[i] as int + 32)
  }

  predicate EndsLike(text: string, suffix: string) {
    |text| >= |suffix| && Like(text[|text| - |suffix|..], suffix)
  }

  /** The keys whose values must not be shown. */
  predicate NamesSecret(key: string) {
    || Like(key, "password") || Like(key, "secret") || Like(key, "token") || Like(key, "api_token")
    || Like(key, "zone_token") || Like(key, "access_key_secret") || Like(key, "security_token")
    || Like(key, "mac_key") || Like(key, "private_key") || Like(key, "key") || Like(key, "certificate")
    || Like(key, "account_key") || Like(key, "credential")
    || EndsLike(key, "_password") || EndsLike(key, "_secret") || EndsLike(key, "_token") || EndsLike(key, "_key")
  }

  predicate LowerCase(word: string) { forall i :: 0 <= i < |word| ==> !('A' <= word[i] <= 'Z') }

  lemma LikeIsLower(text: string, word: string)
    requires LowerCase(word)
    ensures Like(text, word) <==> Lower(text) == word
  {
    if Like(text, word) {
      forall i | 0 <= i < |text| ensures Lower(text)[i] == word[i] { assert LowerChar(text[i]) == word[i]; }
    }
    if Lower(text) == word {
      forall i | 0 <= i < |text|
        ensures text[i] == word[i] || (65 <= text[i] as int <= 90 && word[i] as int == text[i] as int + 32)
      {
        assert Lower(text)[i] == LowerChar(text[i]);
      }
    }
  }

  lemma EndsLikeIsLower(text: string, suffix: string)
    requires LowerCase(suffix)
    ensures EndsLike(text, suffix) <==> EndsWith(Lower(text), suffix)
  {
    if |text| >= |suffix| {
      LikeIsLower(text[|text| - |suffix|..], suffix);
      assert Lower(text)[|text| - |suffix|..] == Lower(text[|text| - |suffix|..]);
    }
  }

  lemma InSensitive(word: string)
    ensures word in SENSITIVE <==>
      || word == "password" || word == "secret" || word == "token" || word == "api_token" || word == "zone_token"
      || word == "access_key_secret" || word == "security_token" || word == "mac_key" || word == "private_key"
      || word == "key" || word == "certificate" || word == "account_key" || word == "credential"
  {
  }

  lemma LiteralKeys(key: string)
    ensures Lower(key) in SENSITIVE <==>
      || Like(key, "password") || Like(key, "secret") || Like(key, "token") || Like(key, "api_token")
      || Like(key, "zone_token") || Like(key, "access_key_secret") || Like(key, "security_token")
      || Like(key, "mac_key") || Like(key, "private_key") || Like(key, "key") || Like(key, "certificate")
      || Like(key, "account_key") || Like(key, "credential")
  {
    hide Like, Lower, SENSITIVE;
    InSensitive(Lower(key));
    LikeIsLower(key, "password"); LikeIsLower(key, "secret"); LikeIsLower(key, "token");
    LikeIsLower(key, "api_token"); LikeIsLower(key, "zone_token"); LikeIsLower(key, "access_key_secret");
    LikeIsLower(key, "security_token"); LikeIsLower(key, "mac_key"); LikeIsLower(key, "private_key");
    LikeIsLower(key, "key"); LikeIsLower(key, "certificate"); LikeIsLower(key, "account_key");
    LikeIsLower(key, "credential");
  }

  lemma SecretKeys(key: string)
    ensures IsSecret(key) <==> NamesSecret(key)
  {
    LiteralKeys(key);
    EmptyIsPublic();
    hide Like, EndsLike, EndsWith, Lower, SENSITIVE;
    ExceptionsNeverApply(key);
    EndsLikeIsLower(key, "_password"); EndsLikeIsLower(key, "_secret");
    EndsLikeIsLower(key, "_token"); EndsLikeIsLower(key, "_key");
  }

  lemma EmptyIsPublic()
    ensures !NamesSecret("")
  {
  }

  /** `/^https?:\/\//i` */
  predicate LooksLikeUrl(text: string) {
    (|text| >= 7 && Like(text[..7], "http://")) || (|text| >= 8 && Like(text[..8], "https://"))
  }

  lemma UrlsAreHttp(text: string)
    ensures LooksLikeUrl(text) <==> IsHttp(text)
  {
    if |text| >= 7 {
      LikeIsLower(text[..7], "http://");
      assert Lower(text)[..7] == Lower(text[..7]);
    }
    if |text| >= 8 {
      LikeIsLower(text[..8], "https://");
      assert Lower(text)[..8] == Lower(text[..8]);
    }
  }

  /** The value of a key that is not sensitive: null, numbers, booleans and strings that are
      no URLs as they are, arrays and objects as such. */
  predicate Shows(v: Json, w: Json, url: string -> string) {
    match v
    case Arr(_) => w.Arr?
    case Obj(_) => w.Obj?
    case Str(text) => if LooksLikeUrl(text) then w == Str(url(text)) else w == v
    case _ => w == v
  }

  /** Each of the thirteen keys, in any letter case, and each key with one of the four endings
      has its value hidden, whatever it is; no other key has. */
  lemma SecretsAreHidden(v: Json, key: string, url: string -> string)
    ensures var w := RedactJson(v, key, url);
      if || Like(key, "password") || Like(key, "secret") || Like(key, "token") || Like(key, "api_token")
         || Like(key, "zone_token") || Like(key, "access_key_secret") || Like(key, "security_token")
         || Like(key, "mac_key") || Like(key, "private_key") || Like(key, "key") || Like(key, "certificate")
         || Like(key, "account_key") || Like(key, "credential")
         || EndsLike(key, "_password") || EndsLike(key, "_secret") || EndsLike(key, "_token") || EndsLike(key, "_key")
      then w == Str("[REDACTED]")
      else Shows(v, w, url)
  {
    SecretKeys(key);
    if v.Str? { UrlsAreHttp(v.text); }
    hide Like, EndsLike, IsSecret, LooksLikeUrl, IsHttp;
  }

  // ---- paths ------------------------------------------------------------------------

  predicate SecretAt(path: seq<Into>, n: nat)
    requires n < |path|
  {
    path[n].Key? && NamesSecret(path[n].key)
  }

  /** No step of the path before the `n`th is to a sensitive key. */
  predicate Open(path: seq<Into>, n: nat)
    requires n <= |path|
  {
    forall m :: 0 <= m < n ==> !SecretAt(path, m)
  }

  lemma {:induction false} ItemAtRedacted(items: Items, i: nat, url: string -> string)
    ensures var a, b := ItemAt(items, i), ItemAt(RedactItems(items, url), i);
            (a.None? <==> b.None?) && (a.Some? ==> b.value == RedactJson(a.value, "", url))
  {
    hide RedactJson;
    if items.Item? && i > 0 { ItemAtRedacted(items.rest, i - 1, url); }
  }

  lemma {:induction false} FindRedacted(m: Members, key: string, url: string -> string)
    ensures var a, b := Find(m, key), Find(RedactMembers(m, url), key);
            (a.None? <==> b.None?) && (a.Some? ==> b.value == RedactJson(a.value, key, url))
  {
    hide RedactJson;
    if m.Member? && m.key != key { FindRedacted(m.rest, key, url); }
  }

  lemma {:induction false} ItemIsObject(items: Items, i: nat)
    requires AreObjects(items) && ItemAt(items, i).Some?
    ensures IsObject(ItemAt(items, i).value)
  {
    if i > 0 { ItemIsObject(items.rest, i - 1); }
  }

  lemma {:induction false} MemberIsObject(m: Members, key: string)
    requires HoldObjects(m) && Find(m, key).Some?
    ensures IsObject(Find(m, key).value)
  {
    if m.key != key { MemberIsObject(m.rest, key); }
  }

  /** The first step into a redacted value. */
  lemma StepInto(v: Json, key: string, into: Into, url: string -> string)
    requires IsObject(v) && !NamesSecret(key)
    ensures var a, b := At(v, [into]), At(RedactJson(v, key, url), [into]);
            (a.None? <==> b.None?)
            && (a.Some? ==>
              IsObject(a.value) && b.value == RedactJson(a.value, if into.Key? then into.key else "", url))
  {
    SecretKeys(key);
    if v.Arr? && into.Index? {
      ItemAtRedacted(v.items, into.i, url);
      if ItemAt(v.items, into.i).Some? { ItemIsObject(v.items, into.i); }
    } else if v.Obj? && into.Key? {
      RedactedMembers(v.members, url);
      FindRedacted(v.members, into.key, url);
      if Find(v.members, into.key).Some? { MemberIsObject(v.members, into.key); }
    }
    hide IsSecret, NamesSecret, Ordered;
  }

  lemma AtStep(v: Json, path: seq<Into>)
    requires path != []
    ensures At(v, path) == if At(v, path[..1]).None? then None else At(At(v, path[..1]).value, path[1..])
  {
    assert path[..1][0] == path[0] && path[..1][1..] == [];
  }

  /** A path meets a sensitive key for the first time at its `n`th step. */
  predicate FirstSecret(path: seq<Into>, n: nat)
    requires n < |path|
  {
    Open(path, n) && SecretAt(path, n)
  }

  lemma OpenTail(path: seq<Into>, n: nat)
    requires path != [] && n < |path| && !SecretAt(path, 0)
    ensures Open(path, n + 1) <==> Open(path[1..], n)
    ensures n > 0 ==> (SecretAt(path, n) <==> SecretAt(path[1..], n - 1))
  {
    hide NamesSecret;
    if Open(path[1..], n) {
      forall m | 0 <= m < n + 1 ensures !SecretAt(path, m) {
        if m > 0 { assert !SecretAt(path[1..], m - 1); }
      }
    }
    if Open(path, n + 1) {
      forall m | 0 <= m < n ensures !SecretAt(path[1..], m) { assert !SecretAt(path, m + 1); }
    }
  }

  /** Whatever the config: a path free of sensitive keys leads to what it led to, as redaction
      shows it, or to nothing if it led to nothing. */
  lemma {:induction false} OpenPathsShow(v: Json, key: string, path: seq<Into>, url: string -> string)
    requires IsObject(v) && !NamesSecret(key) && Open(path, |path|)
    ensures var a, b := At(v, path), At(RedactJson(v, key, url), path);
            (a.None? <==> b.None?) && (a.Some? ==> Shows(a.value, b.value, url))
    decreases |path|
  {
    if path == [] {
      SecretsAreHidden(v, key, url);
    } else {
      hide NamesSecret, RedactJson, Shows;
      var w := RedactJson(v, key, url);
      AtStep(v, path);
      AtStep(w, path);
      StepInto(v, key, path[0], url);
      assert path[..1] == [path[0]] && !SecretAt(path, 0);
      OpenTail(path, |path| - 1);
      EmptyIsPublic();
      var a := At(v, [path[0]]);
      if a.Some? { OpenPathsShow(a.value, if path[0].Key? then path[0].key else "", path[1..], url); }
    }
  }

  lemma TextIsLeaf(text: string, path: seq<Into>)
    requires path != []
    ensures At(Str(text), path).None?
  {
  }

  /** A path that comes to a sensitive key ends there, at "[REDACTED]", if it led to something. */
  lemma {:induction false} SecretPathsEnd(v: Json, key: string, path: seq<Into>, n: nat, url: string -> string)
    requires IsObject(v) && !NamesSecret(key) && n < |path| && FirstSecret(path, n)
    ensures var w := RedactJson(v, key, url);
            && At(w, path[..n + 1]) == (if At(v, path[..n + 1]).None? then None else Some(Str("[REDACTED]")))
            && (n + 1 < |path| ==> At(w, path).None?)
    decreases |path|
  {
    hide NamesSecret, RedactJson, Shows;
    var w, prefix := RedactJson(v, key, url), path[..n + 1];
    AtStep(v, prefix);
    AtStep(w, prefix);
    AtStep(w, path);
    assert prefix[..1] == [path[0]] && path[..1] == [path[0]] && prefix[1..] == path[1..][..n];
    StepInto(v, key, path[0], url);
    var a := At(v, [path[0]]);
    if a.Some? {
      var inner := if path[0].Key? then path[0].key else "";
      if n == 0 {
        HiddenValue(a.value, inner, url);
        if |path| > 1 { TextIsLeaf("[REDACTED]", path[1..]); }
      } else {
        assert !SecretAt(path, 0);
        EmptyIsPublic();
        OpenTail(path, n);
        OpenTail(path, n - 1);
        SecretPathsEnd(a.value, inner, path[1..], n - 1, url);
      }
    }
  }

  lemma HiddenValue(v: Json, key: string, url: string -> string)
    requires NamesSecret(key)
    ensures RedactJson(v, key, url) == Str("[REDACTED]")
  {
    SecretsAreHidden(v, key, url);
    hide Like, EndsLike;
  }
}
