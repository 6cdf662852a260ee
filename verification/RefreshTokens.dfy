/** Refresh-token families: apps/api/src/auth/auth.service.ts (`login`, `refresh`,
    `logout`, `disableTotp`). A `$transaction` is one step, except that `refresh`
    may be interrupted between reading the token and claiming it. Passwords, TOTP
    codes, random ids and tokens are inputs. */
module RefreshTokens {
  import opened Options

  type AdminId = nat
  type TokenId = nat
  type Hash = string
  type FamilyId = nat
  type Time = int

  datatype Reason = REUSE_DETECTED | EXPIRED | ACCOUNT_INACTIVE | ROTATED | LOGOUT | TOTP_DISABLED

  datatype Revocation = Revocation(at: Time, reason: Reason)

  datatype Admin = Admin(active: bool, totp: bool)

  datatype Token = Token(
    admin: AdminId,
    hash: Hash,
    family: FamilyId,
    expiresAt: Time,
    revoked: Option<Revocation>,
    replacedBy: Option<TokenId>)

  /** The two tables. `tokenHash` has a unique index. */
  datatype Db = Db(admins: map<AdminId, Admin>, tokens: map<TokenId, Token>)

  predicate HashesUnique(tokens: map<TokenId, Token>) {
    forall i, j :: i in tokens && j in tokens && tokens[i].hash == tokens[j].hash ==> i == j
  }

  predicate HashUsed(tokens: map<TokenId, Token>, hash: Hash) {
    exists id :: id in tokens && tokens[id].hash == hash
  }

  /** `findUnique` by token hash. */
  function FindByHash(tokens: map<TokenId, Token>, hash: Hash): (found: Option<TokenId>)
    requires HashesUnique(tokens)
    ensures found.Some? ==> found.value in tokens && tokens[found.value].hash == hash
    ensures found.None? <==> !HashUsed(tokens, hash)
  {
    if HashUsed(tokens, hash) then
      var id :| id in tokens && tokens[id].hash == hash;
      Some(id)
    else None
  }

  function Revoke(token: Token, at: Time, reason: Reason): Token {
    token.(revoked := Some(Revocation(at, reason)))
  }

  /** `updateMany` of the unrevoked tokens of a family. */
  function RevokeFamily(tokens: map<TokenId, Token>, family: FamilyId, at: Time, reason: Reason): map<TokenId, Token> {
    map id | id in tokens ::
      if tokens[id].family == family && tokens[id].revoked.None? then Revoke(tokens[id], at, reason) else tokens[id]
  }

  /** `updateMany` of the unrevoked tokens of an admin. */
  function RevokeAdmin(tokens: map<TokenId, Token>, admin: AdminId, at: Time, reason: Reason): map<TokenId, Token> {
    map id | id in tokens ::
      if tokens[id].admin == admin && tokens[id].revoked.None? then Revoke(tokens[id], at, reason) else tokens[id]
  }

  // ---- login, logout, disableTotp ---------------------------------------------

  datatype Session = Session(id: TokenId, hash: Hash, family: FamilyId, expiresAt: Time)

  datatype LoginResult = InvalidCredentials | AccountInactive | TotpRequired | TotpInvalid | ServerError | LoggedIn

  /** What `login` answers before it writes; `code` is whether the given TOTP code is right. */
  function LoginCheck(admin: Option<Admin>, passwordValid: bool, code: Option<bool>): LoginResult {
    if admin.None? || !passwordValid then InvalidCredentials
    else if !admin.value.active then AccountInactive
    else if admin.value.totp && code.None? then TotpRequired
    else if admin.value.totp && !code.value then TotpInvalid
    else LoggedIn
  }

  function Lookup(admins: map<AdminId, Admin>, id: AdminId): Option<Admin> {
    if id in admins then Some(admins[id]) else None
  }

  function NewToken(admin: AdminId, session: Session): Token {
    Token(admin, session.hash, session.family, session.expiresAt, None, None)
  }

  function AfterLogin(db: Db, admin: AdminId, passwordValid: bool, code: Option<bool>, session: Session)
      : (Db, LoginResult)
  {
    var check := LoginCheck(Lookup(db.admins, admin), passwordValid, code);
    if !check.LoggedIn? then (db, check)
    else if session.id in db.tokens || HashUsed(db.tokens, session.hash) then (db, ServerError)
    else (db.(tokens := db.tokens[session.id := NewToken(admin, session)]), LoggedIn)
  }

  function AfterLogout(db: Db, admin: AdminId, presented: Option<Hash>, now: Time): Db
    requires HashesUnique(db.tokens)
  {
    if presented.None? then db.(tokens := RevokeAdmin(db.tokens, admin, now, LOGOUT))
    else
      var stored := FindByHash(db.tokens, presented.value);
      if stored.Some? && db.tokens[stored.value].admin == admin
      then db.(tokens := RevokeFamily(db.tokens, db.tokens[stored.value].family, now, LOGOUT))
      else db
  }

  function AfterDisableTotp(db: Db, admin: AdminId, passwordValid: bool, codeValid: bool, now: Time): Db {
    if admin !in db.admins || !db.admins[admin].active || !passwordValid || !db.admins[admin].totp || !codeValid then db
    else Db(db.admins[admin := db.admins[admin].(totp := false)], RevokeAdmin(db.tokens, admin, now, TOTP_DISABLED))
  }

  // ---- refresh ------------------------------------------------------------------

  /** What the first query of `refresh` returned. */
  datatype Read = NotFound | Found(id: TokenId, token: Token, adminActive: bool)

  datatype RefreshKind = Invalid | Reuse | Inactive | Failed | Success

  function ReadToken(db: Db, hash: Hash): Read
    requires HashesUnique(db.tokens)
  {
    var found := FindByHash(db.tokens, hash);
    if found.None? then NotFound
    else
      var token := db.tokens[found.value];
      Found(found.value, token, token.admin in db.admins && db.admins[token.admin].active)
  }

  /** The rest of the transaction, on tables that may have changed since `read`. */
  function FinishRefresh(db: Db, read: Read, now: Time, session: Session): (Db, RefreshKind)
    requires read.Found? ==> read.id in db.tokens
  {
    if read.NotFound? then (db, Invalid)
    else
      var current := read.token;
      if current.revoked.Some? || current.replacedBy.Some? then
        (db.(tokens := RevokeFamily(db.tokens, current.family, now, REUSE_DETECTED)), Reuse)
      else if current.expiresAt <= now then
        (db.(tokens := db.tokens[read.id := Revoke(db.tokens[read.id], now, EXPIRED)]), Invalid)
      else if !read.adminActive then
        (db.(tokens := RevokeFamily(db.tokens, current.family, now, ACCOUNT_INACTIVE)), Inactive)
      else
        var row := db.tokens[read.id];
        if row.revoked.Some? || row.replacedBy.Some? || row.expiresAt <= now then
          (db.(tokens := RevokeFamily(db.tokens, current.family, now, REUSE_DETECTED)), Reuse)
        else if session.id in db.tokens || HashUsed(db.tokens, session.hash) then
          (db, Failed) // the insert violates a key; the transaction rolls back
        else
          var rotated := Revoke(row, now, ROTATED).(replacedBy := Some(session.id));
          var replacement := NewToken(current.admin, session.(family := current.family));
          (db.(tokens := db.tokens[session.id := replacement][read.id := rotated]), Success)
  }

  /** `refresh` as one transaction. */
  function AfterRefresh(db: Db, hash: Hash, now: Time, session: Session): (Db, RefreshKind)
    requires HashesUnique(db.tokens)
  {
    FinishRefresh(db, ReadToken(db, hash), now, session)
  }

  // ---- what a login answers ----------------------------------------------------------

  /** Nothing stands against a login: an active admin, the right password and, where TOTP is
      on, the right code. */
  predicate MayEnter(admins: map<AdminId, Admin>, admin: AdminId, passwordValid: bool, code: Option<bool>) {
    admin in admins && admins[admin].active && passwordValid && (admins[admin].totp ==> code == Some(true))
  }

  /** Neither the id nor the hash is that of a token in the table. */
  ghost predicate Unused(tokens: map<TokenId, Token>, session: Session) {
    forall id :: id in tokens ==> id != session.id && tokens[id].hash != session.hash
  }

  /** Every answer of a login exactly when it is given, and what it writes. */
  ghost predicate LoginMeans(s: Db, t: Db, result: LoginResult, admin: AdminId, passwordValid: bool,
                             code: Option<bool>, session: Session)
  {
    var known := admin in s.admins && passwordValid;
    && (result == InvalidCredentials <==> !known)
    && (result == AccountInactive <==> known && !s.admins[admin].active)
    && (result == TotpRequired <==> known && s.admins[admin].active && s.admins[admin].totp && code == None)
    && (result == TotpInvalid <==> known && s.admins[admin].active && s.admins[admin].totp && code == Some(false))
    && (result == ServerError <==> MayEnter(s.admins, admin, passwordValid, code) && !Unused(s.tokens, session))
    && (result == LoggedIn <==> MayEnter(s.admins, admin, passwordValid, code) && Unused(s.tokens, session))
    && t.admins == s.admins
    && t.tokens ==
         if result == LoggedIn
         then s.tokens[session.id := Token(admin, session.hash, session.family, session.expiresAt, None, None)]
         else s.tokens
  }

  lemma LoginExactly(db: Db, admin: AdminId, passwordValid: bool, code: Option<bool>, session: Session)
    ensures var (after, result) := AfterLogin(db, admin, passwordValid, code, session);
            LoginMeans(db, after, result, admin, passwordValid, code, session)
  {
    assert session.id in db.tokens || HashUsed(db.tokens, session.hash) <==> !Unused(db.tokens, session);
    hide Unused, HashUsed;
  }

  // ---- the service ----------------------------------------------------------------

  lemma SameHashes(s: map<TokenId, Token>, t: map<TokenId, Token>, hash: Hash)
    requires s.Keys == t.Keys && forall id :: id in s ==> s[id].hash == t[id].hash
    ensures HashUsed(s, hash) <==> HashUsed(t, hash)
  {
    if HashUsed(s, hash) {
      var id :| id in s && s[id].hash == hash;
      assert id in t && t[id].hash == hash;
    }
  }

  class AuthService {
    var admins: map<AdminId, Admin>
    var tokens: map<TokenId, Token>

    function Tables(): Db
      reads this
    {
      Db(admins, tokens)
    }

    method CreateToken(admin: AdminId, session: Session) returns (created: bool)
      modifies this`tokens
      ensures created == !(session.id in old(tokens) || HashUsed(old(tokens), session.hash))
      ensures tokens == if created then old(tokens)[session.id := NewToken(admin, session)] else old(tokens)
    {
      created := session.id !in tokens && !HashUsed(tokens, session.hash);
      if created {
        tokens := tokens[session.id := NewToken(admin, session)];
      }
    }

    method Login(admin: AdminId, passwordValid: bool, code: Option<bool>, session: Session)
        returns (result: LoginResult)
      modifies this
      ensures (Tables(), result) == AfterLogin(old(Tables()), admin, passwordValid, code, session)
      ensures LoginMeans(old(Tables()), Tables(), result, admin, passwordValid, code, session)
    {
      LoginExactly(Tables(), admin, passwordValid, code, session);
      result := LoginCheck(Lookup(admins, admin), passwordValid, code);
      if result.LoggedIn? {
        var created := CreateToken(admin, session);
        if !created { result := ServerError; }
      }
    }

    method Refresh(hash: Hash, now: Time, session: Session) returns (kind: RefreshKind)
      requires HashesUnique(tokens)
      modifies this
      ensures (Tables(), kind) == AfterRefresh(old(Tables()), hash, now, session)
    {
      var found := FindByHash(tokens, hash);
      if found.None? { return Invalid; }
      var id := found.value;
      var current := tokens[id];
      if current.revoked.Some? || current.replacedBy.Some? {
        tokens := RevokeFamily(tokens, current.family, now, REUSE_DETECTED);
        return Reuse;
      }
      if current.expiresAt <= now {
        tokens := tokens[id := Revoke(current, now, EXPIRED)];
        return Invalid;
      }
      if current.admin !in admins || !admins[current.admin].active {
        tokens := RevokeFamily(tokens, current.family, now, ACCOUNT_INACTIVE);
        return Inactive;
      }
      var before := tokens;
      tokens := tokens[id := Revoke(current, now, ROTATED)];
      assert HashUsed(tokens, session.hash) <==> HashUsed(before, session.hash) by {
        SameHashes(before, tokens, session.hash);
      }
      var created := CreateToken(current.admin, session.(family := current.family));
      if !created {
        tokens := before;
        return Failed;
      }
      tokens := tokens[id := tokens[id].(replacedBy := Some(session.id))];
      assert tokens == before[session.id := NewToken(current.admin, session.(family := current.family))]
                             [id := Revoke(current, now, ROTATED).(replacedBy := Some(session.id))];
      kind := Success;
    }

    method Logout(admin: AdminId, presented: Option<Hash>, now: Time)
      requires HashesUnique(tokens)
      modifies this
      ensures Tables() == AfterLogout(old(Tables()), admin, presented, now)
    {
      if presented.Some? {
        var stored := FindByHash(tokens, presented.value);
        if stored.Some? && tokens[stored.value].admin == admin {
          tokens := RevokeFamily(tokens, tokens[stored.value].family, now, LOGOUT);
        }
      } else {
        tokens := RevokeAdmin(tokens, admin, now, LOGOUT);
      }
    }

    method DisableTotp(admin: AdminId, passwordValid: bool, codeValid: bool, now: Time) returns (done: bool)
      modifies this
      ensures Tables() == AfterDisableTotp(old(Tables()), admin, passwordValid, codeValid, now)
      ensures done <==>
        admin in old(admins) && old(admins)[admin].active && old(admins)[admin].totp && passwordValid && codeValid
    {
      if admin !in admins || !admins[admin].active { return false; }
      if !passwordValid || !admins[admin].totp || !codeValid { return false; }
      admins := admins[admin := admins[admin].(totp := false)];
      tokens := RevokeAdmin(tokens, admin, now, TOTP_DISABLED);
      done := true;
    }
  }

  // ---- token families -------------------------------------------------------------

  predicate Live(token: Token) { token.revoked.None? }

  predicate InFamily(tokens: map<TokenId, Token>, id: TokenId, family: FamilyId) {
    id in tokens && tokens[id].family == family
  }

  ghost predicate FamilyExists(tokens: map<TokenId, Token>, family: FamilyId) {
    exists id :: InFamily(tokens, id, family)
  }

  ghost predicate Dead(tokens: map<TokenId, Token>, family: FamilyId) {
    forall id :: InFamily(tokens, id, family) ==> !Live(tokens[id])
  }

  /** `chain` lists the tokens of `family`, each once, oldest first: each one but the last is
      revoked and replaced by the next, the last by none, and all belong to one admin. */
  ghost predicate IsChain(tokens: map<TokenId, Token>, family: FamilyId, chain: seq<TokenId>) {
    && chain != []
    && (forall i, j :: 0 <= i < j < |chain| ==> chain[i] != chain[j])
    && (forall id :: InFamily(tokens, id, family) ==> id in chain)
    && (forall i :: 0 <= i < |chain| ==> InFamily(tokens, chain[i], family))
    && (forall i :: 0 <= i < |chain| ==> tokens[chain[i]].admin == tokens[chain[0]].admin)
    && (forall i :: 0 <= i < |chain| - 1 ==> !Live(tokens[chain[i]]))
    && (forall i :: 0 <= i < |chain| - 1 ==> tokens[chain[i]].replacedBy == Some(chain[i + 1]))
    && tokens[chain[|chain| - 1]].replacedBy.None?
  }

  // ---- runs, with refreshes that overlap --------------------------------------------

  /** `pending` are the refreshes that have read their token and not finished; `chains` and
      `refreshed` are history: the tokens of each family in order, and the hashes of the
      tokens whose refresh succeeded. */
  datatype State = State(
    db: Db,
    pending: map<nat, Read>,
    chains: map<FamilyId, seq<TokenId>>,
    refreshed: seq<Hash>)

  datatype Step =
    | DoLogin(admin: AdminId, passwordValid: bool, code: Option<bool>, session: Session)
    | BeginRefresh(request: nat, hash: Hash)
    | EndRefresh(request: nat, now: Time, session: Session)
    | DoLogout(admin: AdminId, presented: Option<Hash>, now: Time)
    | DoDisableTotp(admin: AdminId, passwordValid: bool, codeValid: bool, now: Time)
    | SetAdmin(admin: AdminId, value: Admin)

  ghost function Next(s: State, step: Step): (t: Option<State>)
    requires Inv(s)
  {
    match step
    case DoLogin(admin, passwordValid, code, session) =>
      // the family id is a fresh random UUID
      if session.family in s.chains then None
      else
        var (db, result) := AfterLogin(s.db, admin, passwordValid, code, session);
        Some(s.(db := db, chains := if result.LoggedIn? then s.chains[session.family := [session.id]] else s.chains))
    case BeginRefresh(request, hash) =>
      Some(s.(pending := s.pending[request := ReadToken(s.db, hash)]))
    case EndRefresh(request, now, session) =>
      if request !in s.pending then None
      else
        var read := s.pending[request];
        var (db, kind) := FinishRefresh(s.db, read, now, session);
        var t := s.(db := db, pending := s.pending - {request});
        Some(if kind.Success? then
               t.(chains := s.chains[read.token.family := s.chains[read.token.family] + [session.id]],
                  refreshed := s.refreshed + [read.token.hash])
             else t)
    case DoLogout(admin, presented, now) => Some(s.(db := AfterLogout(s.db, admin, presented, now)))
    case DoDisableTotp(admin, passwordValid, codeValid, now) =>
      Some(s.(db := AfterDisableTotp(s.db, admin, passwordValid, codeValid, now)))
    case SetAdmin(admin, value) => Some(s.(db := s.db.(admins := s.db.admins[admin := value])))
  }

  // ---- invariant ----------------------------------------------------------------------

  ghost predicate ChainsInv(tokens: map<TokenId, Token>, chains: map<FamilyId, seq<TokenId>>) {
    && (forall id :: id in tokens ==> tokens[id].family in chains)
    && (forall family :: family in chains ==> IsChain(tokens, family, chains[family]))
  }

  /** What was read is still there, with the same owner, hash and family. */
  predicate ReadInv(tokens: map<TokenId, Token>, read: Read) {
    read.Found? ==>
      && read.id in tokens
      && read.token.admin == tokens[read.id].admin
      && read.token.hash == tokens[read.id].hash
      && read.token.family == tokens[read.id].family
  }

  predicate Rotated(tokens: map<TokenId, Token>, hash: Hash) {
    exists id :: id in tokens && tokens[id].hash == hash && tokens[id].replacedBy.Some?
  }

  predicate RefreshedInv(tokens: map<TokenId, Token>, refreshed: seq<Hash>) {
    && (forall i, j :: 0 <= i < j < |refreshed| ==> refreshed[i] != refreshed[j])
    && (forall i :: 0 <= i < |refreshed| ==> Rotated(tokens, refreshed[i]))
  }

  ghost predicate Inv(s: State) {
    && HashesUnique(s.db.tokens)
    && ChainsInv(s.db.tokens, s.chains)
    && (forall request :: request in s.pending ==> ReadInv(s.db.tokens, s.pending[request]))
    && RefreshedInv(s.db.tokens, s.refreshed)
  }

  // ---- every step keeps it ---------------------------------------------------------------

  /** `t` differs from `s` only in revocations that were added or overwritten. */
  predicate OnlyRevokes(s: map<TokenId, Token>, t: map<TokenId, Token>) {
    t.Keys == s.Keys
    && forall id :: id in s ==> t[id] == s[id] || (!Live(t[id]) && t[id] == s[id].(revoked := t[id].revoked))
  }

  lemma RevokingKeepsChains(s: map<TokenId, Token>, t: map<TokenId, Token>, chains: map<FamilyId, seq<TokenId>>)
    requires OnlyRevokes(s, t) && ChainsInv(s, chains)
    ensures ChainsInv(t, chains)
  {
    forall family | family in chains ensures IsChain(t, family, chains[family]) {
      RevokingKeepsChain(s, t, family, chains[family]);
    }
  }

  lemma RevokingKeepsChain(s: map<TokenId, Token>, t: map<TokenId, Token>, family: FamilyId, chain: seq<TokenId>)
    requires OnlyRevokes(s, t) && IsChain(s, family, chain)
    ensures IsChain(t, family, chain)
  {
    assert forall id :: InFamily(t, id, family) <==> InFamily(s, id, family);
  }

  lemma RotatedKept(s: map<TokenId, Token>, t: map<TokenId, Token>, hash: Hash)
    requires Rotated(s, hash)
    requires forall id :: id in s && s[id].replacedBy.Some? ==>
               id in t && t[id].hash == s[id].hash && t[id].replacedBy == s[id].replacedBy
    ensures Rotated(t, hash)
  {
    var id :| id in s && s[id].hash == hash && s[id].replacedBy.Some?;
    assert id in t && t[id].hash == hash;
  }

  lemma RevokingKeepsReads(s: map<TokenId, Token>, t: map<TokenId, Token>, read: Read)
    requires OnlyRevokes(s, t) && ReadInv(s, read)
    ensures ReadInv(t, read)
  {
  }

  lemma RevokingKeepsHashes(s: map<TokenId, Token>, t: map<TokenId, Token>)
    requires OnlyRevokes(s, t) && HashesUnique(s)
    ensures HashesUnique(t)
  {
  }

  lemma RevokingKeepsInv(s: State, t: State)
    requires Inv(s) && OnlyRevokes(s.db.tokens, t.db.tokens)
    requires t.chains == s.chains && t.refreshed == s.refreshed
    requires forall r :: r in t.pending ==> ReadInv(s.db.tokens, t.pending[r])
    ensures Inv(t)
  {
    hide ChainsInv, Rotated, ReadInv, HashesUnique;
    RevokingKeepsHashes(s.db.tokens, t.db.tokens);
    RevokingKeepsChains(s.db.tokens, t.db.tokens, s.chains);
    forall i | 0 <= i < |s.refreshed| ensures Rotated(t.db.tokens, s.refreshed[i]) {
      RotatedKept(s.db.tokens, t.db.tokens, s.refreshed[i]);
    }
    forall r | r in t.pending ensures ReadInv(t.db.tokens, t.pending[r]) {
      RevokingKeepsReads(s.db.tokens, t.db.tokens, t.pending[r]);
    }
  }

  // ---- a new token ---------------------------------------------------------------------------

  /** `t` has one more token, under a new id and a new hash; `id`, when given, is rotated into it. */
  predicate Adds(s: map<TokenId, Token>, t: map<TokenId, Token>, newId: TokenId, rotated: Option<TokenId>) {
    && newId !in s && t.Keys == s.Keys + {newId}
    && !HashUsed(s, t[newId].hash) && t[newId].replacedBy.None?
    && (forall i :: i in s && rotated != Some(i) ==> t[i] == s[i])
    && (rotated.Some? ==>
          var id := rotated.value;
          && id in s && Live(s[id]) && s[id].replacedBy.None?
          && !Live(t[id]) && t[id] == s[id].(revoked := t[id].revoked, replacedBy := Some(newId))
          && t[newId].family == s[id].family && t[newId].admin == s[id].admin)
  }

  /** Families other than the new token's are untouched. */
  lemma OtherChainsKept(s: map<TokenId, Token>, t: map<TokenId, Token>, newId: TokenId, rotated: Option<TokenId>,
                        family: FamilyId, chain: seq<TokenId>)
    requires Adds(s, t, newId, rotated) && t[newId].family != family && IsChain(s, family, chain)
    ensures IsChain(t, family, chain)
  {
    assert forall id :: InFamily(s, id, family) ==> t[id] == s[id];
    assert forall id :: InFamily(t, id, family) <==> InFamily(s, id, family);
  }

  lemma InnerAreReplaced(s: map<TokenId, Token>, family: FamilyId, chain: seq<TokenId>)
    requires IsChain(s, family, chain)
    ensures forall i :: 0 <= i < |chain| - 1 ==> InFamily(s, chain[i], family) && s[chain[i]].replacedBy.Some?
  {
    forall i | 0 <= i < |chain| - 1 ensures InFamily(s, chain[i], family) && s[chain[i]].replacedBy.Some? {
      assert s[chain[i]].replacedBy == Some(chain[i + 1]);
    }
  }

  /** A token that was never replaced is the last of its chain. */
  lemma UnreplacedIsLast(s: map<TokenId, Token>, id: TokenId, chain: seq<TokenId>)
    requires id in s && s[id].replacedBy.None? && IsChain(s, s[id].family, chain)
    ensures chain[|chain| - 1] == id
  {
    assert InFamily(s, id, s[id].family);
    InnerAreReplaced(s, s[id].family, chain);
    var at :| 0 <= at < |chain| && chain[at] == id;
    assert s[chain[at]].replacedBy.None?;
  }

  lemma RotationExtendsChain(s: map<TokenId, Token>, t: map<TokenId, Token>, newId: TokenId, id: TokenId,
      chain: seq<TokenId>)
    requires Adds(s, t, newId, Some(id)) && IsChain(s, s[id].family, chain)
    ensures IsChain(t, s[id].family, chain + [newId])
  {
    hide HashUsed;
    var family := s[id].family;
    var n := |chain|;
    var longer := chain + [newId];
    UnreplacedIsLast(s, id, chain);
    forall i | 0 <= i < n
      ensures InFamily(t, longer[i], family) && t[longer[i]].admin == t[newId].admin && !Live(t[longer[i]])
      ensures longer[i] == chain[i] != newId && t[longer[i]].replacedBy == Some(longer[i + 1])
    {
      assert InFamily(s, chain[i], family);
      if i < n - 1 { assert s[chain[i]].replacedBy == Some(chain[i + 1]) && chain[i] != chain[n - 1]; }
    }
    forall i | InFamily(t, i, family) ensures i in longer {
      if i != newId { assert InFamily(s, i, family); }
    }
  }

  lemma AddingKeepsHashes(s: map<TokenId, Token>, t: map<TokenId, Token>, newId: TokenId, rotated: Option<TokenId>)
    requires HashesUnique(s) && Adds(s, t, newId, rotated)
    ensures HashesUnique(t)
  {
    assert forall i :: i in s ==> t[i].hash == s[i].hash && s[i].hash != t[newId].hash;
  }

  /** Login starts a chain in a fresh family; a rotation extends the chain of its family. */
  lemma AddingKeepsChains(s: map<TokenId, Token>, t: map<TokenId, Token>, newId: TokenId, rotated: Option<TokenId>,
                          chains: map<FamilyId, seq<TokenId>>, longer: map<FamilyId, seq<TokenId>>)
    requires ChainsInv(s, chains) && Adds(s, t, newId, rotated)
    requires longer == chains[t[newId].family := if rotated.Some? then chains[t[newId].family] + [newId] else [newId]]
    requires rotated.None? ==> t[newId].family !in chains
    ensures ChainsInv(t, longer)
  {
    hide IsChain, HashUsed;
    var grown := t[newId].family;
    if rotated.Some? {
      RotationExtendsChain(s, t, newId, rotated.value, chains[grown]);
    } else {
      LoginStartsChain(s, t, newId);
    }
    forall family | family in longer && family != grown ensures IsChain(t, family, longer[family]) {
      OtherChainsKept(s, t, newId, rotated, family, chains[family]);
    }
  }

  lemma LoginStartsChain(s: map<TokenId, Token>, t: map<TokenId, Token>, newId: TokenId)
    requires Adds(s, t, newId, None) && !FamilyExists(s, t[newId].family)
    ensures IsChain(t, t[newId].family, [newId])
  {
    assert forall i :: InFamily(t, i, t[newId].family) && i != newId ==> InFamily(s, i, t[newId].family);
  }

  lemma AddingKeepsInv(s: State, t: State, newId: TokenId, rotated: Option<TokenId>)
    requires Inv(s) && Adds(s.db.tokens, t.db.tokens, newId, rotated)
    requires rotated.None? ==> t.db.tokens[newId].family !in s.chains
    requires t.chains == s.chains[t.db.tokens[newId].family :=
               if rotated.Some? then s.chains[t.db.tokens[newId].family] + [newId] else [newId]]
    requires t.refreshed == if rotated.Some? then s.refreshed + [s.db.tokens[rotated.value].hash] else s.refreshed
    requires t.pending.Keys <= s.pending.Keys && forall r :: r in t.pending ==> t.pending[r] == s.pending[r]
    ensures Inv(t)
  {
    hide ChainsInv, HashesUnique;
    AddingKeepsHashes(s.db.tokens, t.db.tokens, newId, rotated);
    AddingKeepsChains(s.db.tokens, t.db.tokens, newId, rotated, s.chains, t.chains);
    forall i | 0 <= i < |s.refreshed| ensures Rotated(t.db.tokens, s.refreshed[i]) {
      RotatedKept(s.db.tokens, t.db.tokens, s.refreshed[i]);
    }
  }

  // ---- every step keeps the invariant --------------------------------------------------------

  lemma LoginKeepsInv(s: State, step: Step)
    requires Inv(s) && step.DoLogin? && Next(s, step).Some?
    ensures Inv(Next(s, step).value)
  {
    hide Inv;
    var t := Next(s, step).value;
    if t.db.tokens == s.db.tokens {
      assert t.chains == s.chains ==> t == s;
    }
    if AfterLogin(s.db, step.admin, step.passwordValid, step.code, step.session).1.LoggedIn? {
      AddingKeepsInv(s, t, step.session.id, None);
    }
  }

  /** A finished refresh rotates the token it read, or only revokes. */
  lemma FinishRotatesOrRevokes(db: Db, read: Read, now: Time, session: Session)
    requires ReadInv(db.tokens, read)
    ensures var (after, kind) := FinishRefresh(db, read, now, session);
            && after.admins == db.admins
            && (kind.Success? ==> read.Found? && Adds(db.tokens, after.tokens, session.id, Some(read.id)))
            && (!kind.Success? ==> OnlyRevokes(db.tokens, after.tokens))
  {
    hide HashUsed;
  }

  lemma EndRefreshKeepsInv(s: State, step: Step)
    requires Inv(s) && step.EndRefresh? && Next(s, step).Some?
    ensures Inv(Next(s, step).value)
  {
    var t := Next(s, step).value;
    var read := s.pending[step.request];
    assert ReadInv(s.db.tokens, read) && (read.Found? ==> read.id in s.db.tokens);
    hide ChainsInv, HashesUnique, RefreshedInv, FinishRefresh, Adds, OnlyRevokes, ReadInv;
    FinishRotatesOrRevokes(s.db, read, step.now, step.session);
    if FinishRefresh(s.db, read, step.now, step.session).1.Success? {
      RotatedIdentity(s.db.tokens, t.db.tokens, read, step.session.id);
      AddingKeepsInv(s, t, step.session.id, Some(read.id));
    } else {
      RevokingKeepsInv(s, t);
    }
  }

  lemma RotatedIdentity(s: map<TokenId, Token>, t: map<TokenId, Token>, read: Read, newId: TokenId)
    requires read.Found? && ReadInv(s, read) && Adds(s, t, newId, Some(read.id))
    ensures read.id in s && newId in t && t[newId].family == read.token.family && s[read.id].hash == read.token.hash
  {
  }

  lemma LogoutOnlyRevokes(db: Db, admin: AdminId, presented: Option<Hash>, now: Time)
    requires HashesUnique(db.tokens)
    ensures OnlyRevokes(db.tokens, AfterLogout(db, admin, presented, now).tokens)
  {
    hide HashUsed;
  }

  lemma DisableTotpOnlyRevokes(db: Db, admin: AdminId, passwordValid: bool, codeValid: bool, now: Time)
    ensures OnlyRevokes(db.tokens, AfterDisableTotp(db, admin, passwordValid, codeValid, now).tokens)
  {
  }

  lemma ReadTokenIsThere(db: Db, hash: Hash)
    requires HashesUnique(db.tokens)
    ensures ReadInv(db.tokens, ReadToken(db, hash))
  {
  }

  lemma OtherStepKeepsInv(s: State, step: Step)
    requires Inv(s) && !step.DoLogin? && !step.EndRefresh? && Next(s, step).Some?
    ensures Inv(Next(s, step).value)
  {
    hide ChainsInv, HashesUnique, RefreshedInv, AfterLogout, AfterDisableTotp, ReadToken, ReadInv;
    var t := Next(s, step).value;
    match step {
      case BeginRefresh(_, hash) => ReadTokenIsThere(s.db, hash);
      case DoLogout(admin, presented, now) => LogoutOnlyRevokes(s.db, admin, presented, now);
      case DoDisableTotp(admin, p, c, now) => DisableTotpOnlyRevokes(s.db, admin, p, c, now);
      case _ =>
    }
    RevokingKeepsInv(s, t);
  }

  lemma NextKeepsInv(s: State, step: Step)
    requires Inv(s) && Next(s, step).Some?
    ensures Inv(Next(s, step).value)
  {
    hide Inv, Next;
    match step {
      case DoLogin(_, _, _, _) => LoginKeepsInv(s, step);
      case EndRefresh(_, _, _) => EndRefreshKeepsInv(s, step);
      case _ => OtherStepKeepsInv(s, step);
    }
  }

  // ---- theorems ---------------------------------------------------------------------------------

  /** Empty token table, any admins. */
  ghost predicate Initial(s: State) {
    s.db.tokens == map[] && s.pending == map[] && s.chains == map[] && s.refreshed == []
  }

  /** The state after `steps`; nothing when a step cannot be taken. */
  ghost function Run(s: State, steps: seq<Step>): (t: Option<State>)
    requires Inv(s)
    ensures t.Some? ==> Inv(t.value)
    decreases |steps|
  {
    if steps == [] then Some(s)
    else
      var next := Next(s, steps[0]);
      if next.None? then None
      else
        NextKeepsInv(s, steps[0]);
        Run(next.value, steps[1..])
  }

  /** In every reachable state each family is a chain: linear, acyclic, owned by one admin,
      every replaced token revoked, and the only token that may be live is the last one. */
  lemma FamiliesAreChains(s: State, steps: seq<Step>, family: FamilyId)
    requires Initial(s) && Run(s, steps).Some?
    requires FamilyExists(Run(s, steps).value.db.tokens, family)
    ensures var tokens := Run(s, steps).value.db.tokens;
            exists chain :: IsChain(tokens, family, chain) && OnlyLastLive(tokens, family, chain)
  {
    InitialInv(s);
    hide Run, Inv, IsChain, FamilyExists, Initial;
    FamilyIsChain(Run(s, steps).value, family);
  }

  lemma InitialInv(s: State)
    requires Initial(s)
    ensures Inv(s)
  {
  }

  lemma ChainOf(tokens: map<TokenId, Token>, chains: map<FamilyId, seq<TokenId>>, id: TokenId, family: FamilyId)
    requires ChainsInv(tokens, chains) && InFamily(tokens, id, family)
    ensures family in chains && IsChain(tokens, family, chains[family])
  {
    hide IsChain;
  }

  /** Every live token of the family is the last of the chain. */
  ghost predicate OnlyLastLive(tokens: map<TokenId, Token>, family: FamilyId, chain: seq<TokenId>) {
    forall id :: InFamily(tokens, id, family) && Live(tokens[id]) ==> chain != [] && id == chain[|chain| - 1]
  }

  lemma FamilyIsChain(s: State, family: FamilyId)
    requires Inv(s) && FamilyExists(s.db.tokens, family)
    ensures exists chain :: IsChain(s.db.tokens, family, chain) && OnlyLastLive(s.db.tokens, family, chain)
  {
    var id :| InFamily(s.db.tokens, id, family);
    assert ChainsInv(s.db.tokens, s.chains);
    hide Inv, ChainsInv, IsChain;
    ChainOf(s.db.tokens, s.chains, id, family);
    ChainEndsLive(s.db.tokens, family, s.chains[family]);
  }

  lemma ChainEndsLive(tokens: map<TokenId, Token>, family: FamilyId, chain: seq<TokenId>)
    requires IsChain(tokens, family, chain)
    ensures OnlyLastLive(tokens, family, chain)
  {
    assert chain != [];
    hide IsChain;
    forall id | InFamily(tokens, id, family) && Live(tokens[id]) ensures id == chain[|chain| - 1] {
      LiveIsLast(tokens, id, family, chain);
    }
  }

  lemma LiveIsLast(s: map<TokenId, Token>, id: TokenId, family: FamilyId, chain: seq<TokenId>)
    requires IsChain(s, family, chain) && InFamily(s, id, family) && Live(s[id])
    ensures id == chain[|chain| - 1]
  {
    assert forall i :: 0 <= i < |chain| - 1 ==> !Live(s[chain[i]]);
    var at :| 0 <= at < |chain| && chain[at] == id;
  }

  /** However refreshes overlap, no token is refreshed twice. */
  lemma RefreshedAtMostOnce(s: State, steps: seq<Step>)
    requires Initial(s) && Run(s, steps).Some?
    ensures var refreshed := Run(s, steps).value.refreshed;
            forall i, j :: 0 <= i < j < |refreshed| ==> refreshed[i] != refreshed[j]
  {
  }

  /** A refresh succeeds exactly for a token that was read live, unreplaced and unexpired, with
      an active admin, and is still live, unreplaced and unexpired when it is claimed. */
  lemma SuccessExactly(db: Db, read: Read, now: Time, session: Session)
    requires read.Found? ==> read.id in db.tokens
    ensures FinishRefresh(db, read, now, session).1.Success? <==>
              && read.Found? && read.adminActive
              && Live(read.token) && read.token.replacedBy.None? && read.token.expiresAt > now
              && Live(db.tokens[read.id]) && db.tokens[read.id].replacedBy.None? && db.tokens[read.id].expiresAt > now
              && session.id !in db.tokens && !HashUsed(db.tokens, session.hash)
  {
    hide HashUsed;
  }

  /** It leaves the new token as the only live one of the family. */
  lemma SuccessLeavesOneLive(s: State, read: Read, now: Time, session: Session)
    requires Inv(s) && ReadInv(s.db.tokens, read) && FinishRefresh(s.db, read, now, session).1.Success?
    ensures var after := FinishRefresh(s.db, read, now, session).0.tokens;
            forall id :: InFamily(after, id, read.token.family) && Live(after[id]) <==> id == session.id
  {
    FinishRotatesOrRevokes(s.db, read, now, session);
    NewTokenIsLive(s.db, read, now, session);
    var after := FinishRefresh(s.db, read, now, session).0.tokens;
    var family := read.token.family;
    hide FinishRefresh, IsChain, HashUsed, HashesUnique, RefreshedInv;
    forall id | InFamily(after, id, family) && Live(after[id]) ensures id == session.id {
      if id in s.db.tokens {
        LiveIsLast(s.db.tokens, id, family, s.chains[family]);
        LiveIsLast(s.db.tokens, read.id, family, s.chains[family]);
        assert false;
      }
    }
  }

  lemma NewTokenIsLive(db: Db, read: Read, now: Time, session: Session)
    requires ReadInv(db.tokens, read) && FinishRefresh(db, read, now, session).1.Success?
    ensures var after := FinishRefresh(db, read, now, session).0.tokens;
            session.id in after
              && after[session.id] == NewToken(read.token.admin, session.(family := read.token.family))
  {
    hide HashUsed;
  }

  /** Reuse detection leaves the family of the presented token without a live token. */
  lemma ReuseKillsFamily(db: Db, read: Read, now: Time, session: Session)
    requires ReadInv(db.tokens, read) && FinishRefresh(db, read, now, session).1.Reuse?
    ensures read.Found? && Dead(FinishRefresh(db, read, now, session).0.tokens, read.token.family)
  {
  }

  /** Presenting a revoked token is reuse; it kills its family. */
  lemma PresentingRevokedIsReuse(db: Db, hash: Hash, id: TokenId, now: Time, session: Session)
    requires HashesUnique(db.tokens) && id in db.tokens && db.tokens[id].hash == hash && !Live(db.tokens[id])
    ensures AfterRefresh(db, hash, now, session).1.Reuse?
    ensures Dead(AfterRefresh(db, hash, now, session).0.tokens, db.tokens[id].family)
  {
    assert HashUsed(db.tokens, hash);
    ReuseKillsFamily(db, ReadToken(db, hash), now, session);
  }

  /** A family without a live token never has one again. */
  lemma {:induction false} DeadStaysDead(s: State, steps: seq<Step>, family: FamilyId)
    requires Inv(s) && Run(s, steps).Some? && family in s.chains && Dead(s.db.tokens, family)
    ensures Dead(Run(s, steps).value.db.tokens, family)
    decreases |steps|
  {
    if steps != [] {
      var t := Next(s, steps[0]).value;
      DeadStep(s, steps[0], family);
      NextKeepsInv(s, steps[0]);
      DeadStaysDead(t, steps[1..], family);
    }
  }

  lemma DeadFinish(db: Db, read: Read, now: Time, session: Session, family: FamilyId)
    requires ReadInv(db.tokens, read) && Dead(db.tokens, family)
    ensures Dead(FinishRefresh(db, read, now, session).0.tokens, family)
  {
    FinishRotatesOrRevokes(db, read, now, session);
    if FinishRefresh(db, read, now, session).1.Success? {
      NewTokenIsLive(db, read, now, session);
      assert InFamily(db.tokens, read.id, read.token.family) && Live(db.tokens[read.id]);
    }
    hide FinishRefresh, HashUsed;
    var after := FinishRefresh(db, read, now, session).0.tokens;
    forall id | InFamily(after, id, family) ensures !Live(after[id]) {
      if id in db.tokens { assert InFamily(db.tokens, id, family); }
    }
  }

  lemma DeadRevoking(s: map<TokenId, Token>, t: map<TokenId, Token>, family: FamilyId)
    requires OnlyRevokes(s, t) && Dead(s, family)
    ensures Dead(t, family)
  {
    assert forall id :: InFamily(t, id, family) <==> InFamily(s, id, family);
  }

  lemma LoginAddsOrNothing(s: State, step: Step)
    requires Inv(s) && step.DoLogin? && Next(s, step).Some?
    ensures var t := Next(s, step).value;
            && s.chains.Keys <= t.chains.Keys
            && (t.db == s.db || (Adds(s.db.tokens, t.db.tokens, step.session.id, None)
                                 && t.db.tokens[step.session.id].family !in s.chains))
  {
    hide HashUsed, IsChain, HashesUnique, RefreshedInv;
  }

  lemma DeadLogin(s: State, step: Step, family: FamilyId)
    requires Inv(s) && step.DoLogin? && Next(s, step).Some? && family in s.chains && Dead(s.db.tokens, family)
    ensures Dead(Next(s, step).value.db.tokens, family) && family in Next(s, step).value.chains
  {
    LoginAddsOrNothing(s, step);
    DeadAdding(s.db.tokens, Next(s, step).value.db.tokens, step.session.id, s.chains.Keys, family);
    hide Next, Inv, HashUsed, Dead, Adds;
  }

  /** A token of another family does not revive this one. */
  lemma DeadAdding(s: map<TokenId, Token>, t: map<TokenId, Token>, id: TokenId, families: set<FamilyId>,
      family: FamilyId)
    requires family in families && Dead(s, family)
    requires t == s || (Adds(s, t, id, None) && t[id].family !in families)
    ensures Dead(t, family)
  {
    forall i | InFamily(t, i, family) ensures !Live(t[i]) {
      assert InFamily(s, i, family);
    }
  }

  lemma DeadEnd(s: State, step: Step, family: FamilyId)
    requires Inv(s) && step.EndRefresh? && Next(s, step).Some? && family in s.chains && Dead(s.db.tokens, family)
    ensures Dead(Next(s, step).value.db.tokens, family) && family in Next(s, step).value.chains
  {
    var read := s.pending[step.request];
    assert ReadInv(s.db.tokens, read);
    hide Inv, Dead, FinishRefresh, ReadInv;
    DeadFinish(s.db, read, step.now, step.session, family);
  }

  lemma LogoutStep(s: State, step: Step)
    requires Inv(s) && step.DoLogout?
    ensures HashesUnique(s.db.tokens)
    ensures Next(s, step) == Some(s.(db := AfterLogout(s.db, step.admin, step.presented, step.now)))
  {
    hide HashesUnique, ChainsInv, RefreshedInv, ReadInv, AfterLogout;
  }

  lemma DeadLogout(s: State, step: Step, family: FamilyId)
    requires Inv(s) && step.DoLogout? && Next(s, step).Some? && family in s.chains && Dead(s.db.tokens, family)
    ensures Dead(Next(s, step).value.db.tokens, family) && family in Next(s, step).value.chains
  {
    hide *;
    LogoutStep(s, step);
    LogoutOnlyRevokes(s.db, step.admin, step.presented, step.now);
    DeadRevoking(s.db.tokens, Next(s, step).value.db.tokens, family);
  }

  lemma DisableTotpStep(s: State, step: Step)
    requires Inv(s) && step.DoDisableTotp?
    ensures Next(s, step)
         == Some(s.(db := AfterDisableTotp(s.db, step.admin, step.passwordValid, step.codeValid, step.now)))
  {
    hide Inv, AfterDisableTotp;
  }

  lemma DeadDisableTotp(s: State, step: Step, family: FamilyId)
    requires Inv(s) && step.DoDisableTotp? && Next(s, step).Some? && family in s.chains && Dead(s.db.tokens, family)
    ensures Dead(Next(s, step).value.db.tokens, family) && family in Next(s, step).value.chains
  {
    hide *;
    DisableTotpStep(s, step);
    DisableTotpOnlyRevokes(s.db, step.admin, step.passwordValid, step.codeValid, step.now);
    DeadRevoking(s.db.tokens, Next(s, step).value.db.tokens, family);
  }

  lemma DeadElsewhere(s: State, step: Step, family: FamilyId)
    requires Inv(s) && (step.SetAdmin? || step.BeginRefresh?) && Next(s, step).Some?
    requires family in s.chains && Dead(s.db.tokens, family)
    ensures Dead(Next(s, step).value.db.tokens, family) && family in Next(s, step).value.chains
  {
    assert Next(s, step).value.db.tokens == s.db.tokens && Next(s, step).value.chains == s.chains by {
      hide Inv, Dead, ReadToken;
    }
    hide Inv, Dead, Next;
  }

  lemma DeadStep(s: State, step: Step, family: FamilyId)
    requires Inv(s) && Next(s, step).Some? && family in s.chains && Dead(s.db.tokens, family)
    ensures Dead(Next(s, step).value.db.tokens, family) && family in Next(s, step).value.chains
  {
    hide *;
    match step {
      case DoLogin(_, _, _, _) => DeadLogin(s, step, family);
      case EndRefresh(_, _, _) => DeadEnd(s, step, family);
      case DoLogout(_, _, _) => DeadLogout(s, step, family);
      case DoDisableTotp(_, _, _, _) => DeadDisableTotp(s, step, family);
      case _ => DeadElsewhere(s, step, family);
    }
  }

  /** Logging out without a token, and disabling TOTP, leave the admin without live tokens;
      nobody else's token changes. */
  lemma AdminLosesAllTokens(db: Db, admin: AdminId, now: Time, codeValid: bool)
    requires HashesUnique(db.tokens)
    ensures var after := AfterLogout(db, admin, None, now).tokens;
            forall id :: id in after ==>
              if db.tokens[id].admin == admin then !Live(after[id]) else after[id] == db.tokens[id]
    ensures admin in db.admins && db.admins[admin] == Admin(true, true) ==>
              var after := AfterDisableTotp(db, admin, true, true, now);
              && after.admins == db.admins[admin := Admin(true, false)]
              && forall id :: id in after.tokens ==>
                   if db.tokens[id].admin == admin then !Live(after.tokens[id]) else after.tokens[id] == db.tokens[id]
  {
  }

  /** Logging out with a token of one's own kills its family and touches no other; a foreign
      or unknown token changes nothing. */
  lemma LogoutKillsFamily(db: Db, admin: AdminId, id: TokenId, now: Time)
    requires HashesUnique(db.tokens) && id in db.tokens
    ensures var after := AfterLogout(db, admin, Some(db.tokens[id].hash), now).tokens;
            if db.tokens[id].admin == admin then
              && Dead(after, db.tokens[id].family)
              && forall i :: i in after && after[i].family != db.tokens[id].family ==> after[i] == db.tokens[i]
            else after == db.tokens
  {
    assert HashUsed(db.tokens, db.tokens[id].hash);
  }
}
