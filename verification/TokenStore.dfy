/** OAuth codes and tokens (app/user_identity.py; RFC 6749, sections 4.1.2 and 6; RFC 7009,
    section 2). Each operation is one atomic step. */
module TokenStore {
  import opened Outcomes

  /** HMAC-SHA256 over a namespace and a value, as an injective constructor. */
  datatype Digest = Digest(namespace: string, value: string)

  function TokenHash(token: string): Digest { Digest("token", token) }
  function ClientHash(id: string): Digest { Digest("oauth-client", id) }
  function RedirectHash(uri: string): Digest { Digest("oauth-redirect", uri) }

  datatype Client = Client(secret: string, redirects: set<string>, scopes: set<string>)

  datatype Config = Config(clients: map<string, Client>, codeTtl: nat, accessTtl: nat, refreshTtl: nat)

  datatype User = User(publicId: string, active: bool)

  datatype Code = Code(user: string, client: Digest, redirect: Digest, scope: set<string>, expires: int,
    consumed: Option<int>)

  datatype Kind = Access | Refresh

  datatype Token = Token(kind: Kind, user: string, client: Digest, scope: set<string>, expires: int,
    revoked: Option<int>, parent: Digest)

  datatype State = State(users: map<string, User>, codes: map<Digest, Code>, tokens: map<Digest, Token>)

  datatype Error =
    | ClientRejected | RedirectRejected | ScopeRejected | UserRejected
    | CodeRejected | RefreshRejected | AccessRejected | StoreFailure

  datatype Bundle = Bundle(access: string, refresh: string, expiresIn: nat, scope: set<string>)

  datatype Principal = Principal(user: string, publicId: string, scope: set<string>)

  // ---------------------------------------------------------------- the operations, as functions

  function Authenticate(config: Config, clientId: string, secret: string): Result<Client, Error> {
    if clientId in config.clients && config.clients[clientId].secret == secret
    then Ok(config.clients[clientId]) else Err(ClientRejected)
  }

  predicate ActiveUser(st: State, user: string) {
    user in st.users && st.users[user].active
  }

  /** The scope granted for a request; a blank request asks for all the client may have. */
  function GrantedScope(config: Config, clientId: string, redirect: string,
      requested: set<string>): Result<set<string>, Error> {
    if clientId !in config.clients then Err(ClientRejected)
    else
      var client := config.clients[clientId];
      var scope := if requested == {} then client.scopes else requested;
      if redirect !in client.redirects then Err(RedirectRejected)
      else if scope == {} || !(scope <= client.scopes) then Err(ScopeRejected)
      else Ok(scope)
  }

  function IssueCode(st: State, config: Config, user: string, clientId: string, redirect: string,
      requested: set<string>, code: string, now: int): (State, Result<string, Error>) {
    var granted := GrantedScope(config, clientId, redirect, requested);
    if granted.Err? then (st, Err(granted.error))
    else if !ActiveUser(st, user) then (st, Err(UserRejected))
    else if TokenHash(code) in st.codes then (st, Err(StoreFailure))
    else
      var row := Code(user, ClientHash(clientId), RedirectHash(redirect), granted.value, now + config.codeTtl, None);
      (st.(codes := st.codes[TokenHash(code) := row]), Ok(code))
  }

  /** The access and the refresh token of one grant, both children of `parent`. */
  function WithPair(tokens: map<Digest, Token>, config: Config, user: string, clientId: string, scope: set<string>,
      parent: Digest, now: int, access: string, refresh: string): Result<map<Digest, Token>, Error> {
    var a, r := TokenHash(access), TokenHash(refresh);
    if a in tokens || r in tokens || a == r then Err(StoreFailure)
    else Ok(tokens[a := Token(Access, user, ClientHash(clientId), scope, now + config.accessTtl, None, parent)]
                  [r := Token(Refresh, user, ClientHash(clientId), scope, now + config.refreshTtl, None, parent)])
  }

  function ExchangeCode(st: State, config: Config, code: string, clientId: string, secret: string, redirect: string,
      now: int, access: string, refresh: string): (State, Result<Bundle, Error>) {
    var client := Authenticate(config, clientId, secret);
    var h := TokenHash(code);
    if client.Err? then (st, Err(client.error))
    else if redirect !in client.value.redirects then (st, Err(RedirectRejected))
    else if h !in st.codes || st.codes[h].consumed.Some? || st.codes[h].expires <= now then (st, Err(CodeRejected))
    else
      var row := st.codes[h];
      if row.client != ClientHash(clientId) then (st, Err(ClientRejected))
      else if row.redirect != RedirectHash(redirect) then (st, Err(RedirectRejected))
      else if !ActiveUser(st, row.user) then (st, Err(UserRejected))
      else
        var tokens := WithPair(st.tokens, config, row.user, clientId, row.scope, h, now, access, refresh);
        if tokens.Err? then (st, Err(tokens.error))
        else (st.(codes := st.codes[h := row.(consumed := Some(now))], tokens := tokens.value),
              Ok(Bundle(access, refresh, config.accessTtl, row.scope)))
  }

  function RefreshAccess(st: State, config: Config, token: string, clientId: string, secret: string, now: int,
      access: string, refresh: string): (State, Result<Bundle, Error>) {
    var client := Authenticate(config, clientId, secret);
    var h := TokenHash(token);
    if client.Err? then (st, Err(client.error))
    else if h !in st.tokens || !st.tokens[h].kind.Refresh? || st.tokens[h].revoked.Some?
      || st.tokens[h].expires <= now then (st, Err(RefreshRejected))
    else
      var row := st.tokens[h];
      if row.client != ClientHash(clientId) then (st, Err(ClientRejected))
      else if !ActiveUser(st, row.user) then (st, Err(UserRejected))
      else
        var tokens := WithPair(st.tokens[h := row.(revoked := Some(now))], config, row.user, clientId, row.scope, h,
          now, access, refresh);
        if tokens.Err? then (st, Err(tokens.error))
        else (st.(tokens := tokens.value), Ok(Bundle(access, refresh, config.accessTtl, row.scope)))
  }

  function Resolve(st: State, token: string, now: int): Result<Principal, Error> {
    var h := TokenHash(token);
    if h !in st.tokens || st.tokens[h].user !in st.users then Err(AccessRejected)
    else
      var row := st.tokens[h];
      if !row.kind.Access? || row.revoked.Some? || row.expires <= now || !st.users[row.user].active then
        Err(AccessRejected)
      else Ok(Principal(row.user, st.users[row.user].publicId, row.scope))
  }

  function Revoke(st: State, config: Config, token: string, clientId: string, secret: string,
      now: int): (State, Result<(), Error>) {
    var client := Authenticate(config, clientId, secret);
    var h := TokenHash(token);
    if client.Err? then (st, Err(client.error))
    else if h in st.tokens && st.tokens[h].client == ClientHash(clientId) && st.tokens[h].revoked.None?
    then (st.(tokens := st.tokens[h := st.tokens[h].(revoked := Some(now))]), Ok(()))
    else (st, Ok(()))
  }

  // ---------------------------------------------------------------- the store, in place

  class UserIdentityStore {
    var users: map<string, User>
    var codes: map<Digest, Code>
    var tokens: map<Digest, Token>

    ghost function Contents(): State
      reads this
    {
      State(users, codes, tokens)
    }

    constructor (users: map<string, User>)
      ensures Contents() == State(users, map[], map[])
    {
      this.users, codes, tokens := users, map[], map[];
    }

    method IssueAuthorizationCode(config: Config, user: string, clientId: string, redirect: string,
        requested: set<string>, code: string, now: int)
      returns (result: Result<string, Error>)
      modifies this
      ensures (Contents(), result) == IssueCode(old(Contents()), config, user, clientId, redirect, requested, code, now)
    {
      var granted := GrantedScope(config, clientId, redirect, requested);
      if granted.Err? { return Err(granted.error); }
      if user !in users || !users[user].active { return Err(UserRejected); }
      var h := TokenHash(code);
      if h in codes { return Err(StoreFailure); }
      codes := codes[h := Code(user, ClientHash(clientId), RedirectHash(redirect), granted.value, now + config.codeTtl,
        None)];
      return Ok(code);
    }

    /** Two inserts; the second can still fail, and the caller then rolls both back. */
    method InsertTokenPair(config: Config, user: string, clientId: string, scope: set<string>, parent: Digest,
        now: int, access: string, refresh: string)
      returns (inserted: bool)
      modifies this`tokens
      ensures var pair := WithPair(old(tokens), config, user, clientId, scope, parent, now, access, refresh);
        inserted == pair.Ok? && (inserted ==> tokens == pair.value)
      ensures !inserted && TokenHash(access) in old(tokens) ==> tokens == old(tokens)
      ensures !inserted && TokenHash(access) !in old(tokens) ==>
        tokens == old(tokens)[TokenHash(access) :=
          Token(Access, user, ClientHash(clientId), scope, now + config.accessTtl, None, parent)]
    {
      if TokenHash(access) in tokens { return false; }
      tokens := tokens[TokenHash(access) :=
        Token(Access, user, ClientHash(clientId), scope, now + config.accessTtl, None, parent)];
      if TokenHash(refresh) in tokens { return false; }
      tokens := tokens[TokenHash(refresh) :=
        Token(Refresh, user, ClientHash(clientId), scope, now + config.refreshTtl, None, parent)];
      return true;
    }

    method ExchangeAuthorizationCode(config: Config, code: string, clientId: string, secret: string, redirect: string,
        now: int, access: string, refresh: string)
      returns (result: Result<Bundle, Error>)
      modifies this
      ensures (Contents(), result) == ExchangeCode(old(Contents()), config, code, clientId, secret, redirect, now,
        access, refresh)
    {
      var client := Authenticate(config, clientId, secret);
      if client.Err? { return Err(client.error); }
      if redirect !in client.value.redirects { return Err(RedirectRejected); }
      var h := TokenHash(code);
      if h !in codes || codes[h].consumed.Some? { return Err(CodeRejected); }
      var row := codes[h];
      if row.expires <= now { return Err(CodeRejected); }
      if row.client != ClientHash(clientId) { return Err(ClientRejected); }
      if row.redirect != RedirectHash(redirect) { return Err(RedirectRejected); }
      if row.user !in users || !users[row.user].active { return Err(UserRejected); }
      var savedCodes, savedTokens := codes, tokens;
      codes := codes[h := row.(consumed := Some(now))];
      var inserted := InsertTokenPair(config, row.user, clientId, row.scope, h, now, access, refresh);
      if !inserted {
        codes, tokens := savedCodes, savedTokens;
        return Err(StoreFailure);
      }
      return Ok(Bundle(access, refresh, config.accessTtl, row.scope));
    }

    method RefreshAccessToken(config: Config, token: string, clientId: string, secret: string, now: int,
        access: string, refresh: string)
      returns (result: Result<Bundle, Error>)
      modifies this
      ensures (Contents(), result) == RefreshAccess(old(Contents()), config, token, clientId, secret, now, access,
        refresh)
    {
      var client := Authenticate(config, clientId, secret);
      if client.Err? { return Err(client.error); }
      var h := TokenHash(token);
      if h !in tokens || tokens[h].kind != Refresh || tokens[h].revoked.Some? { return Err(RefreshRejected); }
      var row := tokens[h];
      if row.expires <= now { return Err(RefreshRejected); }
      if row.client != ClientHash(clientId) { return Err(ClientRejected); }
      if row.user !in users || !users[row.user].active { return Err(UserRejected); }
      var saved := tokens;
      tokens := tokens[h := row.(revoked := Some(now))];
      var inserted := InsertTokenPair(config, row.user, clientId, row.scope, h, now, access, refresh);
      if !inserted {
        tokens := saved;
        return Err(StoreFailure);
      }
      return Ok(Bundle(access, refresh, config.accessTtl, row.scope));
    }

    method ResolveAccessToken(token: string, now: int) returns (result: Result<Principal, Error>)
      ensures result == Resolve(Contents(), token, now)
    {
      var h := TokenHash(token);
      if h !in tokens { return Err(AccessRejected); }
      var row := tokens[h];
      if row.user !in users { return Err(AccessRejected); }
      if row.kind != Access || row.revoked.Some? { return Err(AccessRejected); }
      if row.expires <= now || !users[row.user].active { return Err(AccessRejected); }
      return Ok(Principal(row.user, users[row.user].publicId, row.scope));
    }

    method RevokeToken(config: Config, token: string, clientId: string, secret: string, now: int)
        returns (result: Result<(), Error>)
      modifies this
      ensures (Contents(), result) == Revoke(old(Contents()), config, token, clientId, secret, now)
    {
      var client := Authenticate(config, clientId, secret);
      if client.Err? { return Err(client.error); }
      var h := TokenHash(token);
      if h in tokens && tokens[h].client == ClientHash(clientId) && tokens[h].revoked.None? {
        tokens := tokens[h := tokens[h].(revoked := Some(now))];
      }
      return Ok(());
    }
  }

  // ---------------------------------------------------------------- runs

  /** One committed operation; `SetUser` stands for whatever else changes an account. */
  datatype Event =
    | SetUser(id: string, account: User)
    | Issue(config: Config, user: string, clientId: string, redirect: string, requested: set<string>, code: string,
      now: int)
    | Exchange(config: Config, code: string, clientId: string, secret: string, redirect: string, now: int,
      access: string, refresh: string)
    | Rotate(config: Config, token: string, clientId: string, secret: string, now: int, access: string, refresh: string)
    | Withdraw(config: Config, token: string, clientId: string, secret: string, now: int)

  function Step(st: State, e: Event): State {
    match e
    case SetUser(id, account) => st.(users := st.users[id := account])
    case Issue(config, user, clientId, redirect, requested, code, now) =>
      IssueCode(st, config, user, clientId, redirect, requested, code, now).0
    case Exchange(config, code, clientId, secret, redirect, now, access, refresh) =>
      ExchangeCode(st, config, code, clientId, secret, redirect, now, access, refresh).0
    case Rotate(config, token, clientId, secret, now, access, refresh) =>
      RefreshAccess(st, config, token, clientId, secret, now, access, refresh).0
    case Withdraw(config, token, clientId, secret, now) => Revoke(st, config, token, clientId, secret, now).0
  }

  const EMPTY := State(map[], map[], map[])

  function Run(events: seq<Event>): State {
    if events == [] then EMPTY else Step(Run(events[..|events| - 1]), events[|events| - 1])
  }

  /** 32 random bytes never repeat across the two tables; a repetition inside one of them is
      caught by its primary key and needs no assumption. */
  ghost predicate Drawn(st: State, e: Event) {
    match e
    case Issue(_, _, _, _, _, code, _) => TokenHash(code) !in st.tokens
    case Exchange(_, _, _, _, _, _, access, refresh) =>
      TokenHash(access) !in st.codes && TokenHash(refresh) !in st.codes
    case Rotate(_, _, _, _, _, access, refresh) => TokenHash(access) !in st.codes && TokenHash(refresh) !in st.codes
    case _ => true
  }

  ghost predicate Genuine(events: seq<Event>) {
    events == [] || (Genuine(events[..|events| - 1]) && Drawn(Run(events[..|events| - 1]), events[|events| - 1]))
  }

  // ---------------------------------------------------------------- the invariant

  datatype Grant = Grant(user: string, client: Digest, scope: set<string>)

  /** Whom a code or token speaks for. */
  function GrantOf(st: State, h: Digest): Grant
    requires h in st.codes || h in st.tokens
  {
    if h in st.codes then Grant(st.codes[h].user, st.codes[h].client, st.codes[h].scope)
    else Grant(st.tokens[h].user, st.tokens[h].client, st.tokens[h].scope)
  }

  /** Used up: a consumed code, or a revoked refresh token. */
  predicate Spent(st: State, h: Digest) {
    (h in st.codes && st.codes[h].consumed.Some?)
      || (h in st.tokens && st.tokens[h].kind.Refresh? && st.tokens[h].revoked.Some?)
  }

  /** A chain of parents from a code down to a token. */
  ghost predicate Lineage(st: State, p: seq<Digest>) {
    && p != [] && p[0] in st.codes
    && forall i {:trigger Link(st, p, i)} :: 0 < i < |p| ==> Link(st, p, i)
  }

  ghost predicate Link(st: State, p: seq<Digest>, i: nat)
    requires 0 < i < |p|
  {
    p[i] in st.tokens && st.tokens[p[i]].parent == p[i - 1]
  }

  ghost predicate Rooted(st: State, h: Digest) {
    exists p :: Lineage(st, p) && p[|p| - 1] == h
  }

  ghost predicate TokenOk(st: State, h: Digest)
    requires h in st.tokens
  {
    var t := st.tokens[h];
    Spent(st, t.parent) && GrantOf(st, t.parent) == Grant(t.user, t.client, t.scope) && Rooted(st, h)
  }

  ghost predicate OneChildEach(tokens: map<Digest, Token>) {
    forall a, b :: a in tokens && b in tokens ==>
      tokens[a].parent == tokens[b].parent && tokens[a].kind == tokens[b].kind ==> a == b
  }

  ghost predicate Inv(st: State) {
    && st.codes.Keys !! st.tokens.Keys
    && (forall h {:trigger TokenOk(st, h)} :: h in st.tokens ==> TokenOk(st, h))
    && OneChildEach(st.tokens)
  }

  predicate CodeKept(was: Code, now: Code) {
    now.(consumed := was.consumed) == was && (was.consumed.Some? ==> now == was)
  }

  predicate TokenKept(was: Token, now: Token) {
    now.(revoked := was.revoked) == was && (was.revoked.Some? ==> now == was)
  }

  /** Rows are never deleted, never change hands and never recover. */
  ghost predicate Onward(st: State, next: State) {
    && (forall h :: h in st.codes ==> h in next.codes && CodeKept(st.codes[h], next.codes[h]))
    && (forall h :: h in st.tokens ==> h in next.tokens && TokenKept(st.tokens[h], next.tokens[h]))
  }

  lemma PairAdds(tokens: map<Digest, Token>, config: Config, user: string, clientId: string, scope: set<string>,
      parent: Digest, now: int, access: string, refresh: string)
    ensures var pair := WithPair(tokens, config, user, clientId, scope, parent, now, access, refresh);
      pair.Ok? ==> forall h :: h in tokens ==> h in pair.value && pair.value[h] == tokens[h]
  {
  }

  lemma ExchangeOnward(st: State, config: Config, code: string, clientId: string, secret: string, redirect: string,
      now: int, access: string, refresh: string)
    ensures Onward(st, ExchangeCode(st, config, code, clientId, secret, redirect, now, access, refresh).0)
  {
    var h := TokenHash(code);
    if h in st.codes {
      PairAdds(st.tokens, config, st.codes[h].user, clientId, st.codes[h].scope, h, now, access, refresh);
    }
  }

  lemma RefreshOnward(st: State, config: Config, token: string, clientId: string, secret: string, now: int,
      access: string, refresh: string)
    ensures Onward(st, RefreshAccess(st, config, token, clientId, secret, now, access, refresh).0)
  {
    var h := TokenHash(token);
    if h in st.tokens {
      var row := st.tokens[h];
      var spent := st.tokens[h := row.(revoked := Some(now))];
      PairAdds(spent, config, row.user, clientId, row.scope, h, now, access, refresh);
    }
  }

  lemma IssueOnward(st: State, config: Config, user: string, clientId: string, redirect: string,
      requested: set<string>, code: string, now: int)
    ensures Onward(st, IssueCode(st, config, user, clientId, redirect, requested, code, now).0)
  {
  }

  lemma StepOnward(st: State, e: Event)
    ensures Onward(st, Step(st, e))
  {
    match e
    case SetUser(_, _) =>
    case Issue(config, user, clientId, redirect, requested, code, now) =>
      IssueOnward(st, config, user, clientId, redirect, requested, code, now);
    case Exchange(config, code, clientId, secret, redirect, now, access, refresh) =>
      ExchangeOnward(st, config, code, clientId, secret, redirect, now, access, refresh);
    case Rotate(config, token, clientId, secret, now, access, refresh) =>
      RefreshOnward(st, config, token, clientId, secret, now, access, refresh);
    case Withdraw(config, token, clientId, secret, now) =>
  }

  lemma OldTokensStayOk(st: State, next: State, h: Digest)
    requires Inv(st) && Onward(st, next) && next.codes.Keys !! next.tokens.Keys && h in st.tokens
    ensures TokenOk(next, h)
  {
    assert TokenOk(st, h);
    var p :| Lineage(st, p) && p[|p| - 1] == h;
    forall i | 0 < i < |p| ensures Link(next, p, i) { assert Link(st, p, i); }
    assert Lineage(next, p);
  }

  /** Issuing the children of a spent code or refresh token. */
  lemma PairKeepsInv(st: State, next: State, h: Digest, access: Digest, refresh: Digest)
    requires Inv(st) && Onward(st, next) && next.codes.Keys == st.codes.Keys
    requires (h in st.codes || h in st.tokens) && !Spent(st, h) && Spent(next, h)
      && (h in st.tokens ==> st.tokens[h].kind.Refresh?)
    requires access !in st.tokens && refresh !in st.tokens && access !in st.codes && refresh !in st.codes
    requires next.tokens.Keys == st.tokens.Keys + {access, refresh}
    requires forall t :: t in {access, refresh} ==> next.tokens[t].parent == h && GrantOf(next, t) == GrantOf(st, h)
    requires next.tokens[access].kind.Access? && next.tokens[refresh].kind.Refresh?
    ensures Inv(next)
  {
    forall t | t in next.tokens ensures TokenOk(next, t) {
      if t in st.tokens {
        OldTokensStayOk(st, next, t);
      } else {
        ChildIsOk(st, next, h, t);
      }
    }
    // nothing descends from h yet, because parents are spent
    forall t | t in st.tokens ensures st.tokens[t].parent != h { assert TokenOk(st, t); }
    PairStaysUnique(st.tokens, next.tokens, h, access, refresh);
  }

  lemma PairStaysUnique(tokens: map<Digest, Token>, next: map<Digest, Token>, h: Digest, access: Digest,
      refresh: Digest)
    requires OneChildEach(tokens) && next.Keys == tokens.Keys + {access, refresh}
    requires forall t :: t in tokens ==> TokenKept(tokens[t], next[t]) && tokens[t].parent != h
    requires next[access].parent == h == next[refresh].parent && next[access].kind.Access?
      && next[refresh].kind.Refresh?
    ensures OneChildEach(next)
  {
    forall t | t in tokens ensures next[t].parent == tokens[t].parent && next[t].kind == tokens[t].kind {}
  }

  lemma ChildIsOk(st: State, next: State, h: Digest, t: Digest)
    requires Inv(st) && Onward(st, next) && next.codes.Keys == st.codes.Keys
    requires (h in st.codes || h in st.tokens) && Spent(next, h)
    requires t in next.tokens && t !in st.codes && next.tokens[t].parent == h && GrantOf(next, t) == GrantOf(st, h)
    ensures TokenOk(next, t)
  {
    var p := [h];
    if h !in st.codes {
      assert TokenOk(st, h);
      p :| Lineage(st, p) && p[|p| - 1] == h;
    }
    var q := p + [t];
    forall i | 0 < i < |q| ensures Link(next, q, i) {
      if i < |p| { assert Link(st, p, i); }
    }
    assert Lineage(next, q) && q[|q| - 1] == t;
    assert GrantOf(next, h) == GrantOf(st, h);
  }

  /** A step that adds no token. */
  lemma NoPairKeepsInv(st: State, next: State)
    requires Inv(st) && Onward(st, next) && next.tokens.Keys == st.tokens.Keys && next.codes.Keys !! next.tokens.Keys
    ensures Inv(next)
  {
    forall t | t in next.tokens ensures TokenOk(next, t) { OldTokensStayOk(st, next, t); }
    forall a, b | a in next.tokens && b in next.tokens && next.tokens[a].parent == next.tokens[b].parent
      && next.tokens[a].kind == next.tokens[b].kind
      ensures a == b
    {
      assert st.tokens[a].parent == st.tokens[b].parent && st.tokens[a].kind == st.tokens[b].kind;
    }
  }

  lemma InvStep(st: State, e: Event)
    requires Inv(st) && Drawn(st, e)
    ensures Inv(Step(st, e))
  {
    var next := Step(st, e);
    StepOnward(st, e);
    if next == st {
    } else if e.Exchange? {
      PairKeepsInv(st, next, TokenHash(e.code), TokenHash(e.access), TokenHash(e.refresh));
    } else if e.Rotate? {
      PairKeepsInv(st, next, TokenHash(e.token), TokenHash(e.access), TokenHash(e.refresh));
    } else {
      NoPairKeepsInv(st, next);
    }
  }

  lemma {:induction false} InvRun(events: seq<Event>)
    requires Genuine(events)
    ensures Inv(Run(events))
    decreases events
  {
    if events != [] {
      InvRun(events[..|events| - 1]);
      InvStep(Run(events[..|events| - 1]), events[|events| - 1]);
    }
  }

  // ---------------------------------------------------------------- main results

  /** A refresh token that can still be rotated, expiry and account aside. */
  predicate Live(st: State, h: Digest) {
    h in st.tokens && st.tokens[h].kind.Refresh? && st.tokens[h].revoked.None?
  }

  /** Something on a line that has a successor there is spent, and a refresh token if a token. */
  lemma InnerIsSpent(st: State, p: seq<Digest>, i: nat)
    requires Inv(st) && Lineage(st, p) && i + 1 < |p|
    ensures Spent(st, p[i])
  {
    assert Link(st, p, i + 1) && TokenOk(st, p[i + 1]);
  }

  lemma {:induction false} LinesAgree(st: State, p: seq<Digest>, q: seq<Digest>, n: nat)
    requires Inv(st) && Lineage(st, p) && Lineage(st, q) && p[0] == q[0]
    requires Live(st, p[|p| - 1]) && Live(st, q[|q| - 1])
    requires n < |p| && n < |q|
    ensures p[n] == q[n]
  {
    if n > 0 {
      LinesAgree(st, p, q, n - 1);
      assert Link(st, p, n) && Link(st, q, n);
      if n + 1 < |p| { InnerIsSpent(st, p, n); }
      if n + 1 < |q| { InnerIsSpent(st, q, n); }
      assert st.tokens[p[n]].kind.Refresh? && st.tokens[q[n]].kind.Refresh?;
    }
  }

  lemma NoLonger(st: State, p: seq<Digest>, q: seq<Digest>)
    requires Inv(st) && Lineage(st, p) && Lineage(st, q) && p[0] == q[0]
    requires Live(st, p[|p| - 1]) && Live(st, q[|q| - 1])
    ensures |p| <= |q|
  {
    if |p| > |q| {
      LinesAgree(st, p, q, |q| - 1);
      InnerIsSpent(st, p, |q| - 1);
    }
  }

  /** Families are linear: a code descends to at most one refresh token not yet revoked. */
  lemma LinearFamily(events: seq<Event>, p: seq<Digest>, q: seq<Digest>)
    requires Genuine(events)
    requires Lineage(Run(events), p) && Lineage(Run(events), q) && p[0] == q[0]
    requires Live(Run(events), p[|p| - 1]) && Live(Run(events), q[|q| - 1])
    ensures p == q
  {
    InvRun(events);
    NoLonger(Run(events), p, q);
    NoLonger(Run(events), q, p);
    forall i | 0 <= i < |p| ensures p[i] == q[i] { LinesAgree(Run(events), p, q, i); }
  }

  /** Each code and each refresh token has at most one ACCESS and one REFRESH child, and only
      once it is spent. */
  lemma ChildrenOfGrant(events: seq<Event>, a: Digest, b: Digest)
    requires Genuine(events)
    requires a in Run(events).tokens && b in Run(events).tokens
    requires Run(events).tokens[a].parent == Run(events).tokens[b].parent
    ensures Run(events).tokens[a].kind == Run(events).tokens[b].kind ==> a == b
    ensures Spent(Run(events), Run(events).tokens[a].parent)
  {
    InvRun(events);
    assert TokenOk(Run(events), a);
  }

  lemma {:induction false} RunOnward(events: seq<Event>, more: seq<Event>)
    ensures Onward(Run(events), Run(events + more))
    decreases more
  {
    if more == [] {
      assert events + more == events;
    } else {
      var shorter := events + more[..|more| - 1];
      RunOnward(events, more[..|more| - 1]);
      assert (events + more)[..|events + more| - 1] == shorter;
      StepOnward(Run(shorter), (events + more)[|events + more| - 1]);
    }
  }

  /** What is consumed or revoked never works again, whatever happens next. */
  lemma NeverAgain(events: seq<Event>, more: seq<Event>, token: string, config: Config, clientId: string,
      secret: string, redirect: string, now: int, access: string, refresh: string)
    ensures var before, after := Run(events), Run(events + more); var h := TokenHash(token);
      && (h in before.codes && before.codes[h].consumed.Some? ==>
            ExchangeCode(after, config, token, clientId, secret, redirect, now, access, refresh).1.Err?)
      && (h in before.tokens && before.tokens[h].revoked.Some? ==>
            && Resolve(after, token, now) == Err(AccessRejected)
            && RefreshAccess(after, config, token, clientId, secret, now, access, refresh).1.Err?)
  {
    RunOnward(events, more);
  }

  /** An exchange that changes anything consumes its code, and a consumed code does nothing. */
  lemma ExchangeConsumes(st: State, e: Event)
    requires e.Exchange?
    ensures var h := TokenHash(e.code); var next := Step(st, e);
      && (h in st.codes && st.codes[h].consumed.Some? ==> next == st)
      && (next != st ==> h in next.codes && next.codes[h].consumed.Some?)
  {
  }

  lemma ConsumedForGood(st: State, e: Event, later: State, f: Event)
    requires e.Exchange? && f.Exchange? && e.code == f.code
    requires Step(st, e) != st && Onward(Step(st, e), later)
    ensures Step(later, f) == later
  {
    ExchangeConsumes(st, e);
    ExchangeConsumes(later, f);
  }

  lemma PrefixOnward(events: seq<Event>, i: nat, j: nat)
    requires i <= j <= |events|
    ensures Onward(Run(events[..i]), Run(events[..j]))
  {
    assert events[..j] == events[..i] + events[i..j];
    RunOnward(events[..i], events[i..j]);
  }

  lemma RunOneMore(events: seq<Event>, i: nat)
    requires i < |events|
    ensures Run(events[..i + 1]) == Step(Run(events[..i]), events[i])
  {
    assert events[..i + 1][..i] == events[..i];
  }

  /** A code is exchanged successfully at most once in any run. */
  lemma CodeWorksOnce(events: seq<Event>, i: nat, j: nat)
    requires i < j < |events| && events[i].Exchange? && events[j].Exchange? && events[i].code == events[j].code
    requires Run(events[..i + 1]) != Run(events[..i])
    ensures Run(events[..j + 1]) == Run(events[..j])
  {
    RunOneMore(events, i);
    RunOneMore(events, j);
    PrefixOnward(events, i + 1, j);
    ConsumedForGood(Run(events[..i]), events[i], Run(events[..j]), events[j]);
  }

  /** A client of this configuration, with its own secret. */
  predicate Knows(config: Config, clientId: string, secret: string) {
    clientId in config.clients && config.clients[clientId].secret == secret
  }

  /** Exactly when an event leaves a trace. */
  lemma IssueIff(st: State, e: Event)
    requires e.Issue?
    ensures Step(st, e) != st <==>
      && e.clientId in e.config.clients && e.redirect in e.config.clients[e.clientId].redirects
      && e.requested <= e.config.clients[e.clientId].scopes && e.config.clients[e.clientId].scopes != {}
      && e.user in st.users && st.users[e.user].active && TokenHash(e.code) !in st.codes
  {
  }

  /** What a stranger is told, and what a client that asks for too much. */
  lemma StrangersAreRejected(st: State, config: Config, user: string, clientId: string, secret: string,
      redirect: string, requested: set<string>, text: string, now: int, access: string, refresh: string)
    ensures !Knows(config, clientId, secret) ==>
      && ExchangeCode(st, config, text, clientId, secret, redirect, now, access, refresh) == (st, Err(ClientRejected))
      && RefreshAccess(st, config, text, clientId, secret, now, access, refresh) == (st, Err(ClientRejected))
      && Revoke(st, config, text, clientId, secret, now) == (st, Err(ClientRejected))
    ensures var (next, answer) := IssueCode(st, config, user, clientId, redirect, requested, text, now);
      && (clientId !in config.clients <==> answer == Err(ClientRejected))
      && (clientId in config.clients && redirect !in config.clients[clientId].redirects <==>
            answer == Err(RedirectRejected))
      && (answer == Err(ScopeRejected) <==>
            && clientId in config.clients && redirect in config.clients[clientId].redirects
            && (config.clients[clientId].scopes == {} || !(requested <= config.clients[clientId].scopes)))
      && (answer.Err? ==> next == st)
  {
  }

  predicate NewPair(st: State, e: Event)
    requires e.Exchange? || e.Rotate?
  {
    TokenHash(e.access) !in st.tokens && TokenHash(e.refresh) !in st.tokens && e.access != e.refresh
  }

  lemma ExchangeIff(st: State, e: Event)
    requires e.Exchange?
    ensures var h := TokenHash(e.code);
      Step(st, e) != st <==>
        && Knows(e.config, e.clientId, e.secret) && e.redirect in e.config.clients[e.clientId].redirects
        && h in st.codes && st.codes[h].consumed.None? && e.now < st.codes[h].expires
        && st.codes[h].client == ClientHash(e.clientId) && st.codes[h].redirect == RedirectHash(e.redirect)
        && st.codes[h].user in st.users && st.users[st.codes[h].user].active && NewPair(st, e)
  {
    var h := TokenHash(e.code);
    assert Step(st, e) != st ==> h in Step(st, e).codes && Step(st, e).codes[h].consumed.Some?;
  }

  lemma RotateIff(st: State, e: Event)
    requires e.Rotate?
    ensures var h := TokenHash(e.token);
      Step(st, e) != st <==>
        && Knows(e.config, e.clientId, e.secret)
        && h in st.tokens && st.tokens[h].kind.Refresh? && st.tokens[h].revoked.None? && e.now < st.tokens[h].expires
        && st.tokens[h].client == ClientHash(e.clientId)
        && st.tokens[h].user in st.users && st.users[st.tokens[h].user].active && NewPair(st, e)
  {
    assert Step(st, e) != st ==> TokenHash(e.access) in Step(st, e).tokens;
  }

  lemma WithdrawIff(st: State, e: Event)
    requires e.Withdraw?
    ensures var h := TokenHash(e.token);
      Step(st, e) != st <==>
        && Knows(e.config, e.clientId, e.secret)
        && h in st.tokens && st.tokens[h].client == ClientHash(e.clientId) && st.tokens[h].revoked.None?
  {
    var h := TokenHash(e.token);
    assert Step(st, e) != st ==> h in Step(st, e).tokens && Step(st, e).tokens[h].revoked.Some?;
  }

  /** The event that issued a code: a registered client with this redirect, an active user, and
      the scope asked for, or all the client may have. */
  ghost predicate IssuedBy(events: seq<Event>, i: nat, h: Digest, grant: Grant) {
    && i < |events| && events[i].Issue? && TokenHash(events[i].code) == h
    && events[i].clientId in events[i].config.clients
    && grant.user == events[i].user && ActiveUser(Run(events[..i]), grant.user)
    && grant.client == ClientHash(events[i].clientId)
    && {} < grant.scope <= events[i].config.clients[events[i].clientId].scopes
    && events[i].redirect in events[i].config.clients[events[i].clientId].redirects
    && grant.scope == if events[i].requested != {} then events[i].requested
         else events[i].config.clients[events[i].clientId].scopes
  }

  lemma {:induction false} CodesAreIssued(events: seq<Event>, h: Digest) returns (i: nat)
    requires h in Run(events).codes
    ensures IssuedBy(events, i, h, GrantOf(Run(events), h))
    ensures var row := Run(events).codes[h];
      row.redirect == RedirectHash(events[i].redirect) && row.expires == events[i].now + events[i].config.codeTtl
    decreases events
  {
    var n := |events| - 1;
    var before := Run(events[..n]);
    if h in before.codes {
      i := CodesAreIssued(events[..n], h);
      StepOnward(before, events[n]);
      assert events[..n][..i] == events[..i] && events[..n][i] == events[i];
    } else {
      i := n;
    }
  }

  lemma {:induction false} LineageSharesGrant(st: State, p: seq<Digest>, n: nat)
    requires Inv(st) && Lineage(st, p) && n < |p|
    ensures p[n] in st.codes || p[n] in st.tokens
    ensures GrantOf(st, p[n]) == GrantOf(st, p[0])
  {
    if n > 0 {
      LineageSharesGrant(st, p, n - 1);
      assert Link(st, p, n) && TokenOk(st, p[n]);
    }
  }

  /** Provenance: a token that resolves goes back, through any number of rotations, to a code
      issued in this run, and speaks for the same user and client with the same scope, which
      lies within the scopes that client had when the code was issued. */
  lemma Provenance(events: seq<Event>, token: string, now: int) returns (p: seq<Digest>, i: nat)
    requires Genuine(events)
    requires Resolve(Run(events), token, now).Ok?
    ensures var st := Run(events); var h := TokenHash(token); var principal := Resolve(st, token, now).value;
      && Lineage(st, p) && p[|p| - 1] == h
      && GrantOf(st, p[0]) == GrantOf(st, h)
      && IssuedBy(events, i, p[0], Grant(principal.user, st.tokens[h].client, principal.scope))
  {
    InvRun(events);
    var st := Run(events);
    assert TokenOk(st, TokenHash(token));
    p :| Lineage(st, p) && p[|p| - 1] == TokenHash(token);
    LineageSharesGrant(st, p, |p| - 1);
    i := CodesAreIssued(events, p[0]);
  }

  /** The event that made a token: its client knew the secret and the user was active; the token
      lasts as long as the configuration of that event says. */
  ghost predicate MadeBy(events: seq<Event>, i: nat, h: Digest, t: Token) {
    && i < |events| && (events[i].Exchange? || events[i].Rotate?)
    && Knows(events[i].config, events[i].clientId, events[i].secret)
    && t.client == ClientHash(events[i].clientId) && ActiveUser(Run(events[..i]), t.user)
    && t.parent == TokenHash(if events[i].Exchange? then events[i].code else events[i].token)
    && if t.kind.Access?
       then h == TokenHash(events[i].access) && t.expires == events[i].now + events[i].config.accessTtl
       else h == TokenHash(events[i].refresh) && t.expires == events[i].now + events[i].config.refreshTtl
  }

  /** The event that made what event `i` presented: an exchange names the redirect of the issue
      and a rotation the refresh token of an earlier pair; same client, and in time. */
  ghost predicate Presents(events: seq<Event>, j: nat, i: nat) {
    && j < i < |events|
    && if events[i].Exchange?
       then
         && events[j].Issue? && events[j].code == events[i].code && events[j].clientId == events[i].clientId
         && events[j].redirect == events[i].redirect && events[i].now < events[j].now + events[j].config.codeTtl
       else
         && events[i].Rotate? && (events[j].Exchange? || events[j].Rotate?)
         && events[j].refresh == events[i].token && events[j].clientId == events[i].clientId
         && events[i].now < events[j].now + events[j].config.refreshTtl
  }

  /** Every token was made by such an event. */
  lemma {:induction false} TokensAreMade(events: seq<Event>, h: Digest) returns (i: nat)
    requires h in Run(events).tokens
    ensures MadeBy(events, i, h, Run(events).tokens[h])
    ensures Run(events[..i + 1]) != Run(events[..i])
    decreases events
  {
    var n := |events| - 1;
    var before := Run(events[..n]);
    assert events[..n + 1] == events;
    if h in before.tokens {
      i := TokensAreMade(events[..n], h);
      StepOnward(before, events[n]);
      assert events[..n][..i] == events[..i] && events[..n][i] == events[i] && events[..n][..i + 1] == events[..i + 1];
    } else {
      i := n;
      NewTokensAreMade(before, events[n], h);
    }
  }

  lemma NewTokensAreMade(st: State, e: Event, h: Digest)
    requires h in Step(st, e).tokens && h !in st.tokens
    ensures (e.Exchange? || e.Rotate?) && Knows(e.config, e.clientId, e.secret)
    ensures var t := Step(st, e).tokens[h];
      && t.client == ClientHash(e.clientId) && ActiveUser(st, t.user)
      && t.parent == TokenHash(if e.Exchange? then e.code else e.token)
      && if t.kind.Access? then h == TokenHash(e.access) && t.expires == e.now + e.config.accessTtl
         else h == TokenHash(e.refresh) && t.expires == e.now + e.config.refreshTtl
  {
  }

  /** Every exchange and rotation that had an effect presented something issued in time to the
      same client. */
  lemma PresentedInTime(events: seq<Event>, i: nat) returns (j: nat)
    requires i < |events| && (events[i].Exchange? || events[i].Rotate?)
    requires Run(events[..i + 1]) != Run(events[..i])
    ensures Presents(events, j, i)
  {
    var before, e := events[..i], events[i];
    RunOneMore(events, i);
    if e.Exchange? {
      ExchangeIff(Run(before), e);
      j := CodesAreIssued(before, TokenHash(e.code));
    } else {
      RotateIff(Run(before), e);
      j := TokensAreMade(before, TokenHash(e.token));
    }
    assert before[j] == events[j];
  }

  /** A revoked token was withdrawn, or rotated, by its own client. */
  lemma {:induction false} RevokedByOwner(events: seq<Event>, h: Digest) returns (i: nat)
    requires h in Run(events).tokens && Run(events).tokens[h].revoked.Some?
    ensures i < |events| && (events[i].Withdraw? || events[i].Rotate?) && TokenHash(events[i].token) == h
    ensures Knows(events[i].config, events[i].clientId, events[i].secret)
    ensures ClientHash(events[i].clientId) == Run(events).tokens[h].client
    decreases events
  {
    var n := |events| - 1;
    var before := Run(events[..n]);
    StepOnward(before, events[n]);
    if h in before.tokens && before.tokens[h].revoked.Some? {
      i := RevokedByOwner(events[..n], h);
    } else {
      i := n;
      if events[n].Rotate? { RotateIff(before, events[n]); }
      if events[n].Withdraw? { WithdrawIff(before, events[n]); }
    }
  }

  /** Exactly which tokens resolve: those made as access tokens, before their time is up, as long
      as their user is active and they are not revoked. */
  lemma ResolvesIff(events: seq<Event>, token: string, now: int) returns (i: nat)
    ensures var st, h := Run(events), TokenHash(token);
      if h in st.tokens then
        && MadeBy(events, i, h, st.tokens[h])
        && (Resolve(st, token, now).Ok? <==>
             && events[i].access == token && st.tokens[h].kind.Access?
             && now < events[i].now + events[i].config.accessTtl
             && st.tokens[h].revoked.None? && st.tokens[h].user in st.users && st.users[st.tokens[h].user].active)
      else Resolve(st, token, now).Err?
  {
    i := 0;
    if TokenHash(token) in Run(events).tokens { i := TokensAreMade(events, TokenHash(token)); }
  }

  /** Revoking (RFC 7009, section 2.1): for its own client a token stops working at once and
      for good; another client's request changes nothing; no other token is affected. */
  lemma RevocationIsExact(st: State, config: Config, token: string, clientId: string, secret: string, now: int,
      later: int)
    requires Knows(config, clientId, secret)
    ensures var (next, answer) := Revoke(st, config, token, clientId, secret, now); var h := TokenHash(token);
      && answer == Ok(())
      && next.codes == st.codes && next.tokens.Keys == st.tokens.Keys
      && (forall t :: t in st.tokens && t != h ==> next.tokens[t] == st.tokens[t])
      && (h in st.tokens && st.tokens[h].client == ClientHash(clientId) ==>
        Resolve(next, token, later).Err? && !Live(next, h))
      && (h in st.tokens && st.tokens[h].client != ClientHash(clientId) ==> next == st)
  {
  }

  /** The whole flow does work: a code issued to an active user is exchanged in time by its own
      client, the access token then resolves to that user with the granted scope, the refresh
      token does not, and rotating it yields another access token for the same principal. */
  lemma CodeFlowCompletes(st: State, config: Config, user: string, clientId: string, redirect: string,
                          requested: set<string>, code: string, issued: int, exchanged: int, rotated: int, used: int,
                          access: string, refresh: string, access': string, refresh': string)
    requires GrantedScope(config, clientId, redirect, requested).Ok? && ActiveUser(st, user)
    requires TokenHash(code) !in st.codes && exchanged < issued + config.codeTtl
      && rotated < exchanged + config.refreshTtl
    requires forall t :: t in {access, refresh, access', refresh'} ==> TokenHash(t) !in st.tokens
    requires access !in {refresh, access', refresh'} && refresh !in {access', refresh'} && access' != refresh'
    ensures var secret, principal := config.clients[clientId].secret,
      Principal(user, st.users[user].publicId, GrantedScope(config, clientId, redirect, requested).value);
      var (withCode, issue) := IssueCode(st, config, user, clientId, redirect, requested, code, issued);
      var (withTokens, bundle) := ExchangeCode(withCode, config, code, clientId, secret, redirect, exchanged, access,
        refresh);
      var (rotatedTokens, next) := RefreshAccess(withTokens, config, refresh, clientId, secret, rotated, access',
        refresh');
      && issue == Ok(code) && bundle == Ok(Bundle(access, refresh, config.accessTtl, principal.scope)) && next.Ok?
      && (used < exchanged + config.accessTtl ==> Resolve(withTokens, access, used) == Ok(principal))
      && Resolve(withTokens, refresh, used) == Err(AccessRejected)
      && (used < rotated + config.accessTtl ==> Resolve(rotatedTokens, access', used) == Ok(principal))
  {
  }

  // ---------------------------------------------------------------- what a grant outlives

  /** Section 4.1.2 of RFC 6749 recommends that a code presented twice cost the tokens issued on
      it. Here the second presentation changes nothing: whatever resolved still does. */
  lemma ReplayRevokesNothing(events: seq<Event>, e: Event, token: string, now: int)
    requires e.Exchange? && TokenHash(e.code) in Run(events).codes
    requires Run(events).codes[TokenHash(e.code)].consumed.Some?
    ensures Run(events + [e]) == Run(events)
    ensures Resolve(Run(events + [e]), token, now) == Resolve(Run(events), token, now)
  {
    assert (events + [e])[..|events|] == events;
    ExchangeConsumes(Run(events), e);
  }

  /** Section 2.1 of RFC 7009 recommends that the access tokens of the grant fall with a refresh
      token. Here exactly the named token falls. */
  lemma RevocationSparesOthers(events: seq<Event>, e: Event, token: string, now: int)
    requires e.Withdraw? && e.token != token
    ensures Resolve(Run(events + [e]), token, now) == Resolve(Run(events), token, now)
  {
    assert (events + [e])[..|events|] == events;
  }

  const CONFIG := Config(map["app" := Client("secret", {"https://app"}, {"read"})], 60, 600, 6000)

  const GRANTED: seq<Event> := [
    SetUser("u", User("public", true)),
    Issue(CONFIG, "u", "app", "https://app", {}, "code", 0),
    Exchange(CONFIG, "code", "app", "secret", "https://app", 1, "access", "refresh")]

  const REPLAY := Exchange(CONFIG, "code", "app", "secret", "https://app", 2, "access2", "refresh2")
  const REVOKE := Withdraw(CONFIG, "refresh", "app", "secret", 2)

  lemma GrantedRuns()
    ensures var st := Run(GRANTED); TokenHash("code") in st.codes && st.codes[TokenHash("code")].consumed.Some?
    ensures Resolve(Run(GRANTED), "access", 3) == Ok(Principal("u", "public", {"read"}))
    ensures var refresh := TokenHash("refresh");
      refresh in Run(GRANTED).tokens && Run(GRANTED).tokens[refresh].client == ClientHash("app")
  {
    var first, second := GRANTED[..2], GRANTED[..1];
    assert second[..0] == [] && first[..1] == second;
    var st := Step(EMPTY, GRANTED[0]);
    assert Run(second) == st;
    assert Run(first) == Step(st, GRANTED[1]);
    CodeExchanges(st);
  }

  lemma CodeExchanges(st: State)
    requires st == State(map["u" := User("public", true)], map[], map[])
    ensures var code, refresh := TokenHash("code"), TokenHash("refresh");
      var next := Step(Step(st, GRANTED[1]), GRANTED[2]);
      && code in next.codes && next.codes[code].consumed.Some? && refresh in next.tokens
      && next.tokens[refresh].client == ClientHash("app")
      && Resolve(next, "access", 3) == Ok(Principal("u", "public", {"read"}))
  {
    assert TokenHash("access") != TokenHash("refresh");
    assert GrantedScope(CONFIG, "app", "https://app", {}) == Ok({"read"});
  }

  /** A run in which the code is presented again and its access token goes on working, and one
      in which the refresh token is revoked and the access token goes on working. */
  lemma GrantOutlivesItsCode()
    ensures Resolve(Run(GRANTED + [REPLAY]), "access", 3) == Ok(Principal("u", "public", {"read"}))
    ensures Resolve(Run(GRANTED + [REVOKE]), "access", 3) == Ok(Principal("u", "public", {"read"}))
    ensures !Live(Run(GRANTED + [REVOKE]), TokenHash("refresh"))
  {
    GrantedRuns();
    ReplayRevokesNothing(GRANTED, REPLAY, "access", 3);
    RevocationSparesOthers(GRANTED, REVOKE, "access", 3);
    assert (GRANTED + [REVOKE])[..|GRANTED|] == GRANTED;
    assert Authenticate(CONFIG, "app", "secret").Ok?;
  }
}
