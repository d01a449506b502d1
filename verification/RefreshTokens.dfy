/**
 Refresh-token rotation. A refresh looks the token up, revokes it and issues its successor in three
 statements without a transaction, so exchanges may interleave. Hashes stand for raw tokens: SHA-256
 and UUIDs are taken to be collision-free.
 */
module RefreshTokens {
  import opened Prelude

  type Hash = nat

  datatype Row = Row(user: nat, expiresAt: int, revoked: bool)
  datatype Phase = LookedUp | Revoked
  datatype Exchange = Exchange(token: Hash, user: nat, phase: Phase)

  datatype State = State(
    enabled: map<nat, bool>,       // users
    tokens: map<Hash, Row>,
    exchanges: map<nat, Exchange>, // refresh handlers in progress
    logins: seq<nat>,              // history: the user of each login so far
    origin: map<Hash, nat>,        // history: the login that each token descends from
    exchanged: seq<Hash>)          // history: tokens for which a successor was issued

  datatype Action =
    | SetEnabled(user: nat, on: bool)
    | Login(user: nat, hash: Hash, expiresAt: int)
    | Lookup(x: nat, token: Hash, now: int)
    | Revoke(x: nat)
    | Issue(x: nat, hash: Hash, expiresAt: int)
    | Drop(x: nat)                 // the handler fails with an error

  /** What the lookup's WHERE clause and the check after it demand. */
  predicate Usable(tokens: map<Hash, Row>, enabled: map<nat, bool>, token: Hash, now: int) {
    && token in tokens && !tokens[token].revoked && tokens[token].expiresAt > now
    && tokens[token].user in enabled && enabled[tokens[token].user]
  }

  function WithRevoked(tokens: map<Hash, Row>, token: Hash): map<Hash, Row> {
    if token in tokens then tokens[token := tokens[token].(revoked := true)] else tokens
  }

  predicate Enabled(s: State, a: Action) {
    match a
    case SetEnabled(_, _) => true
    case Login(user, hash, _) => user in s.enabled && s.enabled[user] && hash !in s.tokens
    case Lookup(x, token, now) => x !in s.exchanges && Usable(s.tokens, s.enabled, token, now)
    case Revoke(x) => x in s.exchanges && s.exchanges[x].phase.LookedUp?
    case Issue(x, hash, _) => x in s.exchanges && s.exchanges[x].phase.Revoked? && hash !in s.tokens
                              && s.exchanges[x].token in s.origin
    case Drop(x) => x in s.exchanges
  }

  function Next(s: State, a: Action): State
    requires Enabled(s, a)
  {
    match a
    case SetEnabled(user, on) => s.(enabled := s.enabled[user := on])
    case Login(user, hash, expires) =>
      s.(tokens := s.tokens[hash := Row(user, expires, false)],
         logins := s.logins + [user],
         origin := s.origin[hash := |s.logins|])
    case Lookup(x, token, _) =>
      s.(exchanges := s.exchanges[x := Exchange(token, s.tokens[token].user, LookedUp)])
    case Revoke(x) =>
      var e := s.exchanges[x];
      s.(tokens := WithRevoked(s.tokens, e.token), exchanges := s.exchanges[x := e.(phase := Revoked)])
    case Issue(x, hash, expires) =>
      var e := s.exchanges[x];
      s.(tokens := s.tokens[hash := Row(e.user, expires, false)],
         origin := s.origin[hash := s.origin[e.token]],
         exchanges := s.exchanges - {x},
         exchanged := s.exchanged + [e.token])
    case Drop(x) => s.(exchanges := s.exchanges - {x})
  }

  /** No exchange of `token` is between its lookup and its revocation. */
  ghost predicate Unclaimed(exchanges: map<nat, Exchange>, token: Hash) {
    forall x | x in exchanges && exchanges[x].phase.LookedUp? :: exchanges[x].token != token
  }

  /**
   A run in which no token is looked up while another exchange of it has yet to revoke it. Handlers
   that run one at a time to completion always have this property, since then nothing is in progress
   at a lookup.
   */
  ghost predicate SerialRun(s: State, actions: seq<Action>, t: State)
    decreases |actions|
  {
    if actions == [] then s == t
    else
      var a := actions[0];
      && Enabled(s, a)
      && (a.Lookup? ==> Unclaimed(s.exchanges, a.token))
      && SerialRun(Next(s, a), actions[1..], t)
  }

  predicate Initial(s: State) {
    s.tokens == map[] && s.exchanges == map[] && s.logins == [] && s.origin == map[] && s.exchanged == []
  }

  // ---------- what is kept ----------

  predicate Live(tokens: map<Hash, Row>, h: Hash) {
    h in tokens && !tokens[h].revoked
  }

  /** The right to the next live token of a login: held by a live token, or by an exchange that will issue one. */
  datatype Heir = Token(hash: Hash) | Successor(x: nat)

  ghost predicate IsHeir(s: State, h: Heir, login: nat) {
    match h
    case Token(t) => Live(s.tokens, t) && t in s.origin && s.origin[t] == login
    case Successor(x) => x in s.exchanges && s.exchanges[x].phase.Revoked?
                         && s.exchanges[x].token in s.origin && s.origin[s.exchanges[x].token] == login
  }

  ghost predicate OneHeir(s: State) {
    forall login, h, k :: IsHeir(s, h, login) && IsHeir(s, k, login) ==> h == k
  }

  /** Every token descends from a login of the same user. */
  predicate Rooted(s: State) {
    && s.origin.Keys == s.tokens.Keys
    && forall h | h in s.tokens :: s.origin[h] < |s.logins| && s.logins[s.origin[h]] == s.tokens[h].user
  }

  ghost predicate ExchangesSound(s: State) {
    && (forall x | x in s.exchanges :: var e := s.exchanges[x];
        e.token in s.tokens && e.user == s.tokens[e.token].user && s.tokens[e.token].revoked == e.phase.Revoked?)
    && (forall x, y | x in s.exchanges && y in s.exchanges && x != y :: s.exchanges[x].token != s.exchanges[y].token)
  }

  ghost predicate ExchangedOnce(s: State) {
    && (forall h | h in s.exchanged :: h in s.tokens && s.tokens[h].revoked)
    && (forall x | x in s.exchanges :: s.exchanges[x].token !in s.exchanged)
    && (forall i, j | 0 <= i < j < |s.exchanged| :: s.exchanged[i] != s.exchanged[j])
  }

  ghost predicate Inv(s: State) {
    Rooted(s) && ExchangesSound(s) && ExchangedOnce(s) && OneHeir(s)
  }

  ghost predicate SerialStep(s: State, a: Action) {
    Enabled(s, a) && (a.Lookup? ==> Unclaimed(s.exchanges, a.token))
  }

  lemma StepKeepsRoots(s: State, a: Action)
    requires Rooted(s) && ExchangesSound(s) && SerialStep(s, a)
    ensures Rooted(Next(s, a))
  {
  }

  lemma StepKeepsExchanges(s: State, a: Action)
    requires ExchangesSound(s) && SerialStep(s, a)
    ensures ExchangesSound(Next(s, a))
  {
  }

  lemma StepKeepsExchangedOnce(s: State, a: Action)
    requires ExchangesSound(s) && ExchangedOnce(s) && SerialStep(s, a)
    ensures ExchangedOnce(Next(s, a))
  {
  }

  /** The heir before the step whose right `h` holds after it. */
  function Before(s: State, a: Action, h: Heir): Heir
    requires Enabled(s, a)
  {
    if a.Revoke? && h == Successor(a.x) then Token(s.exchanges[a.x].token)
    else if a.Issue? && h == Token(a.hash) then Successor(a.x)
    else h
  }

  lemma HeirBefore(s: State, a: Action, h: Heir, login: nat)
    requires Rooted(s) && ExchangesSound(s) && SerialStep(s, a) && IsHeir(Next(s, a), h, login)
    ensures IsHeir(s, Before(s, a, h), login) || (a.Login? && login == |s.logins| && h == Token(a.hash))
  {
  }

  lemma StepKeepsOneHeir(s: State, a: Action)
    requires Inv(s) && SerialStep(s, a)
    ensures OneHeir(Next(s, a))
  {
    var t := Next(s, a);
    forall login, h, k | IsHeir(t, h, login) && IsHeir(t, k, login) ensures h == k {
      SameHeir(s, a, login, h, k);
    }
  }

  lemma SameHeir(s: State, a: Action, login: nat, h: Heir, k: Heir)
    requires Inv(s) && SerialStep(s, a) && IsHeir(Next(s, a), h, login) && IsHeir(Next(s, a), k, login)
    ensures h == k
  {
    HeirBefore(s, a, h, login);
    HeirBefore(s, a, k, login);
    if a.Login? && login == |s.logins| {
      assert forall g :: !IsHeir(s, g, login);
    } else {
      assert Before(s, a, h) == Before(s, a, k);
    }
  }

  lemma StepKeepsInv(s: State, a: Action)
    requires Inv(s) && SerialStep(s, a)
    ensures Inv(Next(s, a))
  {
    StepKeepsRoots(s, a);
    StepKeepsExchanges(s, a);
    StepKeepsExchangedOnce(s, a);
    StepKeepsOneHeir(s, a);
  }

  lemma {:induction false} RunKeepsInv(s: State, actions: seq<Action>, t: State)
    requires Inv(s) && SerialRun(s, actions, t)
    ensures Inv(t)
    decreases |actions|
  {
    if actions != [] {
      StepKeepsInv(s, actions[0]);
      RunKeepsInv(Next(s, actions[0]), actions[1..], t);
    }
  }

  /**
   In every such run a login has at most one live token at any time, each token is exchanged at most
   once, and every token of a login belongs to the user who logged in.
   */
  lemma OneLiveTokenPerLogin(s: State, actions: seq<Action>, t: State)
    requires Initial(s) && SerialRun(s, actions, t)
    ensures t.origin.Keys == t.tokens.Keys
    ensures forall g, h | Live(t.tokens, g) && Live(t.tokens, h) && t.origin[g] == t.origin[h] :: g == h
    ensures forall i, j | 0 <= i < j < |t.exchanged| :: t.exchanged[i] != t.exchanged[j]
    ensures forall h | h in t.tokens :: t.origin[h] < |t.logins| && t.logins[t.origin[h]] == t.tokens[h].user
  {
    assert Inv(s);
    RunKeepsInv(s, actions, t);
    forall g, h | Live(t.tokens, g) && Live(t.tokens, h) && t.origin[g] == t.origin[h] ensures g == h {
      assert IsHeir(t, Token(g), t.origin[g]) && IsHeir(t, Token(h), t.origin[g]);
    }
  }

  /** Any steps at all, overlapping lookups included. */
  ghost predicate Run(s: State, actions: seq<Action>, t: State)
    decreases |actions|
  {
    if actions == [] then s == t else Enabled(s, actions[0]) && Run(Next(s, actions[0]), actions[1..], t)
  }

  lemma RunCons(s: State, a: Action, rest: seq<Action>, t: State)
    requires Enabled(s, a) && Run(Next(s, a), rest, t)
    ensures Run(s, [a] + rest, t)
  {
    assert ([a] + rest)[1..] == rest;
  }

  ghost predicate NoLookups(actions: seq<Action>) {
    forall a <- actions :: !a.Lookup?
  }

  /** Once two handlers have looked the same token up, both can issue a successor. */
  lemma BothIssue(s: State, x: nat, y: nat, g: Hash, h: Hash, expires: int) returns (actions: seq<Action>, t: State)
    requires Rooted(s) && x != y && x in s.exchanges && y in s.exchanges
    requires s.exchanges[x].phase.LookedUp? && s.exchanges[y].phase.LookedUp?
    requires s.exchanges[x].token == s.exchanges[y].token && s.exchanges[x].token in s.tokens
    requires g != h && g !in s.tokens && h !in s.tokens
    ensures Run(s, actions, t) && Live(t.tokens, g) && Live(t.tokens, h)
    ensures t.origin == s.origin[g := s.origin[s.exchanges[x].token]][h := s.origin[s.exchanges[x].token]]
    ensures t.exchanged == s.exchanged + [s.exchanges[x].token, s.exchanges[x].token]
    ensures NoLookups(actions)
  {
    var s1 := Next(s, Revoke(x));
    var s2 := Next(s1, Issue(x, g, expires));
    var s3 := Next(s2, Revoke(y));
    t := Next(s3, Issue(y, h, expires));
    actions := [];
    RunCons(s3, Issue(y, h, expires), actions, t);
    actions := [Issue(y, h, expires)] + actions;
    RunCons(s2, Revoke(y), actions, t);
    actions := [Revoke(y)] + actions;
    RunCons(s1, Issue(x, g, expires), actions, t);
    actions := [Issue(x, g, expires)] + actions;
    RunCons(s, Revoke(x), actions, t);
    actions := [Revoke(x)] + actions;
  }

  /**
   Without serial handlers the property fails for every usable token: two refreshes that both look it
   up before either revokes it leave its login with two live tokens.
   */
  lemma OverlapForks(s: State, token: Hash, now: int, x: nat, y: nat, g: Hash, h: Hash, expires: int)
    returns (actions: seq<Action>, t: State)
    requires Inv(s) && Usable(s.tokens, s.enabled, token, now)
    requires x != y && x !in s.exchanges && y !in s.exchanges && g != h && g !in s.tokens && h !in s.tokens
    ensures Run(s, actions, t) && Live(t.tokens, g) && Live(t.tokens, h)
    ensures t.origin.Keys == s.origin.Keys + {g, h} && t.origin[g] == t.origin[h] == s.origin[token]
    ensures t.exchanged == s.exchanged + [token, token]
  {
    var s1 := Next(s, Lookup(x, token, now));
    var s2 := Next(s1, Lookup(y, token, now));
    actions, t := BothIssue(s2, x, y, g, h, expires);
    RunCons(s1, Lookup(y, token, now), actions, t);
    actions := [Lookup(y, token, now)] + actions;
    RunCons(s, Lookup(x, token, now), actions, t);
    actions := [Lookup(x, token, now)] + actions;
  }

  // ---------- what was looked up ----------

  /** Stored expiries and owners never change. */
  ghost predicate Extends(before: map<Hash, Row>, after: map<Hash, Row>) {
    forall h | h in before ::
      h in after && after[h].expiresAt == before[h].expiresAt && after[h].user == before[h].user
  }

  lemma {:induction false} RunExtends(s: State, actions: seq<Action>, t: State)
    requires Run(s, actions, t)
    ensures Extends(s.tokens, t.tokens)
    decreases |actions|
  {
    if actions != [] {
      RunExtends(Next(s, actions[0]), actions[1..], t);
    }
  }

  /** Some lookup of `h` came before its expiry. */
  ghost predicate LookedUpInTime(actions: seq<Action>, tokens: map<Hash, Row>, h: Hash) {
    exists a <- actions :: a.Lookup? && a.token == h && h in tokens && a.now < tokens[h].expiresAt
  }

  /** A token is being exchanged or has been. */
  predicate Claimed(s: State, h: Hash) {
    h in s.exchanged || exists x :: x in s.exchanges && s.exchanges[x].token == h
  }

  lemma ClaimedByLookup(s: State, a: Action, h: Hash)
    requires Enabled(s, a) && Claimed(Next(s, a), h)
    ensures Claimed(s, h) || (a.Lookup? && a.token == h && h in s.tokens && a.now < s.tokens[h].expiresAt)
  {
    var t := Next(s, a);
    if h !in t.exchanged {
      var x :| x in t.exchanges && t.exchanges[x].token == h;
      assert a.Lookup? || (x in s.exchanges && s.exchanges[x].token == h);
    }
  }

  lemma {:induction false} ClaimsAreInTime(s: State, actions: seq<Action>, t: State, h: Hash)
    requires Run(s, actions, t) && Claimed(t, h)
    ensures Claimed(s, h) || LookedUpInTime(actions, t.tokens, h)
    decreases |actions|
  {
    if actions != [] {
      var a, next := actions[0], Next(s, actions[0]);
      ClaimsAreInTime(next, actions[1..], t, h);
      RunExtends(s, actions, t);
      if Claimed(next, h) {
        ClaimedByLookup(s, a, h);
        assert a in actions;
      } else {
        var b :| b in actions[1..] && b.Lookup? && b.token == h && h in t.tokens && b.now < t.tokens[h].expiresAt;
        assert b in actions;
      }
    }
  }

  /**
   No step sequence, overlapping lookups included, issues a successor for a token that was looked up
   only at or after its expiry, nor begins to exchange one.
   */
  lemma ExpiredIsNeverExchanged(s: State, actions: seq<Action>, t: State, h: Hash)
    requires Initial(s) && Run(s, actions, t)
    requires forall a <- actions | a.Lookup? && a.token == h :: h in t.tokens && a.now >= t.tokens[h].expiresAt
    ensures h !in t.exchanged && forall x | x in t.exchanges :: t.exchanges[x].token != h
  {
    if Claimed(t, h) {
      ClaimsAreInTime(s, actions, t, h);
      assert false;
    }
  }

  // ---------- the guard is exact ----------

  /** No login has two live tokens. */
  ghost predicate NoFork(s: State) {
    s.origin.Keys == s.tokens.Keys
    && forall g, h | Live(s.tokens, g) && Live(s.tokens, h) && s.origin[g] == s.origin[h] :: g == h
  }

  /** However a run goes on with guarded lookups, no login gets two live tokens. */
  ghost predicate NeverForks(s: State) {
    forall actions, t :: SerialRun(s, actions, t) ==> NoFork(t)
  }

  lemma InvHasNoFork(s: State)
    requires Inv(s)
    ensures NoFork(s)
  {
    forall g, h | Live(s.tokens, g) && Live(s.tokens, h) && s.origin[g] == s.origin[h] ensures g == h {
      assert IsHeir(s, Token(g), s.origin[g]) && IsHeir(s, Token(h), s.origin[g]);
    }
  }

  lemma {:induction false} RunIsSerial(s: State, actions: seq<Action>, t: State)
    requires Run(s, actions, t) && NoLookups(actions)
    ensures SerialRun(s, actions, t)
    decreases |actions|
  {
    if actions != [] {
      RunIsSerial(Next(s, actions[0]), actions[1..], t);
    }
  }

  /**
   From every reachable state, a lookup leaves all continuations without a fork if and only if no other
   exchange of the token has yet to revoke it.
   */
  lemma LookupIsSafeExactly(s: State, x: nat, token: Hash, now: int)
    requires Inv(s) && Enabled(s, Lookup(x, token, now))
    ensures NeverForks(Next(s, Lookup(x, token, now))) <==> Unclaimed(s.exchanges, token)
  {
    var a := Lookup(x, token, now);
    var after := Next(s, a);
    if Unclaimed(s.exchanges, token) {
      StepKeepsInv(s, a);
      forall actions, t | SerialRun(after, actions, t) ensures NoFork(t) {
        RunKeepsInv(after, actions, t);
        InvHasNoFork(t);
      }
    } else {
      var y :| y in s.exchanges && s.exchanges[y].phase.LookedUp? && s.exchanges[y].token == token;
      var g := NumberOutside(s.tokens.Keys);
      var h := NumberOutside(s.tokens.Keys + {g});
      var actions, t := BothIssue(after, y, x, g, h, 0);
      RunIsSerial(after, actions, t);
      assert t.origin[g] == t.origin[h];
    }
  }

  // ---------- the handlers ----------

  datatype AuthError = InvalidCredentials | InvalidToken | Internal

  /** The stored rows behind the two handlers; finding the user and checking the password are parameters. */
  class AuthStore {
    var enabled: map<nat, bool>
    var tokens: map<Hash, Row>

    constructor (enabled: map<nat, bool>)
      ensures this.enabled == enabled && tokens == map[]
    {
      this.enabled, tokens := enabled, map[];
    }

    /** The insert fails on a hash that is already stored. */
    method IssueTokens(user: nat, hash: Hash, expires: int) returns (r: Result<Hash, AuthError>)
      modifies this`tokens
      ensures if hash in old(tokens) then r == Err(Internal) && tokens == old(tokens)
              else r == Ok(hash) && tokens == old(tokens)[hash := Row(user, expires, false)]
    {
      if hash in tokens {
        return Err(Internal);
      }
      tokens := tokens[hash := Row(user, expires, false)];
      r := Ok(hash);
    }

    method Login(found: Option<nat>, passwordOk: bool, hash: Hash, expires: int) returns (r: Result<Hash, AuthError>)
      modifies this`tokens
      ensures r == Err(InvalidCredentials) <==>
              found.None? || found.value !in enabled || !enabled[found.value] || !passwordOk
      ensures r.Ok? ==> r.value == hash && hash !in old(tokens)
                        && tokens == old(tokens)[hash := Row(found.value, expires, false)]
      ensures r.Err? ==> tokens == old(tokens) && r.error != InvalidToken && (r.error == Internal ==> hash in tokens)
    {
      if found.None? || found.value !in enabled || !enabled[found.value] || !passwordOk {
        return Err(InvalidCredentials);
      }
      r := IssueTokens(found.value, hash, expires);
    }

    /** A failed issue comes after the revocation, so the session is then lost. */
    method Refresh(token: Hash, now: int, hash: Hash, expires: int) returns (r: Result<Hash, AuthError>)
      modifies this`tokens
      ensures r == Err(InvalidToken) <==>
                token !in old(tokens) || (var row := old(tokens)[token];
                                          row.revoked || row.expiresAt <= now
                                          || row.user !in enabled || !enabled[row.user])
      ensures r == Err(InvalidToken) ==> tokens == old(tokens)
      ensures r == Err(Internal) ==>
                hash in old(tokens) && tokens == old(tokens)[token := old(tokens)[token].(revoked := true)]
      ensures r.Ok? ==> r.value == hash && hash !in old(tokens) && hash != token
                        && var row := old(tokens)[token];
                           tokens == old(tokens)[token := row.(revoked := true)][hash := Row(row.user, expires, false)]
      ensures r.Ok? || r.error in {InvalidToken, Internal}
      ensures token in tokens ==> tokens[token].revoked || r == Err(InvalidToken)
    {
      if !Usable(tokens, enabled, token, now) {
        return Err(InvalidToken);
      }
      var user := tokens[token].user;
      tokens := WithRevoked(tokens, token);
      r := IssueTokens(user, hash, expires);
    }
  }

  /** A login is a step of the system with exactly the effect of the handler. */
  lemma LoginIsStep(s: State, user: nat, hash: Hash, expires: int)
    requires user in s.enabled && s.enabled[user] && hash !in s.tokens
    ensures Enabled(s, Login(user, hash, expires))
    ensures var t := Next(s, Login(user, hash, expires));
            && t.tokens == s.tokens[hash := Row(user, expires, false)]
            && t.enabled == s.enabled && t.exchanges == s.exchanges && t.exchanged == s.exchanged
            && t.logins == s.logins + [user] && t.origin == s.origin[hash := |s.logins|]
  {
  }

  /** Users can be disabled at any time, and no token of a disabled user is looked up from then on. */
  lemma DisabledUserIsRefused(s: State, user: nat, x: nat, token: Hash, now: int)
    requires token in s.tokens && s.tokens[token].user == user
    ensures Enabled(s, SetEnabled(user, false))
    ensures !Enabled(Next(s, SetEnabled(user, false)), Lookup(x, token, now))
  {
  }

  /** A refresh whose issue fails is lookup, revoke and drop: the old token is gone and there is no new one. */
  lemma FailedRefreshIsDrop(s: State, x: nat, token: Hash, now: int)
    requires Inv(s) && x !in s.exchanges && Unclaimed(s.exchanges, token) && Usable(s.tokens, s.enabled, token, now)
    ensures var s2 := Next(Next(s, Lookup(x, token, now)), Revoke(x));
            Enabled(s2, Drop(x)) && Next(s2, Drop(x)) ==
            s.(tokens := s.tokens[token := s.tokens[token].(revoked := true)])
  {
    var s2 := Next(Next(s, Lookup(x, token, now)), Revoke(x));
    assert s2.exchanges - {x} == s.exchanges;
  }

  /** Lookup, revoke and issue in a row are steps of the system and have exactly Refresh's effect. */
  lemma RefreshIsLookupRevokeIssue(s: State, x: nat, token: Hash, now: int, hash: Hash, expires: int)
    requires Inv(s) && x !in s.exchanges && Unclaimed(s.exchanges, token)
    requires Usable(s.tokens, s.enabled, token, now) && hash !in s.tokens
    ensures SerialStep(s, Lookup(x, token, now))
    ensures var s1 := Next(s, Lookup(x, token, now));
            SerialStep(s1, Revoke(x)) &&
            var s2 := Next(s1, Revoke(x));
            SerialStep(s2, Issue(x, hash, expires)) &&
            var t := Next(s2, Issue(x, hash, expires));
            && t.exchanges == s.exchanges && t.origin == s.origin[hash := s.origin[token]]
            && t.tokens == WithRevoked(s.tokens, token)[hash := Row(s.tokens[token].user, expires, false)]
  {
    var s2 := Next(Next(s, Lookup(x, token, now)), Revoke(x));
    assert s2.exchanges - {x} == s.exchanges;
  }
}
