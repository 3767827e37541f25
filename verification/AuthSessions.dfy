/**
 * Login sessions and their refresh tokens. A refresh token is stored as a hash, is exchanged for a new
 * one on every refresh, and dies with its session or its account. Each request is one transaction.
 */
module AuthSessions {
  import opened Prelude

  type CredentialId = nat
  type UserId = nat
  type SessionId = nat
  type Hash = nat

  datatype AuthSession = AuthSession(credential: CredentialId, revoked: bool)

  /** Tokens from before sessions were introduced have none. */
  datatype RefreshToken = RefreshToken(credential: CredentialId, session: Option<SessionId>, expiresAt: int)

  datatype Tables = Tables(
    credentials: map<CredentialId, UserId>,
    sessions: map<SessionId, AuthSession>,
    tokens: map<Hash, RefreshToken>)

  // ---- What each request does to the tables ----------------------------------------------------------

  function LoggedIn(t: Tables, c: CredentialId, s: SessionId, h: Hash, expiresAt: int): Tables {
    t.(sessions := t.sessions[s := AuthSession(c, false)], tokens := t.tokens[h := RefreshToken(c, Some(s), expiresAt)])
  }

  /** None: the request fails, whatever the reason. */
  function Rotated(t: Tables, h: Hash, newHash: Hash, expiresAt: int, now: int): Option<Tables> {
    if h !in t.tokens then None
    else
      var token := t.tokens[h];
      if token.session.None? || token.expiresAt <= now then None
      else if token.session.value !in t.sessions || t.sessions[token.session.value].revoked then None
      else if token.credential !in t.credentials ||
          token.credential != t.sessions[token.session.value].credential then None
      else Some(t.(tokens := (t.tokens - {h})[newHash := RefreshToken(token.credential, token.session, expiresAt)]))
  }

  function TokensOutside(tokens: map<Hash, RefreshToken>, s: SessionId): map<Hash, RefreshToken> {
    map h | h in tokens && tokens[h].session != Some(s) :: tokens[h]
  }

  /** An unknown or expired token revokes nothing. */
  function LoggedOut(t: Tables, h: Hash, now: int): Tables {
    if h !in t.tokens || t.tokens[h].expiresAt <= now then t
    else match t.tokens[h].session
      case None => t.(tokens := t.tokens - {h})
      case Some(s) =>
        t.(sessions := if s in t.sessions then t.sessions[s := t.sessions[s].(revoked := true)] else t.sessions,
           tokens := TokensOutside(t.tokens, s))
  }

  predicate Owns(t: Tables, user: UserId, c: CredentialId) {
    c in t.credentials && t.credentials[c] == user
  }

  function Withdrawn(t: Tables, user: UserId, c: CredentialId): Tables {
    if !Owns(t, user, c) then t
    else Tables(
      t.credentials - {c},
      map s | s in t.sessions && t.sessions[s].credential != c :: t.sessions[s],
      map h | h in t.tokens && t.tokens[h].credential != c :: t.tokens[h])
  }

  // ---- The repository and the requests ---------------------------------------------------------------

  /** One database session: `working` holds its uncommitted writes. */
  class CredentialStore {
    var stored: Tables
    var working: Tables

    constructor (stored: Tables)
      ensures this.stored == stored && working == stored
    {
      this.stored := stored;
      working := stored;
    }

    method Commit()
      modifies this
      ensures stored == old(working) && working == stored
    {
      stored := working;
    }

    method Rollback()
      modifies this
      ensures stored == old(stored) && working == stored
    {
      working := stored;
    }

    method CreateSession(c: CredentialId, s: SessionId)
      modifies this`working
      ensures working == old(working).(sessions := old(working).sessions[s := AuthSession(c, false)])
    {
      working := working.(sessions := working.sessions[s := AuthSession(c, false)]);
    }

    method SaveRefreshToken(c: CredentialId, s: SessionId, h: Hash, expiresAt: int)
      modifies this`working
      ensures working == old(working).(tokens := old(working).tokens[h := RefreshToken(c, Some(s), expiresAt)])
    {
      working := working.(tokens := working.tokens[h := RefreshToken(c, Some(s), expiresAt)]);
    }

    /** The stored row is deleted before the checks: on failure the caller must roll back. */
    method RotateRefreshToken(h: Hash, newHash: Hash, expiresAt: int, now: int) returns (rotated: bool)
      modifies this`working
      ensures rotated <==> Rotated(old(working), h, newHash, expiresAt, now).Some?
      ensures rotated ==> working == Rotated(old(working), h, newHash, expiresAt, now).value
      ensures !rotated ==> working == old(working).(tokens := old(working).tokens - {h})
      ensures rotated <==>
                && h in old(working).tokens && old(working).tokens[h].expiresAt > now
                && exists s :: s in old(working).sessions && old(working).tokens[h].session == Some(s)
                     && !old(working).sessions[s].revoked
                     && old(working).sessions[s].credential == old(working).tokens[h].credential
                     && old(working).tokens[h].credential in old(working).credentials
      ensures rotated ==>
                && working.sessions == old(working).sessions && working.credentials == old(working).credentials
                && working.tokens ==
                     (old(working).tokens - {h})[newHash := old(working).tokens[h].(expiresAt := expiresAt)]
    {
      if h !in working.tokens {
        assert working.tokens - {h} == working.tokens;
        return false;
      }
      var token := working.tokens[h];
      working := working.(tokens := working.tokens - {h});
      if token.session.None? {
        return false;
      }
      if token.expiresAt <= now {
        return false;
      }
      var s := token.session.value;
      if s !in working.sessions || working.sessions[s].revoked {
        return false;
      }
      if token.credential !in working.credentials || token.credential != working.sessions[s].credential {
        return false;
      }
      SaveRefreshToken(token.credential, s, newHash, expiresAt);
      return true;
    }

    method RevokeSessionByRefreshToken(h: Hash, now: int)
      modifies this`working
      ensures working == LoggedOut(old(working), h, now)
      ensures var before := old(working);
              var found := h in before.tokens && before.tokens[h].expiresAt > now;
              && working.credentials == before.credentials
              && (forall g :: g in working.tokens <==>
                    && g in before.tokens
                    && !(found && (g == h || (before.tokens[h].session.Some?
                                              && before.tokens[g].session == before.tokens[h].session))))
              && (forall g :: g in working.tokens ==> working.tokens[g] == before.tokens[g])
              && working.sessions.Keys == before.sessions.Keys
              && forall s :: s in before.sessions ==>
                   && working.sessions[s].credential == before.sessions[s].credential
                   && (working.sessions[s].revoked <==>
                         before.sessions[s].revoked || (found && before.tokens[h].session == Some(s)))
    {
      if h !in working.tokens || working.tokens[h].expiresAt <= now {
        return;
      }
      var session := working.tokens[h].session;
      if session.None? {
        working := working.(tokens := working.tokens - {h});
        return;
      }
      var s := session.value;
      if s in working.sessions {
        working := working.(sessions := working.sessions[s := working.sessions[s].(revoked := true)]);
      }
      working := working.(tokens := TokensOutside(working.tokens, s));
    }

    method DeleteAccountAuthState(user: UserId, c: CredentialId)
      modifies this`working
      ensures working == Withdrawn(old(working), user, c)
      ensures var before := old(working);
              var owned := c in before.credentials && before.credentials[c] == user;
              && (forall g :: g in working.tokens <==>
                    g in before.tokens && !(owned && before.tokens[g].credential == c))
              && (forall s :: s in working.sessions <==>
                    s in before.sessions && !(owned && before.sessions[s].credential == c))
              && working.credentials == (if owned then before.credentials - {c} else before.credentials)
              && (forall g :: g in working.tokens ==> working.tokens[g] == before.tokens[g])
              && forall s :: s in working.sessions ==> working.sessions[s] == before.sessions[s]
    {
      if !Owns(working, user, c) {
        return;
      }
      working := working.(tokens := map h | h in working.tokens && working.tokens[h].credential != c ::
                            working.tokens[h]);
      working := working.(sessions := map s | s in working.sessions && working.sessions[s].credential != c ::
                            working.sessions[s]);
      working := working.(credentials := working.credentials - {c});
    }
  }

  method Login(store: CredentialStore, c: CredentialId, s: SessionId, h: Hash, expiresAt: int)
    requires store.working == store.stored && c in store.stored.credentials
    modifies store
    ensures store.working == store.stored == LoggedIn(old(store.stored), c, s, h, expiresAt)
  {
    store.CreateSession(c, s);
    store.SaveRefreshToken(c, s, h, expiresAt);
    store.Commit();
  }

  /** The first login of a new credential, in the transaction that creates it. */
  method Signup(store: CredentialStore, user: UserId, c: CredentialId, s: SessionId, h: Hash, expiresAt: int)
    requires store.working == store.stored
    modifies store
    ensures store.working == store.stored ==
            LoggedIn(old(store.stored).(credentials := old(store.stored).credentials[c := user]), c, s, h, expiresAt)
  {
    store.working := store.working.(credentials := store.working.credentials[c := user]);
    store.CreateSession(c, s);
    store.SaveRefreshToken(c, s, h, expiresAt);
    store.Commit();
  }

  /** A failed refresh changes nothing, although the repository had already deleted the row. */
  method Refresh(store: CredentialStore, h: Hash, newHash: Hash, expiresAt: int, now: int) returns (refreshed: bool)
    requires store.working == store.stored
    modifies store
    ensures refreshed <==> Rotated(old(store.stored), h, newHash, expiresAt, now).Some?
    ensures store.working == store.stored
    ensures store.stored == if refreshed then Rotated(old(store.stored), h, newHash, expiresAt, now).value
                            else old(store.stored)
  {
    refreshed := store.RotateRefreshToken(h, newHash, expiresAt, now);
    if refreshed {
      store.Commit();
    } else {
      store.Rollback();
    }
  }

  method Logout(store: CredentialStore, h: Hash, now: int)
    requires store.working == store.stored
    modifies store
    ensures store.working == store.stored == LoggedOut(old(store.stored), h, now)
  {
    store.RevokeSessionByRefreshToken(h, now);
    store.Commit();
  }

  method Withdraw(store: CredentialStore, user: UserId, c: CredentialId)
    requires store.working == store.stored
    modifies store
    ensures store.working == store.stored == Withdrawn(old(store.stored), user, c)
  {
    store.DeleteAccountAuthState(user, c);
    store.Commit();
  }

  // ---- Runs ---------------------------------------------------------------------------------------------

  /** `issued` remembers, for every hash ever handed out, the session it was handed out for. */
  datatype State = State(tables: Tables, issued: map<Hash, SessionId>, owners: map<SessionId, CredentialId>)

  datatype Step =
    | SignupStep(user: UserId, c: CredentialId, s: SessionId, h: Hash, expiresAt: int)
    | LoginStep(c: CredentialId, s: SessionId, h: Hash, expiresAt: int)
    | RefreshStep(h: Hash, newHash: Hash, expiresAt: int, now: int)
    | LogoutStep(h: Hash, now: int)
    | WithdrawStep(user: UserId, c: CredentialId)

  predicate Init(s: State) {
    s == State(Tables(map[], map[], map[]), map[], map[])
  }

  /** Hashes and ids are random: a new one was never used before. */
  predicate Enabled(st: State, step: Step) {
    match step
    case SignupStep(user, c, s, h, expiresAt) =>
      h !in st.issued && s !in st.owners && c !in st.tables.credentials && c !in st.owners.Values
    case LoginStep(c, s, h, expiresAt) => h !in st.issued && s !in st.owners && c in st.tables.credentials
    case RefreshStep(h, newHash, expiresAt, now) => newHash !in st.issued
    case LogoutStep(h, now) => true
    case WithdrawStep(user, c) => true
  }

  function Next(st: State, step: Step): State
    requires Enabled(st, step)
  {
    match step
    case SignupStep(user, c, s, h, expiresAt) =>
      State(LoggedIn(st.tables.(credentials := st.tables.credentials[c := user]), c, s, h, expiresAt),
            st.issued[h := s], st.owners[s := c])
    case LoginStep(c, s, h, expiresAt) =>
        State(LoggedIn(st.tables, c, s, h, expiresAt), st.issued[h := s], st.owners[s := c])
    case RefreshStep(h, newHash, expiresAt, now) =>
      var after := Rotated(st.tables, h, newHash, expiresAt, now);
      if after.None? then st
      else State(after.value, st.issued[newHash := st.tables.tokens[h].session.value], st.owners)
    case LogoutStep(h, now) => st.(tables := LoggedOut(st.tables, h, now))
    case WithdrawStep(user, c) => st.(tables := Withdrawn(st.tables, user, c))
  }

  ghost predicate Run(states: seq<State>, steps: seq<Step>) {
    && |states| == |steps| + 1
    && Init(states[0])
    && forall i {:trigger steps[i]} :: 0 <= i < |steps| ==>
        Enabled(states[i], steps[i]) && states[i + 1] == Next(states[i], steps[i])
  }

  /** A stored token names an unrevoked session of its own, existing credential. */
  ghost predicate TokenLive(st: State, h: Hash)
    requires h in st.tables.tokens
  {
    var token := st.tables.tokens[h];
    && token.session.Some? && token.session.value in st.tables.sessions
    && !st.tables.sessions[token.session.value].revoked
    && st.tables.sessions[token.session.value].credential == token.credential
    && token.credential in st.tables.credentials
    && h in st.issued && st.issued[h] == token.session.value
  }

  ghost predicate Inv(st: State) {
    && (forall h :: h in st.tables.tokens ==> TokenLive(st, h))
    && (forall g, h :: g in st.tables.tokens && h in st.tables.tokens && g != h ==>
          st.tables.tokens[g].session != st.tables.tokens[h].session)
    && (forall s :: s in st.tables.sessions ==> s in st.owners && st.owners[s] == st.tables.sessions[s].credential)
    && (forall s :: s in st.tables.sessions ==> st.tables.sessions[s].credential in st.tables.credentials)
    && (forall h :: h in st.issued ==> st.issued[h] in st.owners)
  }

  ghost predicate TokensLive(st: State) {
    forall h :: h in st.tables.tokens ==> TokenLive(st, h)
  }

  lemma TokensStayLive(st: State, step: Step)
    requires Inv(st) && Enabled(st, step)
    ensures TokensLive(Next(st, step))
  {
    var st' := Next(st, step);
    forall h | h in st'.tables.tokens ensures TokenLive(st', h) {
      if h in st.tables.tokens { assert TokenLive(st, h); }
      if step.RefreshStep? && step.h in st.tables.tokens { assert TokenLive(st, step.h); }
    }
  }

  lemma InvKept(st: State, step: Step)
    requires Inv(st) && Enabled(st, step)
    ensures Inv(Next(st, step))
  {
    TokensStayLive(st, step);
    var st' := Next(st, step);
    forall g, h | g in st'.tables.tokens && h in st'.tables.tokens && g != h
      ensures st'.tables.tokens[g].session != st'.tables.tokens[h].session
    {
      if g in st.tables.tokens { assert TokenLive(st, g); }
      if h in st.tables.tokens { assert TokenLive(st, h); }
    }
  }

  lemma {:induction false} RunKeepsInv(states: seq<State>, steps: seq<Step>, i: nat)
    requires Run(states, steps) && i < |states|
    ensures Inv(states[i])
  {
    if i > 0 {
      RunKeepsInv(states, steps, i - 1);
      assert Enabled(states[i - 1], steps[i - 1]);
      InvKept(states[i - 1], steps[i - 1]);
    }
  }

  lemma OneTokenPerSession(states: seq<State>, steps: seq<Step>, i: nat, g: Hash, h: Hash)
    requires Run(states, steps) && i < |states| && g in states[i].tables.tokens && h in states[i].tables.tokens
    requires states[i].tables.tokens[g].session == states[i].tables.tokens[h].session
    ensures g == h
  {
    RunKeepsInv(states, steps, i);
  }

  lemma StoredTokensAreLive(states: seq<State>, steps: seq<Step>, i: nat, h: Hash)
    requires Run(states, steps) && i < |states| && h in states[i].tables.tokens
    ensures TokenLive(states[i], h)
  {
    RunKeepsInv(states, steps, i);
  }

  /** In every reachable state a refresh succeeds exactly for a stored, unexpired token. */
  lemma RefreshSucceedsExactly(states: seq<State>, steps: seq<Step>, i: nat, h: Hash, newHash: Hash, expiresAt: int,
                               now: int)
    requires Run(states, steps) && i < |states|
    ensures Rotated(states[i].tables, h, newHash, expiresAt, now).Some? <==>
            h in states[i].tables.tokens && states[i].tables.tokens[h].expiresAt > now
  {
    RunKeepsInv(states, steps, i);
    if h in states[i].tables.tokens { assert TokenLive(states[i], h); }
  }

  predicate OpensSession(step: Step) {
    step.SignupStep? || step.LoginStep?
  }

  /** A new login works: its token can be refreshed until it expires, and its session is active for its user. */
  lemma LoginWorks(states: seq<State>, steps: seq<Step>, i: nat, newHash: Hash, expiresAt: int, now: int)
    requires Run(states, steps) && i < |steps| && OpensSession(steps[i])
    ensures var step, after := steps[i], states[i + 1].tables;
            && (Rotated(after, step.h, newHash, expiresAt, now).Some? <==> now < step.expiresAt)
            && step.c in after.credentials && ActiveSession(after, after.credentials[step.c], step.c, step.s)
            && (step.SignupStep? ==> after.credentials[step.c] == step.user)
            && (step.LoginStep? ==> after.credentials == states[i].tables.credentials)
  {
    assert Enabled(states[i], steps[i]);
    RefreshSucceedsExactly(states, steps, i + 1, steps[i].h, newHash, expiresAt, now);
  }

  /** A credential can be logged in with again at any time, and every session and token there is stays as it was. */
  lemma AnotherDeviceLogsIn(states: seq<State>, steps: seq<Step>, i: nat, c: CredentialId, s: SessionId, h: Hash,
                            expiresAt: int)
    requires Run(states, steps) && i < |states| && c in states[i].tables.credentials
    requires h !in states[i].issued && s !in states[i].owners
    ensures Enabled(states[i], LoginStep(c, s, h, expiresAt))
    ensures var before, after := states[i].tables, Next(states[i], LoginStep(c, s, h, expiresAt)).tables;
            && after.sessions.Keys == before.sessions.Keys + {s} && after.tokens.Keys == before.tokens.Keys + {h}
            && s !in before.sessions && h !in before.tokens
            && (forall o :: o in before.sessions ==> after.sessions[o] == before.sessions[o])
            && (forall g :: g in before.tokens ==> after.tokens[g] == before.tokens[g])
  {
    RunKeepsInv(states, steps, i);
    assert h in states[i].tables.tokens ==> TokenLive(states[i], h);
  }

  /** A new user can sign up at any time, and every credential, session and token there is stays as it was. */
  lemma AnotherUserSignsUp(states: seq<State>, steps: seq<Step>, i: nat, user: UserId, c: CredentialId, s: SessionId,
                           h: Hash, expiresAt: int)
    requires Run(states, steps) && i < |states| && c !in states[i].tables.credentials
    requires c !in states[i].owners.Values && h !in states[i].issued && s !in states[i].owners
    ensures Enabled(states[i], SignupStep(user, c, s, h, expiresAt))
    ensures var before, after := states[i].tables, Next(states[i], SignupStep(user, c, s, h, expiresAt)).tables;
            && after.credentials == before.credentials[c := user] && ActiveSession(after, user, c, s)
            && after.sessions.Keys == before.sessions.Keys + {s} && after.tokens.Keys == before.tokens.Keys + {h}
            && s !in before.sessions && h !in before.tokens
            && (forall o :: o in before.sessions ==> after.sessions[o] == before.sessions[o])
            && (forall g :: g in before.tokens ==> after.tokens[g] == before.tokens[g])
  {
    RunKeepsInv(states, steps, i);
    assert h in states[i].tables.tokens ==> TokenLive(states[i], h);
  }

  /**
   * The holder of an unexpired token can at any time refresh with it, which keeps the session active under
   * the new token alone, or log out, or withdraw, either of which ends the session.
   */
  lemma HolderDecides(states: seq<State>, steps: seq<Step>, i: nat, h: Hash, newHash: Hash, expiresAt: int, now: int)
    requires Run(states, steps) && i < |states| && h in states[i].tables.tokens && newHash !in states[i].issued
    requires now < states[i].tables.tokens[h].expiresAt
    ensures var st, token := states[i], states[i].tables.tokens[h];
            && token.credential in st.tables.credentials && token.session.Some?
            && var user, c, s := st.tables.credentials[token.credential], token.credential, token.session.value;
               && ActiveSession(st.tables, user, c, s)
               && Enabled(st, RefreshStep(h, newHash, expiresAt, now))
               && ActiveSession(Next(st, RefreshStep(h, newHash, expiresAt, now)).tables, user, c, s)
               && newHash in Next(st, RefreshStep(h, newHash, expiresAt, now)).tables.tokens
               && h !in Next(st, RefreshStep(h, newHash, expiresAt, now)).tables.tokens
               && Enabled(st, LogoutStep(h, now)) && !ActiveSession(Next(st, LogoutStep(h, now)).tables, user, c, s)
               && Enabled(st, WithdrawStep(user, c))
               && !ActiveSession(Next(st, WithdrawStep(user, c)).tables, user, c, s)
  {
    RunKeepsInv(states, steps, i);
    assert TokenLive(states[i], h);
  }

  /**
   * A request without a claim on anything changes nothing: a refresh or logout with a token that is not
   * stored or has expired, and the withdrawal of a credential that is not the user's.
   */
  lemma StrangersChangeNothing(st: State, h: Hash, newHash: Hash, expiresAt: int, now: int, user: UserId,
                               c: CredentialId)
    requires h !in st.tables.tokens || st.tables.tokens[h].expiresAt <= now
    requires c !in st.tables.credentials || st.tables.credentials[c] != user
    ensures Enabled(st, LogoutStep(h, now)) && Next(st, LogoutStep(h, now)) == st
    ensures Enabled(st, WithdrawStep(user, c)) && Next(st, WithdrawStep(user, c)) == st
    ensures newHash !in st.issued ==>
              Enabled(st, RefreshStep(h, newHash, expiresAt, now))
              && Next(st, RefreshStep(h, newHash, expiresAt, now)) == st
  {
  }

  /** The step spends the token: a refresh with it, a logout of its session, or the withdrawal of its account. */
  predicate Spends(st: State, step: Step, h: Hash)
    requires h in st.tables.tokens
  {
    match step
    case RefreshStep(g, _, _, now) => g == h && st.tables.tokens[h].expiresAt > now
    case LogoutStep(g, now) =>
      g in st.tables.tokens && st.tables.tokens[g].expiresAt > now
      && st.tables.tokens[g].session == st.tables.tokens[h].session
    case WithdrawStep(user, c) => Owns(st.tables, user, c) && st.tables.tokens[h].credential == c
    case _ => false
  }

  /** A stored token stays as it is until a step spends it, and is gone after that. */
  lemma TokenKeptExactly(states: seq<State>, steps: seq<Step>, i: nat, h: Hash)
    requires Run(states, steps) && i < |steps| && h in states[i].tables.tokens
    ensures h in states[i + 1].tables.tokens <==> !Spends(states[i], steps[i], h)
    ensures h in states[i + 1].tables.tokens ==> states[i + 1].tables.tokens[h] == states[i].tables.tokens[h]
  {
    RunKeepsInv(states, steps, i);
    assert Enabled(states[i], steps[i]) && TokenLive(states[i], h);
    TokenAfter(states[i], steps[i], h);
  }

  lemma TokenAfter(st: State, step: Step, h: Hash)
    requires Inv(st) && Enabled(st, step) && h in st.tables.tokens
    ensures h in Next(st, step).tables.tokens <==> !Spends(st, step, h)
    ensures h in Next(st, step).tables.tokens ==> Next(st, step).tables.tokens[h] == st.tables.tokens[h]
  {
    assert TokenLive(st, h);
    if (step.RefreshStep? || step.LogoutStep?) && step.h in st.tables.tokens { assert TokenLive(st, step.h); }
  }

  lemma IssuedStays(st: State, step: Step, h: Hash)
    requires Enabled(st, step) && h in st.issued
    ensures h in Next(st, step).issued && Next(st, step).issued[h] == st.issued[h]
    ensures h !in st.tables.tokens ==> h !in Next(st, step).tables.tokens
  {
  }

  /** A hash that was handed out and is no longer stored never succeeds again. */
  lemma {:induction false} SpentHashNeverReturns(states: seq<State>, steps: seq<Step>, i: nat, j: nat, h: Hash)
    requires Run(states, steps) && i <= j < |states| && h in states[i].issued && h !in states[i].tables.tokens
    ensures h in states[j].issued && h !in states[j].tables.tokens
    ensures forall newHash, expiresAt, now :: Rotated(states[j].tables, h, newHash, expiresAt, now).None?
  {
    if i < j {
      SpentHashNeverReturns(states, steps, i, j - 1, h);
      assert Enabled(states[j - 1], steps[j - 1]);
      IssuedStays(states[j - 1], steps[j - 1], h);
    }
  }

  /** A refresh token works once: after its rotation it fails for the rest of the run. */
  lemma RotatedHashIsSpent(states: seq<State>, steps: seq<Step>, i: nat, j: nat, newHash: Hash, expiresAt: int,
                           now: int)
    requires Run(states, steps) && i < j < |states| && steps[i].RefreshStep?
    requires Rotated(states[i].tables, steps[i].h, steps[i].newHash, steps[i].expiresAt, steps[i].now).Some?
    ensures Rotated(states[j].tables, steps[i].h, newHash, expiresAt, now).None?
  {
    RunKeepsInv(states, steps, i);
    assert Enabled(states[i], steps[i]);
    assert TokenLive(states[i], steps[i].h);
    SpentHashNeverReturns(states, steps, i + 1, j, steps[i].h);
  }

  /** Its replacement is stored for the same session and credential, and is then the session's only token. */
  lemma RotationHandsOver(states: seq<State>, steps: seq<Step>, i: nat)
    requires Run(states, steps) && i < |steps| && steps[i].RefreshStep?
    requires Rotated(states[i].tables, steps[i].h, steps[i].newHash, steps[i].expiresAt, steps[i].now).Some?
    ensures var before, after := states[i].tables, states[i + 1].tables;
            && steps[i].h in before.tokens && steps[i].newHash in after.tokens
            && after.tokens[steps[i].newHash] == before.tokens[steps[i].h].(expiresAt := steps[i].expiresAt)
            && after.tokens.Keys == before.tokens.Keys - {steps[i].h} + {steps[i].newHash}
            && after.sessions == before.sessions && after.credentials == before.credentials
  {
    RunKeepsInv(states, steps, i);
    assert Enabled(states[i], steps[i]);
  }

  /** Logging out with a working token ends every token ever handed out for its session. */
  lemma LogoutEndsTheSession(states: seq<State>, steps: seq<Step>, i: nat, j: nat, h: Hash, newHash: Hash,
                             expiresAt: int, now: int)
    requires Run(states, steps) && i < j < |states| && steps[i].LogoutStep?
    requires steps[i].h in states[i].tables.tokens && states[i].tables.tokens[steps[i].h].expiresAt > steps[i].now
    requires h in states[i].issued && Some(states[i].issued[h]) == states[i].tables.tokens[steps[i].h].session
    ensures Rotated(states[j].tables, h, newHash, expiresAt, now).None?
  {
    RunKeepsInv(states, steps, i);
    assert Enabled(states[i], steps[i]);
    assert TokenLive(states[i], steps[i].h);
    if h in states[i].tables.tokens { assert TokenLive(states[i], h); }
    SpentHashNeverReturns(states, steps, i + 1, j, h);
  }

  /** Withdrawing ends every token ever handed out for a session of the account. */
  lemma WithdrawalEndsTheAccount(states: seq<State>, steps: seq<Step>, i: nat, j: nat, h: Hash, newHash: Hash,
                                 expiresAt: int, now: int)
    requires Run(states, steps) && i < j < |states| && steps[i].WithdrawStep?
    requires Owns(states[i].tables, steps[i].user, steps[i].c)
    requires h in states[i].issued && states[i].issued[h] in states[i].owners
    requires states[i].owners[states[i].issued[h]] == steps[i].c
    ensures Rotated(states[j].tables, h, newHash, expiresAt, now).None?
  {
    RunKeepsInv(states, steps, i);
    assert Enabled(states[i], steps[i]);
    if h in states[i].tables.tokens { assert TokenLive(states[i], h); }
    SpentHashNeverReturns(states, steps, i + 1, j, h);
  }

  // ---- Sessions --------------------------------------------------------------------------------------------

  /** What the guard of every authenticated request asks. */
  predicate ActiveSession(t: Tables, user: UserId, c: CredentialId, s: SessionId) {
    Owns(t, user, c) && s in t.sessions && t.sessions[s].credential == c && !t.sessions[s].revoked
  }

  /** The step logs the session out with an unexpired token of it, or withdraws its account. */
  predicate Ends(st: State, step: Step, user: UserId, c: CredentialId, s: SessionId) {
    match step
    case LogoutStep(h, now) =>
      h in st.tables.tokens && st.tables.tokens[h].expiresAt > now && st.tables.tokens[h].session == Some(s)
    case WithdrawStep(u, d) => u == user && d == c
    case _ => false
  }

  /** A session that has been opened stays active until a step ends it, and is never active again. */
  lemma SessionActiveExactly(states: seq<State>, steps: seq<Step>, i: nat, user: UserId, c: CredentialId, s: SessionId)
    requires Run(states, steps) && i < |steps| && s in states[i].owners
    ensures ActiveSession(states[i + 1].tables, user, c, s) <==>
            ActiveSession(states[i].tables, user, c, s) && !Ends(states[i], steps[i], user, c, s)
    ensures s in states[i + 1].owners
  {
    RunKeepsInv(states, steps, i);
    assert Enabled(states[i], steps[i]);
    ActiveAfter(states[i], steps[i], user, c, s);
  }

  lemma ActiveAfter(st: State, step: Step, user: UserId, c: CredentialId, s: SessionId)
    requires Inv(st) && Enabled(st, step) && s in st.owners
    ensures ActiveSession(Next(st, step).tables, user, c, s) <==>
            ActiveSession(st.tables, user, c, s) && !Ends(st, step, user, c, s)
    ensures s in Next(st, step).owners
  {
    if step.LogoutStep? && step.h in st.tables.tokens { assert TokenLive(st, step.h); }
    if step.SignupStep? && s in st.tables.sessions { assert st.owners[s] == st.tables.sessions[s].credential; }
  }
}
