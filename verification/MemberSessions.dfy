/**
 Logins, refreshes and logouts as whole requests: a request that fails rolls its token table back, but neither the
 revocation that reuse committed nor anything written to the binding store.
 */
module MemberSessions {
  import opened Options
  import opened FacilityTypes
  import opened RefreshTokens

  datatype User = User(verified: bool, active: bool, admin: bool)

  datatype Audience = AdminPortal | MemberApp

  datatype AccessToken = AccessToken(user: Uuid, family: Uuid, audience: Audience, app: Option<string>)

  datatype TokenPair = TokenPair(access: AccessToken, refresh: Uuid)

  datatype AuthError = UnknownApp | InvalidRefreshToken | InvalidBinding | WrongApp | UserNotFound | UserNotAllowed | MissingApp

  // ----- What a request decides

  function MemberLoginDecision(id: Uuid, user: User, app: string, family: Uuid): Result<AccessToken, AuthError> {
    if !user.verified || !user.active then Failure(UserNotAllowed)
    else if app == "" then Failure(MissingApp)
    else Success(AccessToken(id, family, MemberApp, Some(app)))
  }

  function AdminLoginDecision(id: Uuid, user: User, family: Uuid): Result<AccessToken, AuthError> {
    if !user.admin || !user.verified || !user.active then Failure(UserNotAllowed)
    else Success(AccessToken(id, family, AdminPortal, None))
  }

  /** The requesting app is settled before the token is touched; the binding only after it has rotated. */
  function MemberRefreshDecision(tokens: Tokens, bindings: map<Uuid, string>, users: map<Uuid, User>, app: Option<string>,
                                 presented: Uuid, now: Instant): Result<AccessToken, AuthError> {
    if app.None? then Failure(UnknownApp)
    else if Judge(tokens, presented, now) != Rotatable then Failure(InvalidRefreshToken)
    else
      var t := tokens[presented];
      if t.family !in bindings || bindings[t.family] == "" then Failure(InvalidBinding)
      else if bindings[t.family] != app.value then Failure(WrongApp)
      else if t.user !in users then Failure(UserNotFound)
      else if !users[t.user].verified || !users[t.user].active then Failure(UserNotAllowed)
      else Success(AccessToken(t.user, t.family, MemberApp, Some(bindings[t.family])))
  }

  function AdminRefreshDecision(tokens: Tokens, users: map<Uuid, User>, presented: Uuid, now: Instant): Result<AccessToken, AuthError> {
    if Judge(tokens, presented, now) != Rotatable then Failure(InvalidRefreshToken)
    else
      var t := tokens[presented];
      if t.user !in users then Failure(UserNotFound)
      else if !users[t.user].admin || !users[t.user].verified || !users[t.user].active then Failure(UserNotAllowed)
      else Success(AccessToken(t.user, t.family, AdminPortal, None))
  }

  /** The committed table after a presented token has been judged and its request has ended. */
  function AfterRefresh(tokens: Tokens, presented: Uuid, newId: Uuid, now: Instant, succeeded: bool): Tokens {
    match Judge(tokens, presented, now)
    case Rotatable => if succeeded then Rotate(tokens, presented, newId, now) else tokens
    case Replayed => Revoke(tokens, tokens[presented].family, Reused, now)
    case _ => tokens
  }

  function AfterLogout(tokens: Tokens, refresh: Option<Uuid>, now: Instant): Tokens {
    if refresh.Some? && refresh.value in tokens then Revoke(tokens, tokens[refresh.value].family, Logout, now) else tokens
  }

  predicate Answers(r: Result<TokenPair, AuthError>, decision: Result<AccessToken, AuthError>, refresh: Uuid) {
    r == match decision case Success(a) => Success(TokenPair(a, refresh)) case Failure(e) => Failure(e)
  }

  // ----- Who may refresh, by the token's row, the binding and the user

  predicate MemberMayRefresh(tokens: Tokens, bindings: map<Uuid, string>, users: map<Uuid, User>, app: Option<string>, presented: Uuid, now: Instant) {
    && app.Some? && MayRotate(tokens, presented, now)
    && tokens[presented].family in bindings && bindings[tokens[presented].family] != "" && app.value == bindings[tokens[presented].family]
    && tokens[presented].user in users && users[tokens[presented].user].verified && users[tokens[presented].user].active
  }

  predicate AdminMayRefresh(tokens: Tokens, users: map<Uuid, User>, presented: Uuid, now: Instant) {
    && MayRotate(tokens, presented, now)
    && tokens[presented].user in users
    && users[tokens[presented].user].admin && users[tokens[presented].user].verified && users[tokens[presented].user].active
  }

  /** A member refresh is granted exactly to them, and each refusal names the first thing amiss. */
  lemma MemberRefreshAnswers(tokens: Tokens, bindings: map<Uuid, string>, users: map<Uuid, User>, app: Option<string>, presented: Uuid, now: Instant)
    ensures var d := MemberRefreshDecision(tokens, bindings, users, app, presented, now);
      && (d.Success? <==> MemberMayRefresh(tokens, bindings, users, app, presented, now))
      && (d.Success? ==> d.value == AccessToken(tokens[presented].user, tokens[presented].family, MemberApp, app))
      && (d == Failure(UnknownApp) <==> app.None?)
      && (d == Failure(InvalidRefreshToken) <==> app.Some? && !MayRotate(tokens, presented, now))
      && (app.Some? && MayRotate(tokens, presented, now) ==>
            var f := tokens[presented].family;
            && (d == Failure(InvalidBinding) <==> f !in bindings || bindings[f] == "")
            && (d == Failure(WrongApp) <==> f in bindings && bindings[f] != "" && bindings[f] != app.value))
      && (d == Failure(UserNotFound) ==> tokens[presented].user !in users)
      && (d == Failure(UserNotAllowed) ==> tokens[presented].user in users)
  {
  }

  lemma AdminRefreshAnswers(tokens: Tokens, users: map<Uuid, User>, presented: Uuid, now: Instant)
    ensures var d := AdminRefreshDecision(tokens, users, presented, now);
      && (d.Success? <==> AdminMayRefresh(tokens, users, presented, now))
      && (d.Success? ==> d.value == AccessToken(tokens[presented].user, tokens[presented].family, AdminPortal, None))
      && (d == Failure(InvalidRefreshToken) <==> !MayRotate(tokens, presented, now))
      && (d == Failure(UserNotFound) <==> MayRotate(tokens, presented, now) && tokens[presented].user !in users)
  {
  }

  class AuthService {
    const session: Session
    const provider: RefreshTokenProvider
    var bindings: map<Uuid, string>
    var users: map<Uuid, User>

    constructor (session: Session, provider: RefreshTokenProvider, users: map<Uuid, User>)
      requires provider.session == session
      ensures this.session == session && this.provider == provider && this.users == users && bindings == map[]
      ensures Valid()
    {
      this.session, this.provider, this.users, this.bindings := session, provider, users, map[];
    }

    predicate Valid() {
      provider.session == session
    }

    method CompleteMemberLogin(id: Uuid, user: User, app: string, family: Uuid, device: Uuid, newId: Uuid, now: Instant)
      returns (r: Result<TokenPair, AuthError>)
      requires Valid() && newId !in session.pending
      modifies session`pending, this`bindings
      ensures Answers(r, MemberLoginDecision(id, user, app, family), newId)
      ensures r.Success? <==> user.verified && user.active && app != ""
      ensures r.Success? ==> r.value == TokenPair(AccessToken(id, family, MemberApp, Some(app)), newId)
      ensures r.Success? ==> session.pending == old(session.pending)[newId := Issued(id, device, family, now, provider.ttl)]
      ensures r.Success? ==> bindings == old(bindings)[family := app]
      ensures r.Failure? ==> session.pending == old(session.pending) && bindings == old(bindings)
    {
      if !user.verified || !user.active {
        return Failure(UserNotAllowed);
      }
      if app == "" {
        return Failure(MissingApp);
      }
      provider.IssueToken(id, device, family, newId, now);
      bindings := bindings[family := app];
      r := Success(TokenPair(AccessToken(id, family, MemberApp, Some(app)), newId));
    }

    method CompleteAdminLogin(id: Uuid, user: User, family: Uuid, device: Uuid, newId: Uuid, now: Instant)
      returns (r: Result<TokenPair, AuthError>)
      requires Valid() && newId !in session.pending
      modifies session`pending
      ensures Answers(r, AdminLoginDecision(id, user, family), newId)
      ensures r.Success? <==> user.admin && user.verified && user.active
      ensures r.Success? ==> r.value == TokenPair(AccessToken(id, family, AdminPortal, None), newId)
      ensures session.pending
           == if r.Success? then old(session.pending)[newId := Issued(id, device, family, now, provider.ttl)] else old(session.pending)
    {
      if !user.admin || !user.verified || !user.active {
        return Failure(UserNotAllowed);
      }
      provider.IssueToken(id, device, family, newId, now);
      r := Success(TokenPair(AccessToken(id, family, AdminPortal, None), newId));
    }

    /** A failure after rotation leaves the rotated row pending. */
    method RefreshMemberToken(app: Option<string>, presented: Uuid, newId: Uuid, now: Instant) returns (r: Result<TokenPair, AuthError>)
      requires Valid() && newId !in session.pending && session.pending == session.committed
      modifies session, this`bindings
      ensures Answers(r, MemberRefreshDecision(old(session.pending), old(bindings), users, app, presented, now), newId)
      ensures r.Success? <==> MemberMayRefresh(old(session.pending), old(bindings), users, app, presented, now)
      ensures r.Success? ==> r.value == TokenPair(AccessToken(old(session.pending)[presented].user, old(session.pending)[presented].family, MemberApp, app), newId)
      ensures bindings == old(bindings)
      ensures app.None? ==> unchanged(session)
      ensures app.Some? ==> session.committed == AfterRefresh(old(session.committed), presented, newId, now, false)
      ensures app.Some? ==> session.pending == AfterRefresh(old(session.committed), presented, newId, now, true)
    {
      if app.None? {
        return Failure(UnknownApp);
      }
      var rotated := provider.RotateToken(presented, newId, now);
      if rotated.Failure? {
        return Failure(InvalidRefreshToken);
      }
      var t := rotated.value;
      if t.family !in bindings || bindings[t.family] == "" {
        return Failure(InvalidBinding);
      }
      var bound := bindings[t.family];
      if bound != app.value {
        return Failure(WrongApp);
      }
      bindings := bindings[t.family := bound];
      if t.user !in users {
        return Failure(UserNotFound);
      }
      if !users[t.user].verified || !users[t.user].active {
        return Failure(UserNotAllowed);
      }
      r := Success(TokenPair(AccessToken(t.user, t.family, MemberApp, Some(bound)), newId));
    }

    /** The admin refresh asks for no binding. */
    method RefreshToken(presented: Uuid, newId: Uuid, now: Instant) returns (r: Result<TokenPair, AuthError>)
      requires Valid() && newId !in session.pending && session.pending == session.committed
      modifies session
      ensures Answers(r, AdminRefreshDecision(old(session.pending), users, presented, now), newId)
      ensures r.Success? <==> AdminMayRefresh(old(session.pending), users, presented, now)
      ensures r.Success? ==> r.value == TokenPair(AccessToken(old(session.pending)[presented].user, old(session.pending)[presented].family, AdminPortal, None), newId)
      ensures session.committed == AfterRefresh(old(session.committed), presented, newId, now, false)
           && session.pending == AfterRefresh(old(session.committed), presented, newId, now, true)
    {
      var rotated := provider.RotateToken(presented, newId, now);
      if rotated.Failure? {
        return Failure(InvalidRefreshToken);
      }
      var t := rotated.value;
      if t.user !in users {
        return Failure(UserNotFound);
      }
      if !users[t.user].admin || !users[t.user].verified || !users[t.user].active {
        return Failure(UserNotAllowed);
      }
      r := Success(TokenPair(AccessToken(t.user, t.family, AdminPortal, None), newId));
    }

    /** `access` is the family named by a valid access token; it need not be the refresh token's. */
    method LogoutMember(access: Option<Uuid>, refresh: Option<Uuid>, now: Instant)
      requires Valid() && session.pending == session.committed
      modifies session, this`bindings
      ensures bindings == old(bindings) - (if access.Some? then {access.value} else {})
      ensures session.pending == session.committed == AfterLogout(old(session.committed), refresh, now)
      ensures if refresh.Some? && refresh.value in old(session.committed)
              then RevokedTo(old(session.committed), session.committed, old(session.committed)[refresh.value].family, Logout, now)
              else session.committed == old(session.committed)
    {
      if access.Some? {
        bindings := bindings - {access.value};
      }
      if refresh.Some? {
        var _ := provider.RevokeByToken(refresh.value, true, now);
      }
    }

    // ----- The request around the service

    method EndRequest(failed: bool)
      modifies session
      ensures session.pending == session.committed == if failed then old(session.committed) else old(session.pending)
    {
      if failed {
        session.Rollback();
      }
      session.Commit();
    }

    method HandleMemberLogin(id: Uuid, user: User, app: string, family: Uuid, device: Uuid, newId: Uuid, now: Instant)
      returns (r: Result<TokenPair, AuthError>)
      requires Valid() && newId !in session.pending && session.pending == session.committed
      modifies session, this`bindings
      ensures Answers(r, MemberLoginDecision(id, user, app, family), newId)
      ensures session.pending == session.committed
           == if r.Success? then old(session.committed)[newId := Issued(id, device, family, now, provider.ttl)] else old(session.committed)
      ensures bindings == if r.Success? then old(bindings)[family := app] else old(bindings)
    {
      r := CompleteMemberLogin(id, user, app, family, device, newId, now);
      EndRequest(r.Failure?);
    }

    /** Unless a replaced token came back, a refresh that fails leaves the committed table as it was, even once it has rotated. */
    method HandleMemberRefresh(app: Option<string>, presented: Uuid, newId: Uuid, now: Instant) returns (r: Result<TokenPair, AuthError>)
      requires Valid() && newId !in session.pending && session.pending == session.committed
      modifies session, this`bindings
      ensures Answers(r, MemberRefreshDecision(old(session.committed), old(bindings), users, app, presented, now), newId)
      ensures r.Success? <==> MemberMayRefresh(old(session.committed), old(bindings), users, app, presented, now)
      ensures r.Success? ==> RotatedTo(old(session.committed), session.committed, presented, newId, now)
      ensures app.Some? && IsReplay(old(session.committed), presented, now) ==>
          RevokedTo(old(session.committed), session.committed, old(session.committed)[presented].family, Reused, now)
      ensures bindings == old(bindings)
      ensures session.pending == session.committed
           == if app.None? then old(session.committed) else AfterRefresh(old(session.committed), presented, newId, now, r.Success?)
      ensures r.Failure? && !IsReplay(old(session.committed), presented, now) ==> session.committed == old(session.committed)
    {
      r := RefreshMemberToken(app, presented, newId, now);
      EndRequest(r.Failure?);
    }

    /** Any exception at all once the token has been presented, from a lookup, a cache or the binding store. */
    method AbandonRefresh(presented: Uuid, newId: Uuid, now: Instant)
      requires Valid() && newId !in session.pending && session.pending == session.committed
      modifies session
      ensures session.pending == session.committed == AfterRefresh(old(session.committed), presented, newId, now, false)
      ensures !IsReplay(old(session.committed), presented, now) ==> session.committed == old(session.committed)
    {
      var _ := provider.RotateToken(presented, newId, now);
      EndRequest(true);
    }

    method HandleAdminRefresh(presented: Uuid, newId: Uuid, now: Instant) returns (r: Result<TokenPair, AuthError>)
      requires Valid() && newId !in session.pending && session.pending == session.committed
      modifies session
      ensures Answers(r, AdminRefreshDecision(old(session.committed), users, presented, now), newId)
      ensures r.Success? <==> AdminMayRefresh(old(session.committed), users, presented, now)
      ensures r.Success? ==> RotatedTo(old(session.committed), session.committed, presented, newId, now)
      ensures IsReplay(old(session.committed), presented, now) ==>
          RevokedTo(old(session.committed), session.committed, old(session.committed)[presented].family, Reused, now)
      ensures session.pending == session.committed == AfterRefresh(old(session.committed), presented, newId, now, r.Success?)
      ensures r.Failure? && !IsReplay(old(session.committed), presented, now) ==> session.committed == old(session.committed)
    {
      r := RefreshToken(presented, newId, now);
      EndRequest(r.Failure?);
    }
  }

  // ----- Runs of requests

  /** `loginApps` and `minted` record every member login's app and every access token handed out. */
  datatype World = World(tokens: Tokens, openings: map<Uuid, Opening>, bindings: map<Uuid, string>, users: map<Uuid, User>,
                         loginApps: map<Uuid, string>, minted: set<AccessToken>)

  datatype Request =
    | MemberLogin(id: Uuid, user: User, app: string, family: Uuid, device: Uuid, newId: Uuid, now: Instant, ttl: int)
    | AdminLogin(id: Uuid, user: User, family: Uuid, device: Uuid, newId: Uuid, now: Instant, ttl: int)
    | MemberRefresh(from: Option<string>, presented: Uuid, newId: Uuid, now: Instant)
    | AdminRefresh(presented: Uuid, newId: Uuid, now: Instant)
    | MemberLogout(access: Option<Uuid>, refresh: Option<Uuid>, now: Instant)
    | AdminLogout(refresh: Option<Uuid>, now: Instant)
    | LoseBinding(family: Uuid)
    | SetUser(id: Uuid, user: User)

  predicate FreshRequest(w: World, r: Request) {
    match r
    case MemberLogin(_, _, _, family, _, newId, _, _) => newId !in w.tokens && family !in w.openings
    case AdminLogin(_, _, family, _, newId, _, _) => newId !in w.tokens && family !in w.openings
    case MemberRefresh(_, _, newId, _) => newId !in w.tokens
    case AdminRefresh(_, newId, _) => newId !in w.tokens
    case _ => true
  }

  function Decision(w: World, r: Request): Option<Result<AccessToken, AuthError>> {
    match r
    case MemberLogin(id, user, app, family, _, _, _, _) => Some(MemberLoginDecision(id, user, app, family))
    case AdminLogin(id, user, family, _, _, _, _) => Some(AdminLoginDecision(id, user, family))
    case MemberRefresh(from, presented, _, now) => Some(MemberRefreshDecision(w.tokens, w.bindings, w.users, from, presented, now))
    case AdminRefresh(presented, _, now) => Some(AdminRefreshDecision(w.tokens, w.users, presented, now))
    case _ => None
  }

  predicate Granted(w: World, r: Request) {
    Decision(w, r).Some? && Decision(w, r).value.Success?
  }

  function TokensAfter(w: World, r: Request): Tokens {
    match r
    case MemberLogin(id, _, _, family, device, newId, now, ttl) =>
      if Granted(w, r) then w.tokens[newId := Issued(id, device, family, now, ttl)] else w.tokens
    case AdminLogin(id, _, family, device, newId, now, ttl) =>
      if Granted(w, r) then w.tokens[newId := Issued(id, device, family, now, ttl)] else w.tokens
    case MemberRefresh(from, presented, newId, now) =>
      if from.None? then w.tokens else AfterRefresh(w.tokens, presented, newId, now, Granted(w, r))
    case AdminRefresh(presented, newId, now) => AfterRefresh(w.tokens, presented, newId, now, Granted(w, r))
    case MemberLogout(_, refresh, now) => AfterLogout(w.tokens, refresh, now)
    case AdminLogout(refresh, now) => AfterLogout(w.tokens, refresh, now)
    case _ => w.tokens
  }

  function BindingsAfter(w: World, r: Request): map<Uuid, string> {
    match r
    case MemberLogin(_, _, app, family, _, _, _, _) => if Granted(w, r) then w.bindings[family := app] else w.bindings
    case MemberLogout(Some(family), _, _) => w.bindings - {family}
    case LoseBinding(family) => w.bindings - {family}
    case _ => w.bindings
  }

  function OpeningsAfter(w: World, r: Request): map<Uuid, Opening> {
    match r
    case MemberLogin(id, _, _, family, device, _, now, ttl) =>
      if Granted(w, r) then w.openings[family := Opening(id, device, now + ttl)] else w.openings
    case AdminLogin(id, _, family, device, _, now, ttl) =>
      if Granted(w, r) then w.openings[family := Opening(id, device, now + ttl)] else w.openings
    case _ => w.openings
  }

  function Handle(w: World, r: Request): World {
    World(TokensAfter(w, r), OpeningsAfter(w, r), BindingsAfter(w, r),
          if r.SetUser? then w.users[r.id := r.user] else w.users,
          if r.MemberLogin? && Granted(w, r) then w.loginApps[r.family := r.app] else w.loginApps,
          w.minted + if Granted(w, r) then {Decision(w, r).value.value} else {})
  }

  function AsStore(w: World): Store {
    Store(w.tokens, w.tokens, w.openings)
  }

  /** Every member token names the app its family logged in from, and the user who logged in. */
  ghost predicate MintedFromLogin(w: World) {
    forall a | a in w.minted ::
      && a.family in w.openings && w.openings[a.family].user == a.user
      && (a.audience.MemberApp? ==> a.family in w.loginApps && a.app == Some(w.loginApps[a.family]))
  }

  ghost predicate BindingsFromLogin(w: World) {
    && w.loginApps.Keys <= w.openings.Keys
    && forall f | f in w.bindings :: f in w.loginApps && w.bindings[f] == w.loginApps[f]
  }

  ghost predicate WorldInv(w: World) {
    TableInv(w.tokens, w.openings) && BindingsFromLogin(w) && MintedFromLogin(w)
  }

  /** A request's effect on the committed table is that of provider events. */
  lemma RequestEvents(w: World, r: Request) returns (e: Event)
    requires FreshRequest(w, r)
    ensures Fresh(AsStore(w), e)
    ensures var s := StoreStep(AsStore(w), e);
      (TokensAfter(w, r) == s.pending && OpeningsAfter(w, r) == s.openings) || (TokensAfter(w, r) == w.tokens && OpeningsAfter(w, r) == w.openings)
  {
    match r
    case MemberLogin(id, _, _, family, device, newId, now, ttl) => e := Issue(id, device, family, newId, now, ttl);
    case AdminLogin(id, _, family, device, newId, now, ttl) => e := Issue(id, device, family, newId, now, ttl);
    case MemberRefresh(_, presented, newId, now) => e := Present(presented, newId, now);
    case AdminRefresh(presented, newId, now) => e := Present(presented, newId, now);
    case MemberLogout(_, refresh, now) =>
      e := if refresh.Some? && refresh.value in w.tokens then RevokeAll(w.tokens[refresh.value].family, Logout, now) else CommitPending;
    case AdminLogout(refresh, now) =>
      e := if refresh.Some? && refresh.value in w.tokens then RevokeAll(w.tokens[refresh.value].family, Logout, now) else CommitPending;
    case _ => e := CommitPending;
  }

  lemma HandleKeepsTable(w: World, r: Request)
    requires TableInv(w.tokens, w.openings) && FreshRequest(w, r)
    ensures TableInv(TokensAfter(w, r), OpeningsAfter(w, r))
  {
    var e := RequestEvents(w, r);
    StoreStepInv(AsStore(w), e);
  }

  lemma HandleKeepsBindings(w: World, r: Request)
    requires BindingsFromLogin(w) && FreshRequest(w, r)
    ensures BindingsFromLogin(Handle(w, r))
  {
  }

  lemma HandleKeepsMinted(w: World, r: Request)
    requires WorldInv(w) && FreshRequest(w, r)
    ensures MintedFromLogin(Handle(w, r))
  {
  }

  lemma HandleInv(w: World, r: Request)
    requires WorldInv(w) && FreshRequest(w, r)
    ensures WorldInv(Handle(w, r))
  {
    HandleKeepsTable(w, r);
    HandleKeepsBindings(w, r);
    HandleKeepsMinted(w, r);
  }

  ghost predicate IsRequestRun(ws: seq<World>, rs: seq<Request>) {
    && |ws| == |rs| + 1
    && ws[0].tokens == map[] && ws[0].openings == map[] && ws[0].bindings == map[] && ws[0].loginApps == map[] && ws[0].minted == {}
    && forall i | 0 <= i < |rs| :: FreshRequest(ws[i], rs[i]) && ws[i + 1] == Handle(ws[i], rs[i])
  }

  lemma {:induction false} RequestRunInv(ws: seq<World>, rs: seq<Request>, i: nat)
    requires IsRequestRun(ws, rs) && i < |ws|
    ensures WorldInv(ws[i])
  {
    if i == 0 {
      EmptyStoreInv();
    } else {
      RequestRunInv(ws, rs, i - 1);
      HandleInv(ws[i - 1], rs[i - 1]);
    }
  }

  /** What a family was opened with, and from which app, is settled at its login. */
  lemma {:induction false} LoginsStand(ws: seq<World>, rs: seq<Request>, i: nat, j: nat, family: Uuid)
    requires IsRequestRun(ws, rs) && i <= j < |ws| && family in ws[i].openings
    ensures family in ws[j].openings && ws[j].openings[family] == ws[i].openings[family]
    ensures family in ws[j].loginApps <==> family in ws[i].loginApps
    ensures family in ws[i].loginApps ==> ws[j].loginApps[family] == ws[i].loginApps[family]
  {
    if i < j {
      LoginsStand(ws, rs, i, j - 1, family);
      assert ws[j] == Handle(ws[j - 1], rs[j - 1]);
    }
  }

  /** Over every run, every member access token of a family that a member logged in to carries that login's app and user. */
  lemma MemberTokensCarryLoginApp(ws: seq<World>, rs: seq<Request>, i: nat, j: nat, a: AccessToken)
    requires IsRequestRun(ws, rs) && i < j < |ws| && rs[i].MemberLogin? && Granted(ws[i], rs[i])
    requires a in ws[j].minted && a.family == rs[i].family
    ensures a.user == rs[i].id && (a.audience.MemberApp? ==> a.app == Some(rs[i].app))
  {
    RequestRunInv(ws, rs, j);
    assert ws[i + 1] == Handle(ws[i], rs[i]);
    LoginsStand(ws, rs, i + 1, j, a.family);
  }

  /** A family opened by an admin login never yields a member token. */
  lemma AdminFamiliesMintNoMemberTokens(ws: seq<World>, rs: seq<Request>, i: nat, j: nat, a: AccessToken)
    requires IsRequestRun(ws, rs) && i < j < |ws| && rs[i].AdminLogin? && Granted(ws[i], rs[i])
    requires a in ws[j].minted && a.family == rs[i].family
    ensures a.audience.AdminPortal?
  {
    RequestRunInv(ws, rs, i);
    RequestRunInv(ws, rs, j);
    assert ws[i + 1] == Handle(ws[i], rs[i]);
    LoginsStand(ws, rs, i + 1, j, a.family);
  }

  /** A member refresh from any app but the login's yields no token and unless it replays a replaced token, changes no token. */
  lemma OtherAppGetsNothing(ws: seq<World>, rs: seq<Request>, i: nat, j: nat)
    requires IsRequestRun(ws, rs) && i < j < |rs| && rs[i].MemberLogin? && Granted(ws[i], rs[i])
    requires rs[j].MemberRefresh? && rs[j].presented in ws[j].tokens && ws[j].tokens[rs[j].presented].family == rs[i].family
    requires rs[j].from != Some(rs[i].app)
    ensures !Granted(ws[j], rs[j]) && ws[j + 1].minted == ws[j].minted
    ensures !IsReplay(ws[j].tokens, rs[j].presented, rs[j].now) ==> ws[j + 1].tokens == ws[j].tokens
  {
    RequestRunInv(ws, rs, j);
    assert ws[i + 1] == Handle(ws[i], rs[i]) && ws[j + 1] == Handle(ws[j], rs[j]);
    LoginsStand(ws, rs, i + 1, j, rs[i].family);
  }

  predicate IsLogin(r: Request) {
    r.MemberLogin? || r.AdminLogin?
  }

  predicate IsRefresh(r: Request) {
    r.MemberRefresh? || r.AdminRefresh?
  }

  /** No refresh succeeds later than one lifetime after its family's login. */
  lemma SessionsEnd(ws: seq<World>, rs: seq<Request>, i: nat, j: nat)
    requires IsRequestRun(ws, rs) && i < j < |rs| && IsLogin(rs[i]) && Granted(ws[i], rs[i])
    requires IsRefresh(rs[j]) && Granted(ws[j], rs[j]) && ws[j].tokens[rs[j].presented].family == rs[i].family
    ensures rs[j].now <= rs[i].now + rs[i].ttl
  {
    RequestRunInv(ws, rs, j);
    assert ws[i + 1] == Handle(ws[i], rs[i]);
    LoginsStand(ws, rs, i + 1, j, rs[i].family);
  }

  lemma DeadRequest(w: World, r: Request, family: Uuid)
    requires Dead(AsStore(w), family) && FreshRequest(w, r)
    ensures Dead(AsStore(Handle(w, r)), family)
  {
    var e := RequestEvents(w, r);
    DeadStep(AsStore(w), e, family);
  }

  lemma {:induction false} DeadFamilyStaysDead(ws: seq<World>, rs: seq<Request>, i: nat, j: nat, family: Uuid)
    requires IsRequestRun(ws, rs) && i <= j < |ws| && Dead(AsStore(ws[i]), family)
    ensures Dead(AsStore(ws[j]), family)
  {
    if i < j {
      DeadFamilyStaysDead(ws, rs, i, j - 1, family);
      DeadRequest(ws[j - 1], rs[j - 1], family);
    }
  }

  /** The family that a request ends: a replayed token's that reached the provider, or a logged-out token's. */
  predicate Ends(w: World, r: Request, family: Uuid) {
    match r
    case MemberRefresh(from, presented, _, now) => from.Some? && IsReplay(w.tokens, presented, now) && w.tokens[presented].family == family
    case AdminRefresh(presented, _, now) => IsReplay(w.tokens, presented, now) && w.tokens[presented].family == family
    case MemberLogout(_, Some(token), _) => token in w.tokens && w.tokens[token].family == family
    case AdminLogout(Some(token), _) => token in w.tokens && w.tokens[token].family == family
    case _ => false
  }

  /** After a reuse or a logout, no refresh in that family is ever granted again. */
  lemma EndedSessionsStayEnded(ws: seq<World>, rs: seq<Request>, i: nat, j: nat, family: Uuid)
    requires IsRequestRun(ws, rs) && i < j < |rs| && Ends(ws[i], rs[i], family)
    requires IsRefresh(rs[j]) && rs[j].presented in ws[j].tokens && ws[j].tokens[rs[j].presented].family == family
    ensures !Granted(ws[j], rs[j])
  {
    RequestRunInv(ws, rs, i);
    assert ws[i + 1] == Handle(ws[i], rs[i]);
    assert Dead(AsStore(ws[i + 1]), family);
    DeadFamilyStaysDead(ws, rs, i + 1, j, family);
  }

  // ----- Who holds a token when it is handed out

  /** The requester's standing at the moment of the request: at a login the signed-in user's, at a refresh the stored user's. */
  ghost predicate InGoodStanding(w: World, r: Request, a: AccessToken) {
    match r
    case MemberLogin(id, user, app, family, _, _, _, _) =>
      a == AccessToken(id, family, MemberApp, Some(app)) && user.verified && user.active && app != ""
    case AdminLogin(id, user, family, _, _, _, _) =>
      a == AccessToken(id, family, AdminPortal, None) && user.admin && user.verified && user.active
    case MemberRefresh(from, presented, _, now) =>
      && MemberMayRefresh(w.tokens, w.bindings, w.users, from, presented, now)
      && a == AccessToken(w.tokens[presented].user, w.tokens[presented].family, MemberApp, from)
    case AdminRefresh(presented, _, now) =>
      && AdminMayRefresh(w.tokens, w.users, presented, now)
      && a == AccessToken(w.tokens[presented].user, w.tokens[presented].family, AdminPortal, None)
    case _ => false
  }

  /** Over every run, exactly the requests in good standing are granted, and what a step mints is their token alone. */
  lemma GrantedIffInGoodStanding(ws: seq<World>, rs: seq<Request>, i: nat)
    requires IsRequestRun(ws, rs) && i < |rs|
    ensures Granted(ws[i], rs[i]) <==> exists a :: InGoodStanding(ws[i], rs[i], a)
    ensures forall a | a in ws[i + 1].minted :: a in ws[i].minted || InGoodStanding(ws[i], rs[i], a)
    ensures forall a | InGoodStanding(ws[i], rs[i], a) :: a in ws[i + 1].minted
  {
    var w, r := ws[i], rs[i];
    assert ws[i + 1] == Handle(w, r);
    GrantedStanding(w, r);
  }

  lemma GrantedStanding(w: World, r: Request)
    ensures Granted(w, r) ==> InGoodStanding(w, r, Decision(w, r).value.value)
    ensures forall a | InGoodStanding(w, r, a) :: Granted(w, r) && a == Decision(w, r).value.value
  {
  }

  /** Whoever is handed an admin token is a verified, active admin at that moment, also after having been a member only. */
  lemma AdminTokensGoToAdmins(ws: seq<World>, rs: seq<Request>, i: nat, a: AccessToken)
    requires IsRequestRun(ws, rs) && i < |rs| && a in ws[i + 1].minted && a !in ws[i].minted && a.audience == AdminPortal
    ensures rs[i].AdminLogin? || rs[i].AdminRefresh?
    ensures rs[i].AdminLogin? ==> rs[i].id == a.user && rs[i].user.admin && rs[i].user.verified && rs[i].user.active
    ensures rs[i].AdminRefresh? ==> a.user in ws[i].users && ws[i].users[a.user].admin && ws[i].users[a.user].verified && ws[i].users[a.user].active
  {
    GrantedIffInGoodStanding(ws, rs, i);
  }

  /** What each request does to the committed tokens, row by row. */
  lemma TokensByRequest(w: World, r: Request)
    requires FreshRequest(w, r)
    ensures IsRefresh(r) && Granted(w, r) ==> RotatedTo(w.tokens, Handle(w, r).tokens, r.presented, r.newId, r.now)
    ensures (IsRefresh(r) && IsReplay(w.tokens, r.presented, r.now) && (r.MemberRefresh? ==> r.from.Some?))
        ==> RevokedTo(w.tokens, Handle(w, r).tokens, w.tokens[r.presented].family, Reused, r.now)
    ensures IsRefresh(r) && !Granted(w, r) && !IsReplay(w.tokens, r.presented, r.now) ==> Handle(w, r).tokens == w.tokens
    ensures (r.MemberLogout? || r.AdminLogout?) && r.refresh.Some? && r.refresh.value in w.tokens
        ==> RevokedTo(w.tokens, Handle(w, r).tokens, w.tokens[r.refresh.value].family, Logout, r.now)
    ensures IsLogin(r) && Granted(w, r) ==>
        && Handle(w, r).tokens.Keys == w.tokens.Keys + {r.newId} && (forall id | id in w.tokens :: Handle(w, r).tokens[id] == w.tokens[id])
        && IsFirstToken(Handle(w, r).tokens[r.newId], r.id, r.device, r.family, r.now, r.ttl)
    ensures IsLogin(r) && !Granted(w, r) ==> Handle(w, r).tokens == w.tokens
  {
  }

  /** The binding of a family is its login's app until it is cleared by its member's logout or lost. */
  lemma BindingsByRequest(w: World, r: Request, family: Uuid)
    ensures r.MemberLogin? && Granted(w, r) && r.family == family ==> family in Handle(w, r).bindings && Handle(w, r).bindings[family] == r.app
    ensures (r.MemberLogout? && r.access == Some(family)) || (r.LoseBinding? && r.family == family) ==> family !in Handle(w, r).bindings
    ensures !(r.MemberLogin? && r.family == family) && !(r.MemberLogout? && r.access == Some(family)) && !(r.LoseBinding? && r.family == family)
        ==> (family in Handle(w, r).bindings <==> family in w.bindings)
            && (family in w.bindings ==> Handle(w, r).bindings[family] == w.bindings[family])
  {
  }

  /** Only an administrator's change of a user changes who may refresh. */
  lemma UsersByRequest(w: World, r: Request, id: Uuid)
    ensures r.SetUser? && r.id == id ==> id in Handle(w, r).users && Handle(w, r).users[id] == r.user
    ensures !(r.SetUser? && r.id == id) ==> (id in Handle(w, r).users <==> id in w.users)
    ensures !(r.SetUser? && r.id == id) && id in w.users ==> Handle(w, r).users[id] == w.users[id]
  {
  }
}
