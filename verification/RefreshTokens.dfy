/**
 Refresh-token families: opaque tokens that rotate on use, and that all die together when a replaced one comes back.
 The request's open transaction (`pending`) and what it has committed are separate tables.
 */
module RefreshTokens {
  import opened Options
  import opened FacilityTypes
  import opened Sequences

  datatype Reason = Reused | Logout

  datatype Token = Token(user: Uuid, device: Uuid, family: Uuid, parent: Option<Uuid>, replacedBy: Option<Uuid>, expiresAt: Instant,
                         lastUsedAt: Instant, revokedAt: Option<Instant>, revokedReason: Option<Reason>)

  /** One key stands for a row's id and its token hash, which are both unique. */
  type Tokens = map<Uuid, Token>

  datatype Verdict = Unknown | Spent | Replayed | Rotatable

  /** Revocation and expiry are looked at before reuse; the instant of expiry is still in time. */
  function Judge(tokens: Tokens, presented: Uuid, now: Instant): Verdict {
    if presented !in tokens then Unknown
    else if tokens[presented].revokedAt.Some? || now > tokens[presented].expiresAt then Spent
    else if tokens[presented].replacedBy.Some? then Replayed
    else Rotatable
  }

  function Issued(user: Uuid, device: Uuid, family: Uuid, now: Instant, ttl: int): Token {
    Token(user, device, family, None, None, now + ttl, now, None, None)
  }

  function Child(tokens: Tokens, parent: Uuid, now: Instant): Token
    requires parent in tokens
  {
    var p := tokens[parent];
    Token(p.user, p.device, p.family, Some(parent), None, p.expiresAt, now, None, None)
  }

  function Rotate(tokens: Tokens, presented: Uuid, newId: Uuid, now: Instant): Tokens
    requires presented in tokens
  {
    tokens[newId := Child(tokens, presented, now)][presented := tokens[presented].(replacedBy := Some(newId), lastUsedAt := now)]
  }

  function Revoke(tokens: Tokens, family: Uuid, reason: Reason, now: Instant): Tokens {
    map id | id in tokens ::
      if tokens[id].family == family then tokens[id].(revokedAt := Some(now), revokedReason := Some(reason)) else tokens[id]
  }

  function RevokeOne(tokens: Tokens, id: Uuid, now: Instant): Tokens
    requires id in tokens
  {
    tokens[id := tokens[id].(revokedAt := Some(now), revokedReason := Some(Logout))]
  }

  // ----- The same, row by row

  /** Not revoked, and not past its expiry; the instant of expiry is still in time. */
  predicate InForce(t: Token, now: Instant) {
    t.revokedAt.None? && now <= t.expiresAt
  }

  /** The latest token of its family, still in force: the one a refresh may present. */
  predicate MayRotate(tokens: Tokens, presented: Uuid, now: Instant) {
    presented in tokens && InForce(tokens[presented], now) && tokens[presented].replacedBy.None?
  }

  /** A token in force that has been replaced already. */
  predicate IsReplay(tokens: Tokens, presented: Uuid, now: Instant) {
    presented in tokens && InForce(tokens[presented], now) && tokens[presented].replacedBy.Some?
  }

  predicate IsFirstToken(t: Token, user: Uuid, device: Uuid, family: Uuid, now: Instant, ttl: int) {
    && t.user == user && t.device == device && t.family == family && t.parent.None? && t.replacedBy.None?
    && t.expiresAt == now + ttl && t.lastUsedAt == now && t.revokedAt.None? && t.revokedReason.None?
  }

  /** The new row continues the presented one until the same expiry; the presented row points to it; no other row changes. */
  ghost predicate RotatedTo(before: Tokens, after: Tokens, presented: Uuid, newId: Uuid, now: Instant) {
    && presented in before && after.Keys == before.Keys + {newId}
    && var p, c := before[presented], after[newId];
    && c.user == p.user && c.device == p.device && c.family == p.family && c.expiresAt == p.expiresAt
    && c.parent == Some(presented) && c.replacedBy.None? && c.lastUsedAt == now && c.revokedAt.None? && c.revokedReason.None?
    && after[presented] == p.(replacedBy := Some(newId), lastUsedAt := now)
    && forall id | id in before && id != presented :: after[id] == before[id]
  }

  /** Every row of the family is revoked now for the reason; no other row changes. */
  ghost predicate RevokedTo(before: Tokens, after: Tokens, family: Uuid, reason: Reason, now: Instant) {
    && after.Keys == before.Keys
    && forall id | id in before ::
        after[id] == if before[id].family == family then before[id].(revokedAt := Some(now), revokedReason := Some(reason)) else before[id]
  }

  // ----- The provider

  datatype RefreshError = Invalid | ReusedToken

  class Session {
    var committed: Tokens
    var pending: Tokens

    constructor ()
      ensures committed == map[] && pending == map[]
    {
      committed, pending := map[], map[];
    }

    method Commit()
      modifies this`committed
      ensures committed == pending
    {
      committed := pending;
    }

    method Rollback()
      modifies this`pending
      ensures pending == committed
    {
      pending := committed;
    }
  }

  class RefreshTokenProvider {
    const session: Session
    const ttl: int

    constructor (session: Session, ttl: int)
      ensures this.session == session && this.ttl == ttl
    {
      this.session := session;
      this.ttl := ttl;
    }

    method IssueToken(user: Uuid, device: Uuid, family: Uuid, newId: Uuid, now: Instant)
      requires newId !in session.pending
      modifies session`pending
      ensures session.pending == old(session.pending)[newId := Issued(user, device, family, now, ttl)]
      ensures IsFirstToken(session.pending[newId], user, device, family, now, ttl)
    {
      var expiresAt := now + ttl;
      session.pending := session.pending[newId := Token(user, device, family, None, None, expiresAt, now, None, None)];
    }

    /** Reuse is the only failure that writes, and it commits what it writes before it fails. */
    method RotateToken(presented: Uuid, newId: Uuid, now: Instant) returns (r: Result<Token, RefreshError>)
      requires newId !in session.pending
      modifies session
      ensures var verdict := Judge(old(session.pending), presented, now);
        match verdict
        case Unknown => r == Failure(Invalid) && unchanged(session)
        case Spent => r == Failure(Invalid) && unchanged(session)
        case Replayed =>
          && r == Failure(ReusedToken)
          && session.pending == Revoke(old(session.pending), old(session.pending[presented].family), Reused, now)
          && session.committed == session.pending
        case Rotatable =>
          && r == Success(Child(old(session.pending), presented, now))
          && session.pending == Rotate(old(session.pending), presented, newId, now)
          && session.committed == old(session.committed)
      ensures r.Success? <==> MayRotate(old(session.pending), presented, now)
      ensures r == Failure(ReusedToken) <==> IsReplay(old(session.pending), presented, now)
      ensures r.Success? ==> session.committed == old(session.committed) && RotatedTo(old(session.pending), session.pending, presented, newId, now)
      ensures r == Failure(ReusedToken) ==>
          session.committed == session.pending && RevokedTo(old(session.pending), session.pending, old(session.pending)[presented].family, Reused, now)
      ensures r == Failure(Invalid) ==> unchanged(session)
    {
      if presented !in session.pending {
        return Failure(Invalid);
      }
      var row := session.pending[presented];
      if row.revokedAt.Some? || now > row.expiresAt {
        return Failure(Invalid);
      }
      if row.replacedBy.Some? {
        RevokeFamily(row.family, Reused, now);
        return Failure(ReusedToken);
      }
      var child := Token(row.user, row.device, row.family, Some(presented), None, row.expiresAt, now, None, None);
      session.pending := session.pending[newId := child];
      session.pending := session.pending[presented := session.pending[presented].(replacedBy := Some(newId), lastUsedAt := now)];
      r := Success(child);
    }

    /** Commits at once, so no later rollback undoes it. */
    method RevokeFamily(family: Uuid, reason: Reason, now: Instant)
      modifies session
      ensures session.pending == Revoke(old(session.pending), family, reason, now)
      ensures session.committed == session.pending
      ensures RevokedTo(old(session.pending), session.pending, family, reason, now)
    {
      session.pending := Revoke(session.pending, family, reason, now);
      session.Commit();
    }

    method RevokeByToken(token: Uuid, wholeFamily: bool, now: Instant) returns (found: bool)
      modifies session
      ensures found <==> token in old(session.pending)
      ensures !found ==> unchanged(session)
      ensures found && wholeFamily ==>
          && session.pending == Revoke(old(session.pending), old(session.pending[token].family), Logout, now)
          && session.committed == session.pending
      ensures found && !wholeFamily ==>
          session.pending == RevokeOne(old(session.pending), token, now) && session.committed == old(session.committed)
      ensures found && wholeFamily ==> RevokedTo(old(session.pending), session.pending, old(session.pending[token].family), Logout, now)
      ensures found && !wholeFamily ==>
          && session.pending[token] == old(session.pending)[token].(revokedAt := Some(now), revokedReason := Some(Logout))
          && forall id | id in old(session.pending) && id != token :: id in session.pending && session.pending[id] == old(session.pending)[id]
    {
      if token !in session.pending {
        return false;
      }
      if wholeFamily {
        RevokeFamily(session.pending[token].family, Logout, now);
        return true;
      }
      session.pending := session.pending[token := session.pending[token].(revokedAt := Some(now), revokedReason := Some(Logout))];
      found := true;
    }
  }

  // ----- A family is one chain

  /** Row `i` belongs to the family, and both its links point to its neighbours. */
  predicate Linked(tokens: Tokens, family: Uuid, ids: seq<Uuid>, i: nat)
    requires i < |ids|
  {
    && ids[i] in tokens && tokens[ids[i]].family == family
    && tokens[ids[i]].parent == (if i == 0 then None else Some(ids[i - 1]))
    && tokens[ids[i]].replacedBy == (if i == |ids| - 1 then None else Some(ids[i + 1]))
  }

  /** `ids` lists the whole family from its first token to its latest. */
  ghost predicate IsChain(tokens: Tokens, family: Uuid, ids: seq<Uuid>) {
    && (forall i | 0 <= i < |ids| :: Linked(tokens, family, ids, i))
    && Distinct(ids)
    && (forall id | id in tokens && tokens[id].family == family :: id in ids)
  }

  ghost predicate OneChain(tokens: Tokens, family: Uuid) {
    exists ids :: IsChain(tokens, family, ids)
  }

  ghost predicate AllChains(tokens: Tokens) {
    forall family :: OneChain(tokens, family)
  }

  /** Rows that agree on the links form the same chains. */
  ghost predicate SameLinks(before: Tokens, after: Tokens) {
    && after.Keys == before.Keys
    && forall id | id in before ::
        && after[id].family == before[id].family && after[id].parent == before[id].parent && after[id].replacedBy == before[id].replacedBy
  }

  lemma SameLinksKeepChain(before: Tokens, after: Tokens, family: Uuid, ids: seq<Uuid>)
    requires SameLinks(before, after) && IsChain(before, family, ids)
    ensures IsChain(after, family, ids)
  {
    forall i | 0 <= i < |ids| ensures Linked(after, family, ids, i) {
      assert Linked(before, family, ids, i);
    }
  }

  lemma SameLinksKeepChains(before: Tokens, after: Tokens)
    requires SameLinks(before, after) && AllChains(before)
    ensures AllChains(after)
  {
    forall family ensures OneChain(after, family) {
      assert OneChain(before, family);
      var ids :| IsChain(before, family, ids);
      SameLinksKeepChain(before, after, family, ids);
    }
  }

  lemma IssueKeepsChains(tokens: Tokens, newId: Uuid, t: Token)
    requires AllChains(tokens) && newId !in tokens && t.parent.None? && t.replacedBy.None?
    requires forall id | id in tokens :: tokens[id].family != t.family
    ensures AllChains(tokens[newId := t])
  {
    var after := tokens[newId := t];
    forall family ensures OneChain(after, family) {
      if family == t.family {
        assert IsChain(after, family, [newId]);
      } else {
        assert OneChain(tokens, family);
        var ids :| IsChain(tokens, family, ids);
        forall i | 0 <= i < |ids| ensures Linked(after, family, ids, i) {
          assert Linked(tokens, family, ids, i);
        }
        assert IsChain(after, family, ids);
      }
    }
  }

  /** Only the last token of a chain is unreplaced. */
  lemma UnreplacedIsLast(tokens: Tokens, family: Uuid, ids: seq<Uuid>, id: Uuid)
    requires IsChain(tokens, family, ids) && id in tokens && tokens[id].family == family && tokens[id].replacedBy.None?
    ensures ids != [] && ids[|ids| - 1] == id
  {
    var i :| 0 <= i < |ids| && ids[i] == id;
    assert Linked(tokens, family, ids, i);
  }

  lemma RotateLinks(tokens: Tokens, presented: Uuid, newId: Uuid, now: Instant, ids: seq<Uuid>, i: nat)
    requires presented in tokens && newId !in tokens && ids != [] && ids[|ids| - 1] == presented && i <= |ids|
    requires i < |ids| ==> Linked(tokens, tokens[presented].family, ids, i) && (ids[i] == presented ==> i == |ids| - 1)
    ensures Linked(Rotate(tokens, presented, newId, now), tokens[presented].family, ids + [newId], i)
  {
  }

  lemma RotateExtendsChain(tokens: Tokens, presented: Uuid, newId: Uuid, now: Instant, ids: seq<Uuid>)
    requires presented in tokens && newId !in tokens && tokens[presented].replacedBy.None?
    requires IsChain(tokens, tokens[presented].family, ids)
    ensures IsChain(Rotate(tokens, presented, newId, now), tokens[presented].family, ids + [newId])
  {
    var family, after, longer := tokens[presented].family, Rotate(tokens, presented, newId, now), ids + [newId];
    UnreplacedIsLast(tokens, family, ids, presented);
    forall i | 0 <= i < |longer| ensures Linked(after, family, longer, i) {
      if i < |ids| {
        assert Linked(tokens, family, ids, i);
      }
      RotateLinks(tokens, presented, newId, now, ids, i);
    }
    forall i | 0 <= i < |ids| ensures ids[i] != newId {
      assert Linked(tokens, family, ids, i);
    }
    AppendDistinct(ids, newId);
  }

  lemma RotateKeepsOtherChain(tokens: Tokens, presented: Uuid, newId: Uuid, now: Instant, family: Uuid, ids: seq<Uuid>)
    requires presented in tokens && newId !in tokens && family != tokens[presented].family
    requires IsChain(tokens, family, ids)
    ensures IsChain(Rotate(tokens, presented, newId, now), family, ids)
  {
    var after := Rotate(tokens, presented, newId, now);
    forall i | 0 <= i < |ids| ensures Linked(after, family, ids, i) {
      assert Linked(tokens, family, ids, i);
    }
  }

  lemma RotateKeepsChains(tokens: Tokens, presented: Uuid, newId: Uuid, now: Instant)
    requires AllChains(tokens) && newId !in tokens && Judge(tokens, presented, now) == Rotatable
    ensures AllChains(Rotate(tokens, presented, newId, now))
  {
    forall family ensures OneChain(Rotate(tokens, presented, newId, now), family) {
      assert OneChain(tokens, family);
      var ids :| IsChain(tokens, family, ids);
      if family == tokens[presented].family {
        RotateExtendsChain(tokens, presented, newId, now, ids);
      } else {
        RotateKeepsOtherChain(tokens, presented, newId, now, family, ids);
      }
    }
  }

  /** A replacement is a row of the same family that names the replaced row as its parent. */
  lemma ReplacementIsChild(tokens: Tokens, a: Uuid)
    requires AllChains(tokens) && a in tokens && tokens[a].replacedBy.Some?
    ensures var b := tokens[a].replacedBy.value; b in tokens && tokens[b].parent == Some(a) && tokens[b].family == tokens[a].family
  {
    var family := tokens[a].family;
    assert OneChain(tokens, family);
    var ids :| IsChain(tokens, family, ids);
    var i :| 0 <= i < |ids| && ids[i] == a;
    assert Linked(tokens, family, ids, i);
    assert Linked(tokens, family, ids, i + 1);
  }

  /** A parent is a row of the same family that names this row as its replacement. */
  lemma ParentIsReplaced(tokens: Tokens, b: Uuid)
    requires AllChains(tokens) && b in tokens && tokens[b].parent.Some?
    ensures var a := tokens[b].parent.value; a in tokens && tokens[a].replacedBy == Some(b) && tokens[a].family == tokens[b].family
  {
    var family := tokens[b].family;
    assert OneChain(tokens, family);
    var ids :| IsChain(tokens, family, ids);
    var j :| 0 <= j < |ids| && ids[j] == b;
    assert Linked(tokens, family, ids, j);
    assert Linked(tokens, family, ids, j - 1);
  }

  /** At most one token of a family is unreplaced, and at most one is its first. */
  lemma OneUnreplaced(tokens: Tokens, a: Uuid, b: Uuid)
    requires AllChains(tokens) && a in tokens && b in tokens && tokens[a].family == tokens[b].family
    ensures tokens[a].replacedBy.None? && tokens[b].replacedBy.None? ==> a == b
    ensures tokens[a].parent.None? && tokens[b].parent.None? ==> a == b
  {
    var family := tokens[a].family;
    assert OneChain(tokens, family);
    var ids :| IsChain(tokens, family, ids);
    if tokens[a].replacedBy.None? && tokens[b].replacedBy.None? {
      UnreplacedIsLast(tokens, family, ids, a);
      UnreplacedIsLast(tokens, family, ids, b);
    }
    if tokens[a].parent.None? && tokens[b].parent.None? {
      ParentlessIsFirst(tokens, family, ids, a);
      ParentlessIsFirst(tokens, family, ids, b);
    }
  }

  lemma ParentlessIsFirst(tokens: Tokens, family: Uuid, ids: seq<Uuid>, id: Uuid)
    requires IsChain(tokens, family, ids) && id in tokens && tokens[id].family == family && tokens[id].parent.None?
    ensures ids != [] && ids[0] == id
  {
    var i :| 0 <= i < |ids| && ids[i] == id;
    assert Linked(tokens, family, ids, i);
  }

  // ----- Whole runs

  /** What a family was opened with. */
  datatype Opening = Opening(user: Uuid, device: Uuid, expiresAt: Instant)

  /** `openings` records every family ever issued, also when its request rolled back. */
  datatype Store = Store(committed: Tokens, pending: Tokens, openings: map<Uuid, Opening>)

  datatype Event =
    | Issue(user: Uuid, device: Uuid, family: Uuid, newId: Uuid, now: Instant, ttl: int)
    | Present(presented: Uuid, newId: Uuid, now: Instant)
    | RevokeAll(family: Uuid, reason: Reason, now: Instant)
    | RevokeOnly(token: Uuid, now: Instant)
    | CommitPending
    | RollBackPending

  /** New ids and families are random UUIDs, so they have not been seen before. */
  predicate Fresh(s: Store, e: Event) {
    match e
    case Issue(_, _, family, newId, _, _) => newId !in s.pending && newId !in s.committed && family !in s.openings
    case Present(_, newId, _) => newId !in s.pending && newId !in s.committed
    case _ => true
  }

  function StoreStep(s: Store, e: Event): Store {
    match e
    case Issue(user, device, family, newId, now, ttl) =>
      s.(pending := s.pending[newId := Issued(user, device, family, now, ttl)], openings := s.openings[family := Opening(user, device, now + ttl)])
    case Present(presented, newId, now) =>
      (match Judge(s.pending, presented, now)
       case Unknown => s
       case Spent => s
       case Replayed =>
         var revoked := Revoke(s.pending, s.pending[presented].family, Reused, now);
         s.(committed := revoked, pending := revoked)
       case Rotatable => s.(pending := Rotate(s.pending, presented, newId, now)))
    case RevokeAll(family, reason, now) =>
      var revoked := Revoke(s.pending, family, reason, now);
      s.(committed := revoked, pending := revoked)
    case RevokeOnly(token, now) =>
      if token in s.pending then s.(pending := RevokeOne(s.pending, token, now)) else s
    case CommitPending => s.(committed := s.pending)
    case RollBackPending => s.(pending := s.committed)
  }

  /** Every token carries its family's opening terms. */
  ghost predicate KeepsTerms(tokens: Tokens, openings: map<Uuid, Opening>) {
    forall id | id in tokens ::
      && tokens[id].family in openings
      && openings[tokens[id].family] == Opening(tokens[id].user, tokens[id].device, tokens[id].expiresAt)
  }

  ghost predicate TableInv(tokens: Tokens, openings: map<Uuid, Opening>) {
    AllChains(tokens) && KeepsTerms(tokens, openings)
  }

  ghost predicate StoreInv(s: Store) {
    TableInv(s.committed, s.openings) && TableInv(s.pending, s.openings)
  }

  lemma EmptyStoreInv()
    ensures StoreInv(Store(map[], map[], map[]))
  {
    forall family ensures OneChain(map[], family) {
      assert IsChain(map[], family, []);
    }
  }

  lemma StoreStepInv(s: Store, e: Event)
    requires StoreInv(s) && Fresh(s, e)
    ensures StoreInv(StoreStep(s, e))
  {
    match e
    case Issue(user, device, family, newId, now, ttl) =>
      IssueKeepsChains(s.pending, newId, Issued(user, device, family, now, ttl));
    case Present(presented, newId, now) =>
      if Judge(s.pending, presented, now) == Replayed {
        SameLinksKeepChains(s.pending, Revoke(s.pending, s.pending[presented].family, Reused, now));
      } else if Judge(s.pending, presented, now) == Rotatable {
        RotateKeepsChains(s.pending, presented, newId, now);
      }
    case RevokeAll(family, reason, now) => SameLinksKeepChains(s.pending, Revoke(s.pending, family, reason, now));
    case RevokeOnly(token, now) =>
      if token in s.pending {
        SameLinksKeepChains(s.pending, RevokeOne(s.pending, token, now));
      }
    case _ =>
  }

  ghost predicate IsStoreRun(ss: seq<Store>, es: seq<Event>) {
    && |ss| == |es| + 1
    && ss[0] == Store(map[], map[], map[])
    && forall i | 0 <= i < |es| :: Fresh(ss[i], es[i]) && ss[i + 1] == StoreStep(ss[i], es[i])
  }

  /** In every state of every run each family, committed or pending, is one chain on its opening terms. */
  lemma {:induction false} StoreRunInv(ss: seq<Store>, es: seq<Event>, i: nat)
    requires IsStoreRun(ss, es) && i < |ss|
    ensures StoreInv(ss[i])
  {
    if i == 0 {
      EmptyStoreInv();
    } else {
      StoreRunInv(ss, es, i - 1);
      StoreStepInv(ss[i - 1], es[i - 1]);
    }
  }

  /** A family's opening terms never change again. */
  lemma {:induction false} OpeningsStand(ss: seq<Store>, es: seq<Event>, i: nat, j: nat, family: Uuid)
    requires IsStoreRun(ss, es) && i <= j < |ss| && family in ss[i].openings
    ensures family in ss[j].openings && ss[j].openings[family] == ss[i].openings[family]
  {
    if i < j {
      OpeningsStand(ss, es, i, j - 1, family);
      assert ss[j] == StoreStep(ss[j - 1], es[j - 1]);
    }
  }

  /** What presenting a token does, by its row alone. */
  lemma PresentByRow(s: Store, presented: Uuid, newId: Uuid, now: Instant)
    requires newId !in s.pending
    ensures var after := StoreStep(s, Present(presented, newId, now));
      && after.openings == s.openings
      && (MayRotate(s.pending, presented, now) ==>
            RotatedTo(s.pending, after.pending, presented, newId, now) && after.committed == s.committed)
      && (IsReplay(s.pending, presented, now) ==>
            after.committed == after.pending && RevokedTo(s.pending, after.pending, s.pending[presented].family, Reused, now))
      && (!MayRotate(s.pending, presented, now) && !IsReplay(s.pending, presented, now) ==> after == s)
  {
  }

  /**
   Over every run, the latest token of a family rotates as long as it is neither revoked nor expired: the chain gains
   the new token, the old one stays behind it, and nothing else changes.
   */
  lemma LatestTokenRotates(ss: seq<Store>, es: seq<Event>, i: nat, ids: seq<Uuid>, family: Uuid)
    requires IsStoreRun(ss, es) && i < |es| && es[i].Present? && ids != [] && IsChain(ss[i].pending, family, ids)
    requires es[i].presented == ids[|ids| - 1] && es[i].presented in ss[i].pending && InForce(ss[i].pending[es[i].presented], es[i].now)
    ensures IsChain(ss[i + 1].pending, family, ids + [es[i].newId])
    ensures RotatedTo(ss[i].pending, ss[i + 1].pending, es[i].presented, es[i].newId, es[i].now)
    ensures ss[i + 1].committed == ss[i].committed
  {
    assert Linked(ss[i].pending, family, ids, |ids| - 1);
    assert Fresh(ss[i], es[i]) && ss[i + 1] == StoreStep(ss[i], es[i]);
    RotateExtendsChain(ss[i].pending, es[i].presented, es[i].newId, es[i].now, ids);
  }

  /** However often a session rotates, every rotation happens within one lifetime of its login, and for the same user. */
  lemma RotationNeverExtends(ss: seq<Store>, es: seq<Event>, i: nat, j: nat)
    requires IsStoreRun(ss, es) && i < j < |es| && es[i].Issue? && es[j].Present?
    requires es[j].presented in ss[j].pending && ss[j].pending[es[j].presented].family == es[i].family
    requires es[j].newId in ss[j + 1].pending
    ensures es[j].now <= es[i].now + es[i].ttl
    ensures ss[j + 1].pending[es[j].newId].user == es[i].user && ss[j + 1].pending[es[j].newId].device == es[i].device
    ensures ss[j + 1].pending[es[j].newId].expiresAt == es[i].now + es[i].ttl
  {
    StoreRunInv(ss, es, j);
    assert ss[i + 1] == StoreStep(ss[i], es[i]);
    OpeningsStand(ss, es, i + 1, j, es[i].family);
  }

  // ----- Whatever fails after a rotation

  /** Outside reuse, presenting a token and rolling back gives the store back; after reuse the revocation has been committed. */
  lemma PresentThenRollBack(s: Store, presented: Uuid, newId: Uuid, now: Instant)
    requires s.pending == s.committed
    ensures var after := StoreStep(StoreStep(s, Present(presented, newId, now)), RollBackPending);
      if IsReplay(s.committed, presented, now) then
        && after.pending == after.committed && after.openings == s.openings
        && RevokedTo(s.committed, after.committed, s.committed[presented].family, Reused, now)
      else after == s
  {
  }

  // ----- A revoked family stays dead

  predicate AllRevoked(tokens: Tokens, family: Uuid) {
    forall id | id in tokens && tokens[id].family == family :: tokens[id].revokedAt.Some?
  }

  ghost predicate Dead(s: Store, family: Uuid) {
    family in s.openings && AllRevoked(s.committed, family) && AllRevoked(s.pending, family)
  }

  lemma DeadStep(s: Store, e: Event, family: Uuid)
    requires Dead(s, family) && Fresh(s, e)
    ensures Dead(StoreStep(s, e), family)
  {
  }

  lemma {:induction false} DeadForever(ss: seq<Store>, es: seq<Event>, i: nat, j: nat, family: Uuid)
    requires IsStoreRun(ss, es) && i <= j < |ss| && Dead(ss[i], family)
    ensures Dead(ss[j], family)
  {
    if i < j {
      DeadForever(ss, es, i, j - 1, family);
      DeadStep(ss[j - 1], es[j - 1], family);
    }
  }

  /**
   Presenting a replaced, unrevoked, unexpired token revokes its whole family for good: whatever rolls back after
   it, every token of the family stays revoked in the committed table and no rotation of the family ever succeeds.
   */
  lemma ReuseKillsFamily(ss: seq<Store>, es: seq<Event>, i: nat, j: nat)
    requires IsStoreRun(ss, es) && i < j < |ss| && es[i].Present? && IsReplay(ss[i].pending, es[i].presented, es[i].now)
    ensures AllRevoked(ss[j].committed, ss[i].pending[es[i].presented].family)
    ensures (j < |es| && es[j].Present? && es[j].presented in ss[j].pending
             && ss[j].pending[es[j].presented].family == ss[i].pending[es[i].presented].family)
        ==> !InForce(ss[j].pending[es[j].presented], es[j].now) && ss[j + 1] == ss[j]
  {
    StoreRunInv(ss, es, i);
    var family := ss[i].pending[es[i].presented].family;
    assert Dead(ss[i + 1], family);
    DeadForever(ss, es, i + 1, j, family);
  }
}
