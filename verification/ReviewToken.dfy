/**
 Reviewed-impact acknowledgement of a Priority Ministry override: the token signs a canonical text of
 the booker, ministry, proposal and each displaced Booking, and is checked again at confirmation.
 Hash, signature, and JSON text are parameters with only the laws that the check relies on.
 */
module ReviewToken {
  import opened Options
  import opened FacilityTypes
  import opened Sorting
  import Strings
  import Base64Url

  const NEWLINE := '\n'
  const TOKEN_VERSION := 1

  /** A displaced Booking with every interval that its displacement releases. */
  datatype Impact = Impact(bookingId: Uuid, isSeriesOccurrence: bool, startAt: Instant, endAt: Instant,
                           released: seq<RoomInterval>)

  datatype Payload = Payload(v: int, c: string, t: map<string, string>)

  datatype Codec = Codec(
    uuidText: Uuid -> string,
    instantText: Instant -> string,
    digest: string -> string,
    mac: string -> seq<Base64Url.Byte>,
    dumps: Payload -> seq<Base64Url.Byte>,
    loads: seq<Base64Url.Byte> -> Option<Payload>)

  /** Texts are injective and free of the delimiters, the hash has no collisions, JSON reads back. */
  ghost predicate Lawful(codec: Codec) {
    && (forall a, b :: codec.uuidText(a) == codec.uuidText(b) ==> a == b)
    && (forall a :: codec.uuidText(a) != [] && NEWLINE !in codec.uuidText(a) && '|' !in codec.uuidText(a))
    && (forall a, b :: codec.instantText(a) == codec.instantText(b) ==> a == b)
    && (forall a :: NEWLINE !in codec.instantText(a) && '|' !in codec.instantText(a))
    && (forall a, b :: codec.digest(a) == codec.digest(b) ==> a == b)
    && (forall p :: codec.loads(codec.dumps(p)) == Some(p))
    && (forall p :: codec.dumps(p) != [])
    && (forall s :: codec.mac(s) != [])
  }

  function MinistryText(codec: Codec, ministry: Option<Uuid>): string {
    match ministry case None => "" case Some(id) => codec.uuidText(id)
  }

  function ContextDigest(codec: Codec, booker: Uuid, ministry: Option<Uuid>, proposal: seq<string>): string {
    codec.digest(Strings.Join([codec.uuidText(booker), MinistryText(codec, ministry)] + Sort(proposal, Strings.Leq), NEWLINE))
  }

  function RoomIntervalKey(codec: Codec, interval: RoomInterval): string {
    Strings.Join([codec.uuidText(interval.room), codec.instantText(interval.startAt), codec.instantText(interval.endAt)], '|')
  }

  function Keys(codec: Codec, intervals: seq<RoomInterval>): (keys: seq<string>)
    ensures |keys| == |intervals|
  {
    if intervals == [] then [] else [RoomIntervalKey(codec, intervals[0])] + Keys(codec, intervals[1..])
  }

  function ImpactParts(codec: Codec, impact: Impact): seq<string> {
    [codec.uuidText(impact.bookingId), codec.instantText(impact.startAt), codec.instantText(impact.endAt)]
    + Sort(Keys(codec, impact.released), Strings.Leq)
  }

  function Fingerprint(codec: Codec, impact: Impact): string {
    codec.digest(Strings.Join(ImpactParts(codec, impact), NEWLINE))
  }

  function TargetKey(codec: Codec, bookingId: Uuid): string {
    codec.digest(codec.uuidText(bookingId))
  }

  /** The dictionary of fingerprints; a later Booking with the same id replaces an earlier one. */
  function Targets(codec: Codec, impacts: seq<Impact>): map<string, string> {
    if impacts == [] then map[]
    else
      var last := impacts[|impacts| - 1];
      Targets(codec, impacts[..|impacts| - 1])[TargetKey(codec, last.bookingId) := Fingerprint(codec, last)]
  }

  /** What one review was issued for. */
  datatype Review = Review(booker: Uuid, ministry: Option<Uuid>, proposal: seq<string>, impacts: seq<Impact>)

  function ReviewPayload(codec: Codec, r: Review): Payload {
    Payload(TOKEN_VERSION, ContextDigest(codec, r.booker, r.ministry, r.proposal), Targets(codec, r.impacts))
  }

  function Body(codec: Codec, r: Review): string {
    Base64Url.Encode(codec.dumps(ReviewPayload(codec, r)))
  }

  function Signature(codec: Codec, body: string): string {
    Base64Url.Encode(codec.mac(body))
  }

  function IssueOverrideReviewToken(codec: Codec, r: Review): string {
    Body(codec, r) + ['.'] + Signature(codec, Body(codec, r))
  }

  /** `token.partition(".")` without the separator. */
  function Partition(token: string): (string, string) {
    if token == [] then ([], [])
    else if token[0] == '.' then ([], token[1..])
    else
      var (before, after) := Partition(token[1..]);
      ([token[0]] + before, after)
  }

  predicate WellSigned(codec: Codec, token: string) {
    var (body, signature) := Partition(token);
    body != [] && signature != [] && Signature(codec, body) == signature
  }

  function ReviewedFingerprints(codec: Codec, token: string, contextDigest: string): Option<map<string, string>> {
    if !WellSigned(codec, token) then None
    else
      match Base64Url.Decode(Partition(token).0)
      case None => None
      case Some(bytes) =>
        match codec.loads(bytes)
        case None => None
        case Some(payload) =>
          if payload.v != TOKEN_VERSION || payload.c != contextDigest then None else Some(payload.t)
  }

  predicate Signed(codec: Codec, targets: map<string, string>, impact: Impact) {
    && TargetKey(codec, impact.bookingId) in targets
    && targets[TargetKey(codec, impact.bookingId)] == Fingerprint(codec, impact)
  }

  /** `SignatureNotAscii` is the TypeError of the constant-time comparison; the other refusals are conflicts. */
  datatype Verdict = Accepted | ReviewRequired | ReviewStale | SignatureNotAscii

  /** The verdict depends on which impacts there are, not on their order. */
  function ReviewVerdict(codec: Codec, token: Option<string>, booker: Uuid, ministry: Option<Uuid>,
                         proposal: seq<string>, impacts: set<Impact>): Verdict {
    if impacts == {} then Accepted
    else if token.None? || token.value == [] then ReviewRequired
    else
      var (body, signature) := Partition(token.value);
      if body != [] && signature != [] && !Base64Url.Ascii(signature) then SignatureNotAscii
      else
        match ReviewedFingerprints(codec, token.value, ContextDigest(codec, booker, ministry, proposal))
        case None => ReviewStale
        case Some(reviewed) =>
          if exists i :: i in impacts && !Signed(codec, reviewed, i) then ReviewStale else Accepted
  }

  function ImpactSet(impacts: seq<Impact>): set<Impact> {
    set i | i in impacts
  }

  function RequireReviewedOverride(codec: Codec, token: Option<string>, booker: Uuid, ministry: Option<Uuid>,
                                   proposal: seq<string>, impacts: seq<Impact>): Verdict {
    ReviewVerdict(codec, token, booker, ministry, proposal, ImpactSet(impacts))
  }

  // ----- What a review covers, said without digests

  ghost predicate SameImpact(a: Impact, b: Impact) {
    && a.bookingId == b.bookingId
    && a.startAt == b.startAt
    && a.endAt == b.endAt
    && multiset(a.released) == multiset(b.released)
  }

  /** `k` is the last impact for its Booking. */
  predicate LastFor(impacts: seq<Impact>, k: nat) {
    k < |impacts| && forall j | k < j < |impacts| :: impacts[j].bookingId != impacts[k].bookingId
  }

  ghost predicate ReviewedUnchanged(reviewed: seq<Impact>, impact: Impact) {
    exists k: nat :: LastFor(reviewed, k) && SameImpact(reviewed[k], impact)
  }

  ghost predicate SameProposal(r: Review, booker: Uuid, ministry: Option<Uuid>, proposal: seq<string>) {
    r.booker == booker && r.ministry == ministry && multiset(r.proposal) == multiset(proposal)
  }

  ghost predicate Covers(r: Review, booker: Uuid, ministry: Option<Uuid>, proposal: seq<string>, impacts: seq<Impact>) {
    SameProposal(r, booker, ministry, proposal) && forall i | i in impacts :: ReviewedUnchanged(r.impacts, i)
  }

  // ----- Injectivity of the canonical texts

  lemma AppendFree(a: seq<string>, b: seq<string>, c: char)
    requires Strings.AllFree(a, c) && Strings.AllFree(b, c)
    ensures Strings.AllFree(a + b, c)
  {
  }

  lemma SortedFree(s: seq<string>, c: char)
    requires Strings.AllFree(s, c)
    ensures Strings.AllFree(Sort(s, Strings.Leq), c)
  {
    SortMultiset(s, Strings.Leq);
    SameMembers(Sort(s, Strings.Leq), s);
  }

  /** A newline join of a fixed-length head and a sorted tail determines the head and the tail's multiset. */
  lemma CanonicalJoin(headA: seq<string>, tailA: seq<string>, headB: seq<string>, tailB: seq<string>)
    requires headA != [] && |headA| == |headB|
    requires Strings.AllFree(headA, NEWLINE) && Strings.AllFree(headB, NEWLINE)
    requires Strings.AllFree(tailA, NEWLINE) && Strings.AllFree(tailB, NEWLINE)
    ensures Strings.Join(headA + Sort(tailA, Strings.Leq), NEWLINE) == Strings.Join(headB + Sort(tailB, Strings.Leq), NEWLINE)
       <==> headA == headB && multiset(tailA) == multiset(tailB)
  {
    var a, b := headA + Sort(tailA, Strings.Leq), headB + Sort(tailB, Strings.Leq);
    SortedFree(tailA, NEWLINE);
    SortedFree(tailB, NEWLINE);
    AppendFree(headA, Sort(tailA, Strings.Leq), NEWLINE);
    AppendFree(headB, Sort(tailB, Strings.Leq), NEWLINE);
    Strings.JoinInjective(a, b, NEWLINE);
    Strings.LeqTotalOrder();
    SortCanonical(tailA, tailB, Strings.Leq);
    assert a[..|headA|] == headA && a[|headA|..] == Sort(tailA, Strings.Leq);
    assert b[..|headB|] == headB && b[|headB|..] == Sort(tailB, Strings.Leq);
  }

  lemma {:induction false} JoinFree(parts: seq<string>, sep: char, c: char)
    requires Strings.AllFree(parts, c) && sep != c
    ensures c !in Strings.Join(parts, sep)
  {
    if |parts| == 1 {
      assert parts[0] in parts;
    } else if |parts| > 1 {
      JoinFree(parts[1..], sep, c);
      assert parts[0] in parts;
    }
  }

  lemma RoomIntervalKeyInjective(codec: Codec, a: RoomInterval, b: RoomInterval)
    requires Lawful(codec)
    ensures NEWLINE !in RoomIntervalKey(codec, a)
    ensures RoomIntervalKey(codec, a) == RoomIntervalKey(codec, b) <==> a == b
  {
    var pa := [codec.uuidText(a.room), codec.instantText(a.startAt), codec.instantText(a.endAt)];
    var pb := [codec.uuidText(b.room), codec.instantText(b.startAt), codec.instantText(b.endAt)];
    JoinFree(pa, '|', NEWLINE);
    Strings.JoinInjective(pa, pb, '|');
    assert pa == pb ==> pa[0] == pb[0] && pa[1] == pb[1] && pa[2] == pb[2];
  }

  lemma {:induction false} KeyCount(codec: Codec, intervals: seq<RoomInterval>, x: RoomInterval)
    requires Lawful(codec)
    ensures multiset(Keys(codec, intervals))[RoomIntervalKey(codec, x)] == multiset(intervals)[x]
  {
    if intervals != [] {
      KeyCount(codec, intervals[1..], x);
      RoomIntervalKeyInjective(codec, intervals[0], x);
      assert intervals == [intervals[0]] + intervals[1..];
    }
  }

  lemma {:induction false} KeyOrigin(codec: Codec, intervals: seq<RoomInterval>, key: string)
    requires key in Keys(codec, intervals)
    ensures exists x :: x in intervals && key == RoomIntervalKey(codec, x)
  {
    if key != RoomIntervalKey(codec, intervals[0]) {
      KeyOrigin(codec, intervals[1..], key);
    }
  }

  lemma KeysFree(codec: Codec, intervals: seq<RoomInterval>)
    requires Lawful(codec)
    ensures Strings.AllFree(Keys(codec, intervals), NEWLINE)
  {
    forall key | key in Keys(codec, intervals) ensures NEWLINE !in key {
      KeyOrigin(codec, intervals, key);
      var x :| x in intervals && key == RoomIntervalKey(codec, x);
      RoomIntervalKeyInjective(codec, x, x);
    }
  }

  /** The keys of two interval lists agree as multisets exactly when the lists do. */
  lemma KeysCanonical(codec: Codec, a: seq<RoomInterval>, b: seq<RoomInterval>)
    requires Lawful(codec)
    ensures multiset(Keys(codec, a)) == multiset(Keys(codec, b)) <==> multiset(a) == multiset(b)
  {
    if multiset(Keys(codec, a)) == multiset(Keys(codec, b)) {
      forall x: RoomInterval ensures multiset(a)[x] == multiset(b)[x] {
        KeyCount(codec, a, x);
        KeyCount(codec, b, x);
      }
    }
    if multiset(a) == multiset(b) {
      forall key ensures multiset(Keys(codec, a))[key] == multiset(Keys(codec, b))[key] {
        if key in Keys(codec, a) {
          KeyOrigin(codec, a, key);
        } else if key in Keys(codec, b) {
          KeyOrigin(codec, b, key);
        }
        if key in Keys(codec, a) || key in Keys(codec, b) {
          var x :| key == RoomIntervalKey(codec, x);
          KeyCount(codec, a, x);
          KeyCount(codec, b, x);
        }
      }
    }
  }

  /** Equal fingerprints mean the same Booking, the same times, and the same released intervals. */
  lemma FingerprintInjective(codec: Codec, a: Impact, b: Impact)
    requires Lawful(codec)
    ensures Fingerprint(codec, a) == Fingerprint(codec, b) <==> SameImpact(a, b)
  {
    var ha := [codec.uuidText(a.bookingId), codec.instantText(a.startAt), codec.instantText(a.endAt)];
    var hb := [codec.uuidText(b.bookingId), codec.instantText(b.startAt), codec.instantText(b.endAt)];
    KeysFree(codec, a.released);
    KeysFree(codec, b.released);
    CanonicalJoin(ha, Keys(codec, a.released), hb, Keys(codec, b.released));
    KeysCanonical(codec, a.released, b.released);
    assert ha == hb ==> ha[0] == hb[0] && ha[1] == hb[1] && ha[2] == hb[2];
  }

  lemma ContextDigestInjective(codec: Codec, r: Review, booker: Uuid, ministry: Option<Uuid>, proposal: seq<string>)
    requires Lawful(codec)
    requires Strings.AllFree(r.proposal, NEWLINE) && Strings.AllFree(proposal, NEWLINE)
    ensures ContextDigest(codec, r.booker, r.ministry, r.proposal) == ContextDigest(codec, booker, ministry, proposal)
       <==> SameProposal(r, booker, ministry, proposal)
  {
    var ha := [codec.uuidText(r.booker), MinistryText(codec, r.ministry)];
    var hb := [codec.uuidText(booker), MinistryText(codec, ministry)];
    CanonicalJoin(ha, r.proposal, hb, proposal);
    assert ha == hb ==> ha[0] == hb[0] && ha[1] == hb[1];
  }

  lemma LastReviewedCounts(impacts: seq<Impact>, impact: Impact)
    requires impacts != [] && impacts[|impacts| - 1].bookingId == impact.bookingId
    ensures ReviewedUnchanged(impacts, impact) <==> SameImpact(impacts[|impacts| - 1], impact)
  {
  }

  lemma ReviewedInFront(impacts: seq<Impact>, impact: Impact)
    requires impacts != [] && impacts[|impacts| - 1].bookingId != impact.bookingId && ReviewedUnchanged(impacts, impact)
    ensures ReviewedUnchanged(impacts[..|impacts| - 1], impact)
  {
  }

  lemma ReviewedFromFront(impacts: seq<Impact>, impact: Impact)
    requires impacts != [] && impacts[|impacts| - 1].bookingId != impact.bookingId
    requires ReviewedUnchanged(impacts[..|impacts| - 1], impact)
    ensures ReviewedUnchanged(impacts, impact)
  {
  }

  lemma ReviewedUnchangedStep(impacts: seq<Impact>, impact: Impact)
    requires impacts != []
    ensures var last := |impacts| - 1;
            ReviewedUnchanged(impacts, impact) <==>
            if impacts[last].bookingId == impact.bookingId then SameImpact(impacts[last], impact)
            else ReviewedUnchanged(impacts[..last], impact)
  {
    if impacts[|impacts| - 1].bookingId == impact.bookingId {
      LastReviewedCounts(impacts, impact);
    } else if ReviewedUnchanged(impacts, impact) {
      ReviewedInFront(impacts, impact);
    } else if ReviewedUnchanged(impacts[..|impacts| - 1], impact) {
      ReviewedFromFront(impacts, impact);
    }
  }

  /** The signed dictionary holds, for each Booking, the fingerprint of its last reviewed impact. */
  lemma {:induction false} TargetsLastWins(codec: Codec, impacts: seq<Impact>, impact: Impact)
    requires Lawful(codec)
    ensures Signed(codec, Targets(codec, impacts), impact) <==> ReviewedUnchanged(impacts, impact)
  {
    if impacts != [] {
      var last := |impacts| - 1;
      ReviewedUnchangedStep(impacts, impact);
      TargetsLastWins(codec, impacts[..last], impact);
      FingerprintInjective(codec, impacts[last], impact);
      assert TargetKey(codec, impacts[last].bookingId) == TargetKey(codec, impact.bookingId)
        <==> impacts[last].bookingId == impact.bookingId;
    }
  }

  // ----- The token

  lemma {:induction false} PartitionAtFirstDot(before: string, after: string)
    requires '.' !in before
    ensures Partition(before + ['.'] + after) == (before, after)
  {
    var token := before + ['.'] + after;
    if before == [] {
      assert token[1..] == after;
    } else {
      PartitionAtFirstDot(before[1..], after);
      assert token[1..] == before[1..] + ['.'] + after;
      assert [before[0]] + before[1..] == before;
    }
  }

  /** The first dot splits an issued token into its body and signature, and the body decodes to the payload. */
  lemma IssuedTokenReads(codec: Codec, r: Review)
    requires Lawful(codec)
    ensures Partition(IssueOverrideReviewToken(codec, r)) == (Body(codec, r), Signature(codec, Body(codec, r)))
    ensures WellSigned(codec, IssueOverrideReviewToken(codec, r))
    ensures Base64Url.Ascii(Signature(codec, Body(codec, r)))
    ensures Base64Url.Decode(Body(codec, r)) == Some(codec.dumps(ReviewPayload(codec, r)))
  {
    var bytes := codec.dumps(ReviewPayload(codec, r));
    Base64Url.EncodedLetters(bytes);
    Base64Url.EncodedLetters(codec.mac(Body(codec, r)));
    Base64Url.DecodeEncode(bytes);
    PartitionAtFirstDot(Body(codec, r), Signature(codec, Body(codec, r)));
  }

  /** A token is accepted for exactly the unchanged subsets of what it was issued for, in the same context. */
  lemma IssuedTokenAccepts(codec: Codec, r: Review, booker: Uuid, ministry: Option<Uuid>, proposal: seq<string>, impacts: seq<Impact>)
    requires Lawful(codec)
    requires Strings.AllFree(r.proposal, NEWLINE) && Strings.AllFree(proposal, NEWLINE)
    ensures RequireReviewedOverride(codec, Some(IssueOverrideReviewToken(codec, r)), booker, ministry, proposal, impacts)
         == if impacts == [] || Covers(r, booker, ministry, proposal, impacts) then Accepted else ReviewStale
  {
    var token := IssueOverrideReviewToken(codec, r);
    assert impacts != [] ==> impacts[0] in ImpactSet(impacts);
    IssuedTokenReads(codec, r);
    ContextDigestInjective(codec, r, booker, ministry, proposal);
    forall i | i in impacts
      ensures Signed(codec, Targets(codec, r.impacts), i) <==> ReviewedUnchanged(r.impacts, i)
    {
      TargetsLastWins(codec, r.impacts, i);
    }
    if impacts != [] && SameProposal(r, booker, ministry, proposal) {
      assert ReviewedFingerprints(codec, token, ContextDigest(codec, booker, ministry, proposal)) == Some(Targets(codec, r.impacts));
    }
  }

  /** The ideal signature: a well-signed token is one that was issued. */
  ghost predicate SignedOnlyWhenIssued(codec: Codec, issued: set<Review>, token: string) {
    WellSigned(codec, token) ==> exists r :: r in issued && token == IssueOverrideReviewToken(codec, r)
  }

  /**
   Against every token, whatever its text: displacement is allowed when nothing is displaced, or when
   the token was issued for this booker, ministry and proposal and for every current impact unchanged.
   */
  lemma AcceptedIffReviewed(codec: Codec, issued: set<Review>, token: string, booker: Uuid, ministry: Option<Uuid>,
                            proposal: seq<string>, impacts: seq<Impact>)
    requires Lawful(codec) && SignedOnlyWhenIssued(codec, issued, token)
    requires Strings.AllFree(proposal, NEWLINE)
    requires forall r | r in issued :: Strings.AllFree(r.proposal, NEWLINE)
    ensures RequireReviewedOverride(codec, Some(token), booker, ministry, proposal, impacts) == Accepted
       <==> impacts == []
            || exists r :: r in issued && token == IssueOverrideReviewToken(codec, r) && Covers(r, booker, ministry, proposal, impacts)
  {
    assert impacts != [] ==> impacts[0] in ImpactSet(impacts);
    var accepted := RequireReviewedOverride(codec, Some(token), booker, ministry, proposal, impacts) == Accepted;
    if impacts != [] && accepted {
      assert WellSigned(codec, token);
      var r :| r in issued && token == IssueOverrideReviewToken(codec, r);
      IssuedTokenAccepts(codec, r, booker, ministry, proposal, impacts);
    }
    forall r | r in issued && token == IssueOverrideReviewToken(codec, r) && Covers(r, booker, ministry, proposal, impacts)
      ensures accepted
    {
      IssuedTokenAccepts(codec, r, booker, ministry, proposal, impacts);
    }
  }

  /** Any part of an unchanged reviewed impact proceeds, in any order and for any order of the proposal. */
  lemma UnchangedSubsetAccepted(codec: Codec, r: Review, proposal: seq<string>, impacts: seq<Impact>)
    requires Lawful(codec)
    requires Strings.AllFree(r.proposal, NEWLINE) && multiset(proposal) == multiset(r.proposal)
    requires forall i, j | 0 <= i < j < |r.impacts| :: r.impacts[i].bookingId != r.impacts[j].bookingId
    requires forall i | i in impacts :: i in r.impacts
    ensures RequireReviewedOverride(codec, Some(IssueOverrideReviewToken(codec, r)), r.booker, r.ministry, proposal, impacts) == Accepted
  {
    SameMembers(proposal, r.proposal);
    forall i | i in impacts ensures ReviewedUnchanged(r.impacts, i) {
      var k :| 0 <= k < |r.impacts| && r.impacts[k] == i;
      assert LastFor(r.impacts, k);
    }
    IssuedTokenAccepts(codec, r, r.booker, r.ministry, proposal, impacts);
  }

  // ----- Which refusals are conflicts

  lemma {:induction false} PartitionLetters(token: string)
    ensures forall c | c in Partition(token).0 || c in Partition(token).1 :: c in token
  {
    if token != [] {
      assert token == [token[0]] + token[1..];
      PartitionLetters(token[1..]);
    }
  }

  /**
   For every token text, the comparison fails with a type error exactly when there is an impact and the part before the
   first dot is non-empty and the part after it is not ASCII; every other refusal is one of the two conflicts.
   */
  lemma TypeErrorIff(codec: Codec, token: Option<string>, booker: Uuid, ministry: Option<Uuid>, proposal: seq<string>, impacts: seq<Impact>)
    ensures RequireReviewedOverride(codec, token, booker, ministry, proposal, impacts) == SignatureNotAscii
       <==> impacts != [] && token.Some? && Partition(token.value).0 != [] && !Base64Url.Ascii(Partition(token.value).1)
  {
    assert impacts != [] ==> impacts[0] in ImpactSet(impacts);
  }

  /** A review is asked for exactly when something would be displaced and no token was sent. */
  lemma ReviewRequiredIff(codec: Codec, token: Option<string>, booker: Uuid, ministry: Option<Uuid>, proposal: seq<string>, impacts: seq<Impact>)
    ensures RequireReviewedOverride(codec, token, booker, ministry, proposal, impacts) == ReviewRequired
       <==> impacts != [] && (token.None? || token.value == "")
  {
    assert impacts != [] ==> impacts[0] in ImpactSet(impacts);
  }

  /** A caller whose token is ASCII, as every issued token is, meets only the documented conflicts. */
  lemma AsciiTokenMeetsOnlyConflicts(codec: Codec, token: string, booker: Uuid, ministry: Option<Uuid>, proposal: seq<string>, impacts: seq<Impact>)
    requires Base64Url.Ascii(token)
    ensures RequireReviewedOverride(codec, Some(token), booker, ministry, proposal, impacts) != SignatureNotAscii
  {
    PartitionLetters(token);
    TypeErrorIff(codec, Some(token), booker, ministry, proposal, impacts);
  }

  lemma IssuedTokenIsAscii(codec: Codec, r: Review)
    requires Lawful(codec)
    ensures Base64Url.Ascii(IssueOverrideReviewToken(codec, r))
  {
    Base64Url.EncodedLetters(codec.dumps(ReviewPayload(codec, r)));
    Base64Url.EncodedLetters(codec.mac(Body(codec, r)));
  }

  /** The letter "a", a dot and an accented "e". */
  const NOT_ASCII_TOKEN := "a.\U{00E9}"

  /** A token that the documentation promises a stale-review conflict for, and that raises a type error instead. */
  lemma TypeErrorExample(codec: Codec, booker: Uuid, ministry: Option<Uuid>, proposal: seq<string>, impact: Impact)
    ensures RequireReviewedOverride(codec, Some(NOT_ASCII_TOKEN), booker, ministry, proposal, [impact]) == SignatureNotAscii
  {
    var token := NOT_ASCII_TOKEN;
    PartitionAtFirstDot("a", "\U{00E9}");
    assert token == "a" + ['.'] + "\U{00E9}";
    assert token[2] in Partition(token).1 && token[2] as int >= 128;
    TypeErrorIff(codec, Some(token), booker, ministry, proposal, [impact]);
  }
}
