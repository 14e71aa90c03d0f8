/** The subscription check: the rate-limit gate in front of it, and the
    confirmation transaction that marks the user subscribed and confirms the
    referral that brought them. */
module SubscriptionService {
  import opened Common
  import opened Models
  import opened Repositories
  import opened Participation
  import opened ReferralService

  /** Microseconds in a second: timestamps and elapsed times are microseconds. */
  const MICROS_PER_SECOND: int := 1000000

  /** A chat-member status as the Telegram library hands it over: an enum
      member carrying a `value`, or a bare string. */
  datatype RawMemberStatus = EnumStatus(value: string) | PlainStatus(text: string)

  /** The status as text: the enum member's value, or the string itself. */
  function NormalizeMemberStatus(raw: RawMemberStatus): (s: string)
    ensures raw.EnumStatus? ==> s == raw.value
    ensures raw.PlainStatus? ==> s == raw.text
  {
    match raw
    case EnumStatus(value) => value
    case PlainStatus(text) => text
  }

  /** Both representations of one status normalise to the same text, so the
      classification downstream does not depend on which one arrives. */
  lemma NormalizeAgreesOnRepresentations(v: string)
    ensures NormalizeMemberStatus(EnumStatus(v)) == NormalizeMemberStatus(PlainStatus(v))
  {
  }

  /** Whole seconds of waiting left, rounded up; 0 means the check may run.
      Times are microseconds; `cooldownSeconds` is in seconds. */
  function ComputeRetryAfterSeconds(lastCheckedAt: Option<int>, now: int, cooldownSeconds: int): (r: int)
    ensures r >= 0
    ensures r == 0 <==> lastCheckedAt.None? || now - lastCheckedAt.value >= cooldownSeconds * MICROS_PER_SECOND
    ensures r > 0 ==> var remaining := cooldownSeconds * MICROS_PER_SECOND - (now - lastCheckedAt.value);
                      (r - 1) * MICROS_PER_SECOND < remaining <= r * MICROS_PER_SECOND
  {
    if lastCheckedAt.None? then 0
    else
      var elapsed := now - lastCheckedAt.value;
      if elapsed >= cooldownSeconds * MICROS_PER_SECOND then 0
      else
        var remaining := cooldownSeconds * MICROS_PER_SECOND - elapsed;
        var ceiling := (remaining + MICROS_PER_SECOND - 1) / MICROS_PER_SECOND;
        if ceiling < 1 then 1 else ceiling
  }

  /** A check made earlier inside the cooldown waits between 1 and
      `cooldownSeconds` seconds. */
  lemma RetryAfterWithinCooldown(last: int, now: int, cooldownSeconds: int)
    requires 0 <= now - last < cooldownSeconds * MICROS_PER_SECOND
    ensures 1 <= ComputeRetryAfterSeconds(Some(last), now, cooldownSeconds) <= cooldownSeconds
  {
  }

  /** The cases of the unit tests, for any `now`. */
  lemma RetryAfterExamples(now: int)
    ensures ComputeRetryAfterSeconds(None, now, 5) == 0
    ensures ComputeRetryAfterSeconds(Some(now - 2 * MICROS_PER_SECOND), now, 5) == 3
    ensures ComputeRetryAfterSeconds(Some(now - 7 * MICROS_PER_SECOND), now, 5) == 0
  {
  }

  /** The rate-limit transaction: get-or-create the user (overwriting the
      profile), and either report the wait or stamp the check with `now`.
      The transaction commits on both paths. */
  method RegisterSubscriptionCheckAttempt(db: Database, telegramUser: TelegramUser, now: int) returns (retryAfter: int)
    requires db.Consistent()
    modifies db
    ensures db.Consistent()
    ensures db.referrals == old(db.referrals)
    ensures telegramUser.id in UserIds(db.users)
    ensures telegramUser.id !in UserIds(old(db.users)) ==> telegramUser.id in UserIds(old(db.users) + [RowBeforeStart(old(db.users), telegramUser)])
    ensures var before := RowBeforeStart(old(db.users), telegramUser);
      var grown := if telegramUser.id in UserIds(old(db.users)) then old(db.users) else old(db.users) + [before];
      var k := FindUser(grown, telegramUser.id).value;
      && retryAfter == ComputeRetryAfterSeconds(before.lastSubscriptionCheckAt, now, SUBSCRIPTION_RATE_LIMIT_SECONDS)
      && db.users == grown[k := before.(username := telegramUser.username, firstName := Some(telegramUser.firstName),
                                        lastName := telegramUser.lastName,
                                        lastSubscriptionCheckAt := if retryAfter > 0 then before.lastSubscriptionCheckAt else Some(now))]
  {
    ghost var before := RowBeforeStart(db.users, telegramUser);
    var user, created := db.GetOrCreateForUpdate(telegramUser.id, telegramUser.username, Some(telegramUser.firstName), telegramUser.lastName);
    ghost var grown := db.users;
    ghost var k := FindUser(grown, telegramUser.id).value;
    if created {
      NewRowKeepsInvariants(old(db.users), db.referrals, before);
      MirrorNewRow(old(db.users), db.referrals, before);
      FindUserUnique(grown, |grown| - 1);
    }
    assert grown[k] == before;
    UserIdsAppend(old(db.users), before);
    retryAfter := ComputeRetryAfterSeconds(user.lastSubscriptionCheckAt, now, SUBSCRIPTION_RATE_LIMIT_SECONDS);
    if retryAfter > 0 {
      ghost var row := user.Row();
      db.Save(user);
      RowUpdateKeepsInvariants(grown, db.referrals, k, row);
      MirrorRowUpdate(grown, db.referrals, k, row);
      return;
    }
    user.lastSubscriptionCheckAt := Some(now);
    ghost var row := user.Row();
    db.Save(user);
    RowUpdateKeepsInvariants(grown, db.referrals, k, row);
    MirrorRowUpdate(grown, db.referrals, k, row);
    retryAfter := 0;
  }

  datatype SubscriptionConfirmationResult = SubscriptionConfirmationResult(
    referralConfirmed: bool,
    referrerToNotify: Option<int>,
    referrerIsParticipant: Option<bool>,
    userSubscriptionChanged: bool,
    userParticipantChanged: bool,
    referralsConfirmed: nat,
    userIsParticipant: bool,
    userHasContact: bool)

  /** The confirming user's row afterwards: subscribed, and the participation
      rule applied. */
  function SubscribedRow(u: User): (r: User)
    ensures r.isSubscribed && r.referralsConfirmed == u.referralsConfirmed
    ensures r.isParticipant <==> u.isParticipant || u.referralsConfirmed >= REFERRALS_REQUIRED_FOR_PARTICIPATION
    ensures r == u.(isSubscribed := true, isParticipant := r.isParticipant)
  {
    ParticipationRule(u.(isSubscribed := true)).0
  }

  /** The referrer's row afterwards: one more confirmed referral, and the
      participation rule applied. */
  function CreditedRow(u: User): (r: User)
    ensures r.referralsConfirmed == u.referralsConfirmed + 1 && r.isSubscribed == u.isSubscribed
    ensures r.isParticipant <==> u.isParticipant || u.isSubscribed
    ensures r == u.(referralsConfirmed := r.referralsConfirmed, isParticipant := r.isParticipant)
  {
    ParticipationRule(u.(referralsConfirmed := u.referralsConfirmed + 1)).0
  }

  /** Whether confirming `tgUserId` flips a pending edge. */
  function FlipsEdge(refs: seq<Referral>, tgUserId: int): (b: bool)
    requires UniqueReferralIds(refs)
    ensures b <==> exists k :: 0 <= k < |refs| && refs[k].referralId == tgUserId && refs[k].status == Pending
  {
    var k := FindReferral(refs, tgUserId);
    k.Some? && refs[k.value].status == Pending
  }

  /** The referrer branch of the confirmation: load the referrer, add one
      confirmed referral, re-run the participation rule. On entry every
      counter but the referrer's matches the edges, and the referrer's is one
      short; on exit the invariants hold again. */
  method CreditReferrer(db: Database, referrerId: int) returns (referrerIsParticipant: Option<bool>)
    requires db.Valid() && ParticipantsEligible(db.users)
    requires forall i :: 0 <= i < |db.users| && db.users[i].tgUserId != referrerId ==>
               db.users[i].referralsConfirmed == ConfirmedBy(db.referrals, db.users[i].tgUserId)
    requires referrerId in UserIds(db.users) ==>
               RowOf(db.users, referrerId).referralsConfirmed + 1 == ConfirmedBy(db.referrals, referrerId)
    requires ReferrersMirrored(db.users, db.referrals)
    modifies db
    ensures db.Consistent()
    ensures db.referrals == old(db.referrals) && UserIds(db.users) == UserIds(old(db.users))
    ensures referrerIsParticipant.Some? <==> referrerId in UserIds(old(db.users))
    ensures referrerIsParticipant.Some? ==>
              var kr := FindUser(old(db.users), referrerId).value;
              && db.users == old(db.users)[kr := CreditedRow(old(db.users)[kr])]
              && referrerIsParticipant.value == CreditedRow(old(db.users)[kr]).isParticipant
    ensures referrerIsParticipant.None? ==> db.users == old(db.users)
  {
    var referrer := db.GetByTgUserIdForUpdate(referrerId);
    if referrer == null {
      InUserIds(db.users, referrerId);
      return None;
    }
    ghost var kr := FindUser(db.users, referrerId).value;
    referrer.referralsConfirmed := referrer.referralsConfirmed + 1;
    var _ := MarkParticipantIfEligible(referrer);
    referrerIsParticipant := Some(referrer.isParticipant);
    ghost var row := referrer.Row();
    assert row == CreditedRow(old(db.users)[kr]);
    db.Save(referrer);
    RowUpdateKeepsInvariants(old(db.users), db.referrals, kr, row);
    MirrorRowUpdate(old(db.users), db.referrals, kr, row);
  }

  /** The referrer credited by the confirmation of `tgUserId`: the referrer
      of this user's edge, when that edge is still pending. */
  function CreditedReferrer(refs: seq<Referral>, tgUserId: int): (r: Option<int>)
    requires UniqueReferralIds(refs)
    ensures r.Some? <==> FlipsEdge(refs, tgUserId)
    ensures r.Some? ==> exists k :: 0 <= k < |refs| && refs[k].referralId == tgUserId && refs[k].status == Pending
                                    && refs[k].referrerId == r.value
    ensures NoSelfReferral(refs) ==> r != Some(tgUserId)
  {
    var k := FindReferral(refs, tgUserId);
    if k.Some? && refs[k.value].status == Pending then Some(refs[k.value].referrerId) else None
  }

  lemma ConfirmEdgeCountsAll(refs: seq<Referral>, k: nat, now: int)
    requires k < |refs| && refs[k].status == Pending
    ensures ConfirmedCount(refs[k := ConfirmEdge(refs[k], now)]) == ConfirmedCount(refs) + 1
    ensures forall x :: ConfirmedBy(refs[k := ConfirmEdge(refs[k], now)], x)
                        == ConfirmedBy(refs, x) + (if refs[k].referrerId == x then 1 else 0)
  {
    forall x
      ensures ConfirmedBy(refs[k := ConfirmEdge(refs[k], now)], x) == ConfirmedBy(refs, x) + (if refs[k].referrerId == x then 1 else 0)
    {
      ConfirmEdgeCounts(refs, k, now, x);
    }
    ConfirmEdgeCounts(refs, k, now, refs[k].referrerId);
  }

  /** The referrals table after the confirmation of `tgUserId`: this user's
      pending edge, if any, confirmed at `now`. One more confirmed edge in
      all exactly when an edge flipped, credited to its referrer alone. */
  function ReferralsAfterConfirmation(refs: seq<Referral>, tgUserId: int, now: int): (r: seq<Referral>)
    requires UniqueReferralIds(refs)
    ensures |r| == |refs|
    ensures forall k :: 0 <= k < |refs| ==> r[k].referralId == refs[k].referralId && r[k].referrerId == refs[k].referrerId
    ensures ConfirmedCount(r) == ConfirmedCount(refs) + (if FlipsEdge(refs, tgUserId) then 1 else 0)
    ensures forall x :: ConfirmedBy(r, x) == ConfirmedBy(refs, x) + (if CreditedReferrer(refs, tgUserId) == Some(x) then 1 else 0)
    ensures !FlipsEdge(r, tgUserId)
  {
    var k := FindReferral(refs, tgUserId);
    if k.Some? && refs[k.value].status == Pending then
      ConfirmEdgeCountsAll(refs, k.value, now);
      refs[k.value := ConfirmEdge(refs[k.value], now)]
    else refs
  }

  /** The users table after the referral half of the confirmation: the
      credited referrer, if any, has one more confirmed referral and the
      participation rule applied; every other row is as it was. */
  function UsersAfterCredit(users: seq<User>, refs: seq<Referral>, tgUserId: int): (r: seq<User>)
    requires SchemaValid(users, refs)
    ensures |r| == |users| && UserIds(r) == UserIds(users)
    ensures forall i :: 0 <= i < |users| ==>
              r[i].referralsConfirmed == users[i].referralsConfirmed
                                         + (if CreditedReferrer(refs, tgUserId) == Some(users[i].tgUserId) then 1 else 0)
    ensures forall i :: 0 <= i < |users| && CreditedReferrer(refs, tgUserId) != Some(users[i].tgUserId) ==> r[i] == users[i]
  {
    match CreditedReferrer(refs, tgUserId)
    case None => users
    case Some(referrerId) =>
      var kr := FindUser(users, referrerId).value;
      FindUserUnique(users, kr);
      UserIdsUpdate(users, kr, CreditedRow(users[kr]));
      users[kr := CreditedRow(users[kr])]
  }

  /** The referral half of the confirmation: the compare-and-swap on this
      user's edge and, when it flipped, the credit to the referrer. */
  method ConfirmReferralOf(db: Database, tgUserId: int, now: int)
    returns (referralConfirmed: bool, notifyReferrerId: Option<int>, referrerIsParticipant: Option<bool>)
    requires db.Consistent()
    modifies db
    ensures db.Consistent()
    ensures referralConfirmed == FlipsEdge(old(db.referrals), tgUserId)
    ensures notifyReferrerId == CreditedReferrer(old(db.referrals), tgUserId)
    ensures notifyReferrerId.None? ==> referrerIsParticipant.None?
    ensures notifyReferrerId.Some? ==> notifyReferrerId.value in UserIds(old(db.users))
    ensures notifyReferrerId.Some? ==>
              referrerIsParticipant == Some(CreditedRow(RowOf(old(db.users), notifyReferrerId.value)).isParticipant)
    ensures db.referrals == ReferralsAfterConfirmation(old(db.referrals), tgUserId, now)
    ensures db.users == UsersAfterCredit(old(db.users), old(db.referrals), tgUserId)
  {
    ghost var refs0 := db.referrals;
    ghost var users0 := db.users;
    var referrerId := db.ConfirmPendingReferral(tgUserId, now);
    referralConfirmed := referrerId.Some?;
    notifyReferrerId := None;
    referrerIsParticipant := None;
    if referrerId.Some? {
      ghost var ke := FindReferral(refs0, tgUserId).value;
      ConfirmEdgeCounts(refs0, ke, now, referrerId.value);
      FlipKeepsOtherCounters(db.users, refs0, ke, now);
      forall i | 0 <= i < |users0|
        ensures ReferrerOf(db.referrals, users0[i].tgUserId) == ReferrerOf(refs0, users0[i].tgUserId)
      {
        ReferrerOfFlip(refs0, ke, now, users0[i].tgUserId);
      }
      MirrorKept(users0, refs0, users0, db.referrals);
      if referrerId.value == tgUserId {
        // the check constraint on the edge rules this out
      } else {
        referrerIsParticipant := CreditReferrer(db, referrerId.value);
        if referrerIsParticipant.Some? {
          notifyReferrerId := referrerId;
        }
      }
    }
  }

  /** The confirmation transaction. */
  method ConfirmSubscriptionAndReferral(db: Database, tgUserId: int, now: int)
    returns (r: Result<SubscriptionConfirmationResult, string>)
    requires db.Consistent()
    modifies db
    ensures db.Consistent()
    ensures r.Failure? <==> tgUserId !in UserIds(old(db.users))
    ensures r.Failure? ==> db.users == old(db.users) && db.referrals == old(db.referrals)
    ensures r.Success? ==>
      var ku := FindUser(old(db.users), tgUserId).value;
      var u0 := old(db.users)[ku];
      var res := r.value;
      && res.referralConfirmed == FlipsEdge(old(db.referrals), tgUserId)
      && res.referrerToNotify == CreditedReferrer(old(db.referrals), tgUserId)
      && (res.referrerToNotify.None? ==> res.referrerIsParticipant.None?)
      && (res.referrerToNotify.Some? ==>
            && res.referrerToNotify.value in UserIds(old(db.users))
            && res.referrerIsParticipant == Some(CreditedRow(RowOf(old(db.users), res.referrerToNotify.value)).isParticipant))
      && res.userSubscriptionChanged == !u0.isSubscribed
      && res.userParticipantChanged == (!u0.isParticipant && SubscribedRow(u0).isParticipant)
      && res.referralsConfirmed == u0.referralsConfirmed
      && res.userIsParticipant == SubscribedRow(u0).isParticipant
      && res.userHasContact == HasContact(u0)
      && db.referrals == ReferralsAfterConfirmation(old(db.referrals), tgUserId, now)
      && db.users == UsersAfterCredit(old(db.users), old(db.referrals), tgUserId)[ku := SubscribedRow(u0)]
  {
    var user := db.GetByTgUserIdForUpdate(tgUserId);
    if user == null {
      return Failure("User " + IntToString(tgUserId) + " must exist before subscription confirmation");
    }
    ghost var u0 := user.Row();
    ghost var ku := FindUser(db.users, tgUserId).value;
    var wasSubscribed := user.isSubscribed;
    var wasParticipant := user.isParticipant;
    user.isSubscribed := true;
    var _ := MarkParticipantIfEligible(user);

    var referralConfirmed, notifyReferrerId, referrerIsParticipant := ConfirmReferralOf(db, tgUserId, now);

    var _ := MarkParticipantIfEligible(user);
    ParticipationRuleIdempotent(u0.(isSubscribed := true));
    ghost var row := user.Row();
    assert row == SubscribedRow(u0);
    assert db.users[ku] == u0;
    ghost var users1 := db.users;
    db.Save(user);
    FindUserUnique(users1, ku);
    RowUpdateKeepsInvariants(users1, db.referrals, ku, row);
    MirrorRowUpdate(users1, db.referrals, ku, row);

    r := Success(SubscriptionConfirmationResult(
      referralConfirmed := referralConfirmed,
      referrerToNotify := notifyReferrerId,
      referrerIsParticipant := referrerIsParticipant,
      userSubscriptionChanged := !wasSubscribed && user.isSubscribed,
      userParticipantChanged := !wasParticipant && user.isParticipant,
      referralsConfirmed := user.referralsConfirmed,
      userIsParticipant := user.isParticipant,
      userHasContact := Truthy(user.contactName) && Truthy(user.contactPhone)));
  }

  /** A repeated confirmation of the same user flips no edge, credits nobody
      and reports no change of subscription or participation. */
  method ConfirmTwice(db: Database, tgUserId: int, now: int, later: int)
    returns (first: Result<SubscriptionConfirmationResult, string>, second: Result<SubscriptionConfirmationResult, string>)
    requires db.Consistent() && tgUserId in UserIds(db.users)
    modifies db
    ensures db.Consistent()
    ensures first.Success? && second.Success?
    ensures !second.value.referralConfirmed && second.value.referrerToNotify.None?
    ensures !second.value.userSubscriptionChanged && !second.value.userParticipantChanged
    ensures ConfirmedCount(db.referrals) == ConfirmedCount(old(db.referrals)) + (if first.value.referralConfirmed then 1 else 0)
  {
    first := ConfirmSubscriptionAndReferral(db, tgUserId, now);
    ghost var users1 := db.users;
    ghost var refs1 := db.referrals;
    ghost var ku := FindUser(old(db.users), tgUserId).value;
    ghost var u0 := RowOf(old(db.users), tgUserId);
    assert users1[ku] == SubscribedRow(u0);
    FindUserUnique(users1, ku);
    second := ConfirmSubscriptionAndReferral(db, tgUserId, later);
  }
}
