/** The "check subscription" button: the rate-limit gate, the membership
    lookup, the confirmation transaction and the choice of what to answer. */
module SubscriptionHandler {
  import opened Common
  import opened Models
  import opened Repositories
  import opened ReferralService
  import opened SubscriptionService
  import opened ContactHandlers

  /** How a normalised member status is read. */
  datatype Verdict = Subscribed | Unsubscribed | UnknownStatus

  /** Member, administrator and creator count as subscribed; left, kicked and
      restricted do not; any other status is treated as not subscribed and
      reported as unknown. */
  function ClassifyStatus(status: string): (v: Verdict)
    ensures v.Subscribed? <==> status in VALID_SUBSCRIPTION_STATUSES
    ensures v.Unsubscribed? <==> status in INVALID_SUBSCRIPTION_STATUSES
    ensures v.UnknownStatus? <==> status !in VALID_SUBSCRIPTION_STATUSES && status !in INVALID_SUBSCRIPTION_STATUSES
  {
    if status in VALID_SUBSCRIPTION_STATUSES then Subscribed
    else if status in INVALID_SUBSCRIPTION_STATUSES then Unsubscribed
    else UnknownStatus
  }

  /** The two sets do not overlap, so the classification is well defined. */
  lemma StatusSetsDisjoint()
    ensures VALID_SUBSCRIPTION_STATUSES * INVALID_SUBSCRIPTION_STATUSES == {}
  {
  }

  /** The status read off what the Telegram library hands over: the enum
      member's value and the bare string are classified alike, by the text
      they carry. */
  lemma ClassifyRawStatus(raw: RawMemberStatus)
    ensures var text := if raw.EnumStatus? then raw.value else raw.text;
      var v := ClassifyStatus(NormalizeMemberStatus(raw));
      && (v.Subscribed? <==> text in VALID_SUBSCRIPTION_STATUSES)
      && (v.Unsubscribed? <==> text in INVALID_SUBSCRIPTION_STATUSES)
      && ClassifyStatus(NormalizeMemberStatus(EnumStatus(text))) == ClassifyStatus(NormalizeMemberStatus(PlainStatus(text)))
  {
  }

  /** Friends still to bring: `max(0, 1 - referrals_confirmed)`. */
  function ReferralsNeeded(referralsConfirmed: nat): (n: nat)
    ensures n <= 1
    ensures n == 0 <==> referralsConfirmed >= 1
  {
    if 1 - referralsConfirmed > 0 then 1 - referralsConfirmed else 0
  }

  /** The personal invite link, or "" when the bot has no username. */
  function ReferralLink(botUsername: string, tgUserId: int): (link: string)
    ensures botUsername == "" <==> link == ""
  {
    if botUsername != "" then "https://t.me/" + botUsername + "?start=" + IntToString(tgUserId) else ""
  }

  /** The start argument of the invite link reads back as the inviting
      user's id in the `/start` handler. */
  lemma ReferralLinkCarriesId(botUsername: string, tgUserId: int)
    requires botUsername != ""
    ensures var link := ReferralLink(botUsername, tgUserId);
      var arg := IntToString(tgUserId);
      && link == "https://t.me/" + botUsername + "?start=" + arg
      && ParseRefCode(Some(arg)) == Some(tgUserId)
  {
    RefCodeRoundTrip(tgUserId);
  }

  /** What the callback answers. */
  datatype CheckReply =
    /** An update without a sender gets an empty answer. */
    | EmptyAnswer
    | RateLimited(retryAfter: int)
    | CheckUnavailable
    | NotSubscribed(unknownStatus: bool)
    | AlreadyParticipant
    | AwaitingFriend(referralsNeeded: nat)
    /** The simple contact request is sent. */
    | ContactRequested
    /** The message is rewritten; `referralLink` is shown only to a user who
        is not a participant yet. */
    | StatusUpdated(isParticipant: bool, referralLink: string)

  /** The message to the referrer: which wording, and whether the background
      spreadsheet update is started for them. */
  datatype ReferrerNotice = ReferrerNotice(chatId: int, congratulate: bool, syncSheets: bool)

  /** The answer once the confirmation has run (lines 155-196). */
  function DecideReply(res: SubscriptionConfirmationResult, botUsername: string, tgUserId: int): (reply: CheckReply)
    ensures reply.AlreadyParticipant? <==> !res.userSubscriptionChanged && !res.userParticipantChanged && res.userIsParticipant
    ensures reply.AwaitingFriend? <==> !res.userSubscriptionChanged && !res.userParticipantChanged && !res.userIsParticipant
    ensures reply.AwaitingFriend? ==> reply.referralsNeeded == ReferralsNeeded(res.referralsConfirmed)
    ensures reply.ContactRequested? <==> res.userSubscriptionChanged && !res.userHasContact
    ensures reply.StatusUpdated? ==>
      && reply.isParticipant == res.userIsParticipant
      && reply.referralLink == (if res.userIsParticipant then "" else ReferralLink(botUsername, tgUserId))
    ensures reply.AlreadyParticipant? || reply.AwaitingFriend? || reply.ContactRequested? || reply.StatusUpdated?
  {
    if !res.userSubscriptionChanged && !res.userParticipantChanged then
      if res.userIsParticipant then AlreadyParticipant
      else AwaitingFriend(ReferralsNeeded(res.referralsConfirmed))
    else if res.userSubscriptionChanged && !res.userHasContact then ContactRequested
    else StatusUpdated(res.userIsParticipant, if res.userIsParticipant then "" else ReferralLink(botUsername, tgUserId))
  }

  /** A row's standing in the giveaway, which only the confirmation changes. */
  ghost predicate SameStanding(a: User, b: User) {
    && a.tgUserId == b.tgUserId && a.isSubscribed == b.isSubscribed && a.isParticipant == b.isParticipant
    && a.referralsConfirmed == b.referralsConfirmed && a.referredBy == b.referredBy
  }

  /** Nothing was confirmed: every row keeps its standing, and a row the gate
      added is not subscribed. */
  ghost predicate NoConfirmation(before: seq<User>, after: seq<User>) {
    && |before| <= |after| <= |before| + 1
    && (forall i :: 0 <= i < |before| ==> SameStanding(before[i], after[i]))
    && (forall i :: |before| <= i < |after| ==> !after[i].isSubscribed && !after[i].isParticipant)
  }

  /** The gate leaves every standing as it was. */
  method CheckAttempt(db: Database, telegramUser: TelegramUser, now: int) returns (retryAfter: int)
    requires db.Consistent()
    modifies db
    ensures db.Consistent() && db.referrals == old(db.referrals)
    ensures telegramUser.id in UserIds(db.users)
    ensures retryAfter == ComputeRetryAfterSeconds(RowBeforeStart(old(db.users), telegramUser).lastSubscriptionCheckAt,
                                                   now, SUBSCRIPTION_RATE_LIMIT_SECONDS)
    ensures NoConfirmation(old(db.users), db.users)
  {
    ghost var users0 := db.users;
    ghost var before := RowBeforeStart(users0, telegramUser);
    retryAfter := RegisterSubscriptionCheckAttempt(db, telegramUser, now);
    ghost var grown := if telegramUser.id in UserIds(users0) then users0 else users0 + [before];
    ghost var k := FindUser(grown, telegramUser.id).value;
    if telegramUser.id in UserIds(users0) {
      assert grown[k] == before;
    } else {
      assert k == |users0| by {
        InUserIds(users0, telegramUser.id);
      }
    }
  }

  /** The message to the credited referrer: congratulations when they are a
      participant after the credit, and the spreadsheet sync when their row
      has a contact. */
  method NotifyReferrer(db: Database, referrerId: int, referrerIsParticipant: Option<bool>) returns (notice: ReferrerNotice)
    ensures notice.chatId == referrerId
    ensures notice.congratulate == (referrerIsParticipant == Some(true))
    ensures notice.syncSheets == (referrerId in UserIds(db.users) && HasContact(RowOf(db.users, referrerId)))
  {
    var referrer := db.GetByTgUserId(referrerId);
    var syncSheets := referrer.Some? && Truthy(referrer.value.contactName) && Truthy(referrer.value.contactPhone);
    notice := ReferrerNotice(referrerId, referrerIsParticipant == Some(true), syncSheets);
  }

  /** The confirmation after a positive membership check, and the message
      to the referrer it credited. */
  method ConfirmAndNotify(db: Database, tgUserId: int, now: int)
    returns (res: SubscriptionConfirmationResult, notice: Option<ReferrerNotice>)
    requires db.Consistent() && tgUserId in UserIds(db.users)
    modifies db
    ensures db.Consistent()
    ensures db.referrals == ReferralsAfterConfirmation(old(db.referrals), tgUserId, now)
    ensures tgUserId in UserIds(db.users) && RowOf(db.users, tgUserId).isSubscribed
    ensures res.referrerToNotify == CreditedReferrer(old(db.referrals), tgUserId)
    ensures res.referralsConfirmed >= 1 ==> res.userIsParticipant
    ensures notice.Some? <==> CreditedReferrer(old(db.referrals), tgUserId).Some?
    ensures notice.Some? ==>
      && notice.value.chatId == CreditedReferrer(old(db.referrals), tgUserId).value
      && notice.value.chatId in UserIds(old(db.users))
      && notice.value.congratulate == CreditedRow(RowOf(old(db.users), notice.value.chatId)).isParticipant
      && notice.value.chatId in UserIds(db.users)
      && notice.value.syncSheets == HasContact(RowOf(db.users, notice.value.chatId))
  {
    ghost var users1 := db.users;
    ghost var refs1 := db.referrals;
    ghost var u0 := RowOf(users1, tgUserId);
    var r := ConfirmSubscriptionAndReferral(db, tgUserId, now);
    res := r.value;
    ghost var ku := FindUser(users1, tgUserId).value;
    FindUserUnique(db.users, ku);
    assert RowOf(db.users, tgUserId) == SubscribedRow(u0);

    notice := None;
    if res.referrerToNotify.Some? {
      ghost var credited := UsersAfterCredit(users1, refs1, tgUserId);
      assert credited[ku].tgUserId == UserIds(credited)[ku] == UserIds(users1)[ku];
      UserIdsUpdate(credited, ku, SubscribedRow(u0));
      var n := NotifyReferrer(db, res.referrerToNotify.value, res.referrerIsParticipant);
      notice := Some(n);
    }
  }

  /** The part of the callback after a positive membership check: the
      confirmation, the referrer's message and the answer. */
  method ConfirmAndAnswer(db: Database, conv: Conversation, tgUserId: int, botUsername: string, now: int)
    returns (reply: CheckReply, notice: Option<ReferrerNotice>)
    requires db.Consistent() && tgUserId in UserIds(db.users)
    modifies db, conv
    ensures db.Consistent()
    ensures db.referrals == ReferralsAfterConfirmation(old(db.referrals), tgUserId, now)
    ensures tgUserId in UserIds(db.users) && RowOf(db.users, tgUserId).isSubscribed
    ensures notice.Some? <==> CreditedReferrer(old(db.referrals), tgUserId).Some?
    ensures notice.Some? ==>
      && notice.value.chatId == CreditedReferrer(old(db.referrals), tgUserId).value
      && notice.value.chatId in UserIds(old(db.users))
      && notice.value.congratulate == CreditedRow(RowOf(old(db.users), notice.value.chatId)).isParticipant
      && notice.value.chatId in UserIds(db.users)
      && notice.value.syncSheets == HasContact(RowOf(db.users, notice.value.chatId))
    ensures reply.AlreadyParticipant? || reply.AwaitingFriend? || reply.ContactRequested? || reply.StatusUpdated?
    ensures reply.AwaitingFriend? ==> reply.referralsNeeded == 1
    ensures reply.ContactRequested? ==> conv.state == Some(WaitingForSimpleContact) && conv.data == old(conv.data)
    ensures !reply.ContactRequested? ==> conv.state == old(conv.state) && conv.data == old(conv.data)
  {
    var res;
    res, notice := ConfirmAndNotify(db, tgUserId, now);
    reply := DecideReply(res, botUsername, tgUserId);
    if reply.ContactRequested? {
      RequestSimpleContact(conv);
    }
  }

  /** The whole callback. `memberStatus` is the membership lookup, retried as
      the retry policy says: the status it returned, or `None` for a
      Telegram API error. */
  method HandleCheckSubscription(db: Database, conv: Conversation, fromUser: Option<TelegramUser>,
                                 memberStatus: Option<RawMemberStatus>, botUsername: string, now: int)
    returns (reply: CheckReply, notice: Option<ReferrerNotice>)
    requires db.Consistent()
    modifies db, conv
    ensures db.Consistent()
    ensures reply.EmptyAnswer? <==> fromUser.None?
    ensures fromUser.None? ==> db.users == old(db.users) && db.referrals == old(db.referrals) && notice.None?
    ensures fromUser.Some? ==>
      var u := fromUser.value;
      var retryAfter := ComputeRetryAfterSeconds(RowBeforeStart(old(db.users), u).lastSubscriptionCheckAt,
                                                 now, SUBSCRIPTION_RATE_LIMIT_SECONDS);
      var verdict := if memberStatus.Some? then ClassifyStatus(NormalizeMemberStatus(memberStatus.value)) else Subscribed;
      && (reply.RateLimited? <==> retryAfter > 0)
      && (reply.RateLimited? ==> reply.retryAfter == retryAfter)
      && (reply.CheckUnavailable? <==> retryAfter == 0 && memberStatus.None?)
      && (reply.NotSubscribed? <==> retryAfter == 0 && memberStatus.Some? && !verdict.Subscribed?)
      && (reply.NotSubscribed? ==> reply.unknownStatus == verdict.UnknownStatus?)
      && (reply.RateLimited? || reply.CheckUnavailable? || reply.NotSubscribed? ==>
            db.referrals == old(db.referrals) && NoConfirmation(old(db.users), db.users) && notice.None?)
      && (!reply.RateLimited? && !reply.CheckUnavailable? && !reply.NotSubscribed? ==>
            && db.referrals == ReferralsAfterConfirmation(old(db.referrals), u.id, now)
            && u.id in UserIds(db.users) && RowOf(db.users, u.id).isSubscribed
            && (notice.Some? <==> CreditedReferrer(old(db.referrals), u.id).Some?)
            && (notice.Some? ==> notice.value.chatId == CreditedReferrer(old(db.referrals), u.id).value))
    ensures reply.AwaitingFriend? ==> reply.referralsNeeded == 1
    ensures reply.ContactRequested? ==> conv.state == Some(WaitingForSimpleContact) && conv.data == old(conv.data)
    ensures !reply.ContactRequested? ==> conv.state == old(conv.state) && conv.data == old(conv.data)
    ensures notice.Some? ==>
      notice.value.chatId in UserIds(db.users) && notice.value.syncSheets == HasContact(RowOf(db.users, notice.value.chatId))
  {
    if fromUser.None? {
      return EmptyAnswer, None;
    }
    var u := fromUser.value;
    var retryAfter := CheckAttempt(db, u, now);
    if retryAfter > 0 {
      return RateLimited(retryAfter), None;
    }
    if memberStatus.None? {
      return CheckUnavailable, None;
    }
    var status := NormalizeMemberStatus(memberStatus.value);
    var verdict := ClassifyStatus(status);
    if !verdict.Subscribed? {
      return NotSubscribed(verdict.UnknownStatus?), None;
    }
    reply, notice := ConfirmAndAnswer(db, conv, u.id, botUsername, now);
  }
}
