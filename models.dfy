/** The two database tables of the giveaway bot, their rows, the constraints
    the schema declares on them, and the counting facts the services and the
    admin statistics rely on. */
module Models {
  import opened Common

  /** Confirmed referrals a subscribed user needs to become a participant. */
  const REFERRALS_REQUIRED_FOR_PARTICIPATION: nat := 1
  /** Seconds a user must wait between two subscription checks. */
  const SUBSCRIPTION_RATE_LIMIT_SECONDS: int := 5

  const VALID_SUBSCRIPTION_STATUSES: set<string> := {"member", "administrator", "creator"}
  const INVALID_SUBSCRIPTION_STATUSES: set<string> := {"left", "kicked", "restricted"}

  /** The Telegram account that sent an update (only the fields the bot reads). */
  datatype TelegramUser = TelegramUser(id: int, username: Option<string>, firstName: string, lastName: Option<string>)

  datatype ReferralStatus = Pending | Confirmed {
    /** The value stored in the `referral_status` database enum. */
    function Value(): (v: string)
      ensures v == "pending" || v == "confirmed"
    {
      match this
      case Pending => "pending"
      case Confirmed => "confirmed"
    }
  }

  lemma StatusValueInjective(a: ReferralStatus, b: ReferralStatus)
    requires a.Value() == b.Value()
    ensures a == b
  {
  }

  /** A row of the `users` table. Timestamps are microseconds since the epoch. */
  datatype User = User(
    tgUserId: int,
    username: Option<string>,
    firstName: Option<string>,
    lastName: Option<string>,
    isSubscribed: bool,
    referredBy: Option<int>,
    referralsConfirmed: nat,
    isParticipant: bool,
    lastSubscriptionCheckAt: Option<int>,
    contactName: Option<string>,
    contactPhone: Option<string>)

  /** The row an insert with only the identity and profile creates: every other
      column takes its declared default. */
  function NewUser(tgUserId: int, username: Option<string>, firstName: Option<string>, lastName: Option<string>): (u: User)
    ensures u.tgUserId == tgUserId && u.username == username && u.firstName == firstName && u.lastName == lastName
    ensures !u.isSubscribed && !u.isParticipant && u.referralsConfirmed == 0
    ensures u.referredBy.None? && u.lastSubscriptionCheckAt.None? && !HasContact(u)
  {
    User(tgUserId, username, firstName, lastName, false, None, 0, false, None, None, None)
  }

  /** `bool(user.contact_name and user.contact_phone)`: both are present and
      neither is empty. */
  function HasContact(u: User): (has: bool)
    ensures has <==> u.contactName.Some? && u.contactName.value != "" && u.contactPhone.Some? && u.contactPhone.value != ""
  {
    Truthy(u.contactName) && Truthy(u.contactPhone)
  }

  /** A row of the `referrals` table: the edge referrer -> referral. */
  datatype Referral = Referral(
    referrerId: int,
    referralId: int,
    status: ReferralStatus,
    confirmedAt: Option<int>,
    createdAt: int)

  /** The `tg_user_id` column, in primary-key (insertion) order. */
  function UserIds(users: seq<User>): seq<int> {
    seq(|users|, i requires 0 <= i < |users| => users[i].tgUserId)
  }

  // ---------------------------------------------------------------------
  // Schema constraints

  /** `tg_user_id` is declared unique. */
  ghost predicate UniqueTgUserIds(users: seq<User>) {
    forall i, j :: 0 <= i < j < |users| ==> users[i].tgUserId != users[j].tgUserId
  }

  /** `referral_id` is declared unique: a user is referred at most once. */
  ghost predicate UniqueReferralIds(refs: seq<Referral>) {
    forall i, j :: 0 <= i < j < |refs| ==> refs[i].referralId != refs[j].referralId
  }

  /** The check constraint `referrer_id <> referral_id`. */
  ghost predicate NoSelfReferral(refs: seq<Referral>) {
    forall k :: 0 <= k < |refs| ==> refs[k].referrerId != refs[k].referralId
  }

  /** `referred_by`, `referrer_id` and `referral_id` reference `users.tg_user_id`. */
  ghost predicate ForeignKeysHold(users: seq<User>, refs: seq<Referral>) {
    && (forall i :: 0 <= i < |users| && users[i].referredBy.Some? ==> users[i].referredBy.value in UserIds(users))
    && (forall k :: 0 <= k < |refs| ==> refs[k].referrerId in UserIds(users) && refs[k].referralId in UserIds(users))
  }

  /** `confirmed_at` is written exactly when the edge is confirmed. The table
      declares no such constraint (the column is only nullable); the
      repository's writes keep it: an edge is inserted pending without a
      time and is stamped when it is confirmed. */
  ghost predicate ConfirmedAtMatchesStatus(refs: seq<Referral>) {
    forall k :: 0 <= k < |refs| ==> (refs[k].confirmedAt.Some? <==> refs[k].status == Confirmed)
  }

  /** The declared constraints of the two tables, together with the
      `confirmed_at` rule above, which the writes maintain rather than the
      database. */
  ghost predicate SchemaValid(users: seq<User>, refs: seq<Referral>) {
    && UniqueTgUserIds(users)
    && UniqueReferralIds(refs)
    && NoSelfReferral(refs)
    && ForeignKeysHold(users, refs)
    && ConfirmedAtMatchesStatus(refs)
  }

  // ---------------------------------------------------------------------
  // Invariants the services keep on top of the schema

  /** A participant is subscribed and has the required confirmed referrals. */
  ghost predicate ParticipantsEligible(users: seq<User>) {
    forall i :: 0 <= i < |users| && users[i].isParticipant ==>
      users[i].isSubscribed && users[i].referralsConfirmed >= REFERRALS_REQUIRED_FOR_PARTICIPATION
  }

  /** Each user's counter equals the number of confirmed edges it is the referrer of. */
  ghost predicate CountersMatchEdges(users: seq<User>, refs: seq<Referral>) {
    forall i :: 0 <= i < |users| ==> users[i].referralsConfirmed == ConfirmedBy(refs, users[i].tgUserId)
  }

  /** `referred_by` caches the referrer of the user's edge: a user has a
      referrer exactly when an edge names them as the referred user, and it
      is that edge's referrer. */
  ghost predicate ReferrersMirrored(users: seq<User>, refs: seq<Referral>) {
    forall i :: 0 <= i < |users| ==> users[i].referredBy == ReferrerOf(refs, users[i].tgUserId)
  }

  // ---------------------------------------------------------------------
  // Lookups

  /** The position of the row with this `tg_user_id`, if there is one. */
  function FindUser(users: seq<User>, tgUserId: int): (r: Option<nat>)
    ensures r.Some? ==> r.value < |users| && users[r.value].tgUserId == tgUserId
    ensures r.Some? ==> forall j :: 0 <= j < r.value ==> users[j].tgUserId != tgUserId
    ensures r.None? <==> tgUserId !in UserIds(users)
  {
    if users == [] then None
    else if users[0].tgUserId == tgUserId then
      assert UserIds(users)[0] == tgUserId;
      Some(0)
    else
      var rest := FindUser(users[1..], tgUserId);
      assert UserIds(users) == [users[0].tgUserId] + UserIds(users[1..]);
      match rest
      case None => None
      case Some(k) => Some(k + 1)
  }

  /** The row with this `tg_user_id`. */
  function RowOf(users: seq<User>, tgUserId: int): (u: User)
    requires tgUserId in UserIds(users)
    ensures u in users && u.tgUserId == tgUserId
  {
    users[FindUser(users, tgUserId).value]
  }

  /** The position of the edge whose referred user is `referralId`, if any. */
  function FindReferral(refs: seq<Referral>, referralId: int): (r: Option<nat>)
    ensures r.Some? ==> r.value < |refs| && refs[r.value].referralId == referralId
    ensures r.None? <==> forall k :: 0 <= k < |refs| ==> refs[k].referralId != referralId
  {
    if refs == [] then None
    else if refs[0].referralId == referralId then Some(0)
    else
      match FindReferral(refs[1..], referralId)
      case None => None
      case Some(k) => Some(k + 1)
  }

  /** The referrer of the edge whose referred user is `referralId`, if any. */
  function ReferrerOf(refs: seq<Referral>, referralId: int): (r: Option<int>)
    ensures r.None? <==> forall k :: 0 <= k < |refs| ==> refs[k].referralId != referralId
    ensures r.Some? ==> exists k :: 0 <= k < |refs| && refs[k].referralId == referralId && refs[k].referrerId == r.value
  {
    match FindReferral(refs, referralId)
    case None => None
    case Some(k) => Some(refs[k].referrerId)
  }

  /** Rewriting an edge in place, keeping its referred user, keeps the lookup. */
  lemma {:induction false} FindReferralStable(refs: seq<Referral>, k: nat, e: Referral, referralId: int)
    requires k < |refs| && e.referralId == refs[k].referralId
    ensures FindReferral(refs[k := e], referralId) == FindReferral(refs, referralId)
  {
    if refs != [] && k > 0 {
      assert refs[k := e][1..] == refs[1..][k - 1 := e];
      FindReferralStable(refs[1..], k - 1, e, referralId);
    }
  }

  /** An appended edge is found only when no earlier edge names its user. */
  lemma {:induction false} FindReferralAppend(refs: seq<Referral>, e: Referral, referralId: int)
    ensures FindReferral(refs + [e], referralId)
            == if FindReferral(refs, referralId).Some? then FindReferral(refs, referralId)
               else if e.referralId == referralId then Some(|refs|) else None
  {
    if refs != [] {
      assert (refs + [e])[1..] == refs[1..] + [e];
      FindReferralAppend(refs[1..], e, referralId);
    }
  }

  lemma {:induction false} FindUserUnique(users: seq<User>, i: nat)
    requires UniqueTgUserIds(users) && i < |users|
    ensures FindUser(users, users[i].tgUserId) == Some(i)
  {
    var r := FindUser(users, users[i].tgUserId);
    assert users[i].tgUserId in UserIds(users) by {
      assert UserIds(users)[i] == users[i].tgUserId;
    }
  }

  /** Membership in the id column is having a row with that id. */
  lemma InUserIds(users: seq<User>, x: int)
    ensures x in UserIds(users) <==> exists i :: 0 <= i < |users| && users[i].tgUserId == x
  {
    if x in UserIds(users) {
      var i :| 0 <= i < |users| && UserIds(users)[i] == x;
      assert users[i].tgUserId == x;
    }
    if exists i :: 0 <= i < |users| && users[i].tgUserId == x {
      var i :| 0 <= i < |users| && users[i].tgUserId == x;
      assert UserIds(users)[i] == x;
    }
  }

  lemma UserIdsAppend(users: seq<User>, u: User)
    ensures UserIds(users + [u]) == UserIds(users) + [u.tgUserId]
  {
  }

  lemma UserIdsUpdate(users: seq<User>, k: nat, u: User)
    requires k < |users| && u.tgUserId == users[k].tgUserId
    ensures UserIds(users[k := u]) == UserIds(users)
  {
  }

  // ---------------------------------------------------------------------
  // Counting

  /** Confirmed edges whose referrer is `referrerId`. */
  function ConfirmedBy(refs: seq<Referral>, referrerId: int): nat {
    if refs == [] then 0
    else
      var last := refs[|refs| - 1];
      ConfirmedBy(refs[..|refs| - 1], referrerId) + (if last.status == Confirmed && last.referrerId == referrerId then 1 else 0)
  }

  /** Confirmed edges in the whole table. */
  function ConfirmedCount(refs: seq<Referral>): nat {
    if refs == [] then 0
    else ConfirmedCount(refs[..|refs| - 1]) + (if refs[|refs| - 1].status == Confirmed then 1 else 0)
  }

  function CountSubscribed(users: seq<User>): nat {
    if users == [] then 0 else CountSubscribed(users[..|users| - 1]) + (if users[|users| - 1].isSubscribed then 1 else 0)
  }

  function CountParticipants(users: seq<User>): nat {
    if users == [] then 0 else CountParticipants(users[..|users| - 1]) + (if users[|users| - 1].isParticipant then 1 else 0)
  }

  /** The sum of every user's `referrals_confirmed` counter. */
  function SumCounters(users: seq<User>): nat {
    if users == [] then 0 else SumCounters(users[..|users| - 1]) + users[|users| - 1].referralsConfirmed
  }

  lemma {:induction false} CountsBoundedByTotal(users: seq<User>)
    ensures CountSubscribed(users) <= |users| && CountParticipants(users) <= |users|
  {
    if users != [] {
      CountsBoundedByTotal(users[..|users| - 1]);
    }
  }

  /** With every participant subscribed, there are no more participants than subscribers. */
  lemma {:induction false} ParticipantsAtMostSubscribed(users: seq<User>)
    requires ParticipantsEligible(users)
    ensures CountParticipants(users) <= CountSubscribed(users)
  {
    if users != [] {
      var p := users[..|users| - 1];
      assert forall i :: 0 <= i < |p| ==> p[i] == users[i];
      ParticipantsAtMostSubscribed(p);
    }
  }

  /** Appending a pending edge changes no confirmed count. */
  lemma AppendPendingKeepsConfirmed(refs: seq<Referral>, e: Referral, x: int)
    requires e.status == Pending
    ensures ConfirmedBy(refs + [e], x) == ConfirmedBy(refs, x)
    ensures ConfirmedCount(refs + [e]) == ConfirmedCount(refs)
  {
    assert (refs + [e])[..|refs|] == refs;
  }

  /** The edge an UPDATE ... SET status = confirmed writes. */
  function ConfirmEdge(e: Referral, now: int): Referral {
    e.(status := Confirmed, confirmedAt := Some(now))
  }

  /** Flipping one pending edge adds one confirmed edge, credited to its referrer only. */
  lemma {:induction false} ConfirmEdgeCounts(refs: seq<Referral>, k: nat, now: int, x: int)
    requires k < |refs| && refs[k].status == Pending
    ensures ConfirmedBy(refs[k := ConfirmEdge(refs[k], now)], x)
            == ConfirmedBy(refs, x) + (if refs[k].referrerId == x then 1 else 0)
    ensures ConfirmedCount(refs[k := ConfirmEdge(refs[k], now)]) == ConfirmedCount(refs) + 1
  {
    var flipped := refs[k := ConfirmEdge(refs[k], now)];
    var n := |refs|;
    if k == n - 1 {
      assert flipped[..n - 1] == refs[..n - 1];
    } else {
      assert flipped[..n - 1] == refs[..n - 1][k := ConfirmEdge(refs[k], now)];
      ConfirmEdgeCounts(refs[..n - 1], k, now, x);
    }
  }

  /** No edge names `x` as referrer, so `x` has no confirmed referrals. */
  lemma {:induction false} NoEdgesNoConfirmed(refs: seq<Referral>, x: int)
    requires forall k :: 0 <= k < |refs| ==> refs[k].referrerId != x
    ensures ConfirmedBy(refs, x) == 0
  {
    if refs != [] {
      NoEdgesNoConfirmed(refs[..|refs| - 1], x);
    }
  }

  /** How many rows carry `tg_user_id == x`. */
  function CountId(users: seq<User>, x: int): nat {
    if users == [] then 0 else CountId(users[..|users| - 1], x) + (if users[|users| - 1].tgUserId == x then 1 else 0)
  }

  lemma {:induction false} CountIdAbsent(users: seq<User>, x: int)
    requires x !in UserIds(users)
    ensures CountId(users, x) == 0
  {
    if users != [] {
      var p := users[..|users| - 1];
      assert UserIds(users) == UserIds(p) + [users[|users| - 1].tgUserId];
      CountIdAbsent(p, x);
    }
  }

  lemma {:induction false} CountIdUnique(users: seq<User>, x: int)
    requires UniqueTgUserIds(users) && x in UserIds(users)
    ensures CountId(users, x) == 1
  {
    var p := users[..|users| - 1];
    var last := users[|users| - 1];
    assert UserIds(users) == UserIds(p) + [last.tgUserId];
    if last.tgUserId == x {
      assert x !in UserIds(p);
      CountIdAbsent(p, x);
    } else {
      CountIdUnique(p, x);
    }
  }

  /** The sum over all users of their confirmed edges. */
  function SumConfirmedBy(users: seq<User>, refs: seq<Referral>): nat {
    if users == [] then 0
    else SumConfirmedBy(users[..|users| - 1], refs) + ConfirmedBy(refs, users[|users| - 1].tgUserId)
  }

  lemma {:induction false} SumConfirmedBySnoc(users: seq<User>, refs: seq<Referral>, e: Referral)
    ensures SumConfirmedBy(users, refs + [e])
            == SumConfirmedBy(users, refs) + (if e.status == Confirmed then CountId(users, e.referrerId) else 0)
  {
    assert (refs + [e])[..|refs|] == refs;
    if users != [] {
      SumConfirmedBySnoc(users[..|users| - 1], refs, e);
    }
  }

  lemma {:induction false} SumConfirmedByIsCount(users: seq<User>, refs: seq<Referral>)
    requires UniqueTgUserIds(users)
    requires forall k :: 0 <= k < |refs| ==> refs[k].referrerId in UserIds(users)
    ensures SumConfirmedBy(users, refs) == ConfirmedCount(refs)
  {
    if refs == [] {
      SumOfNothing(users);
    } else {
      var p := refs[..|refs| - 1];
      var e := refs[|refs| - 1];
      assert refs == p + [e];
      SumConfirmedByIsCount(users, p);
      SumConfirmedBySnoc(users, p, e);
      if e.status == Confirmed {
        CountIdUnique(users, e.referrerId);
      }
    }
  }

  lemma {:induction false} SumOfNothing(users: seq<User>)
    ensures SumConfirmedBy(users, []) == 0
  {
    if users != [] {
      SumOfNothing(users[..|users| - 1]);
    }
  }

  lemma {:induction false} CountersSumToEdges(users: seq<User>, refs: seq<Referral>)
    requires CountersMatchEdges(users, refs)
    ensures SumCounters(users) == SumConfirmedBy(users, refs)
  {
    if users != [] {
      var p := users[..|users| - 1];
      assert forall i :: 0 <= i < |p| ==> p[i] == users[i];
      CountersSumToEdges(p, refs);
    }
  }

  /** Under the schema and the counter invariant, the number of confirmed
      edges in the referral table equals the sum of the users' counters. */
  lemma TableCountEqualsCounterSum(users: seq<User>, refs: seq<Referral>)
    requires SchemaValid(users, refs) && CountersMatchEdges(users, refs)
    ensures ConfirmedCount(refs) == SumCounters(users)
  {
    CountersSumToEdges(users, refs);
    SumConfirmedByIsCount(users, refs);
  }

  // ---------------------------------------------------------------------
  // Keeping the service invariants

  /** A fresh row with no counter and no participation keeps both invariants:
      no edge can name a user that did not exist yet. */
  lemma NewRowKeepsInvariants(users: seq<User>, refs: seq<Referral>, row: User)
    requires SchemaValid(users, refs) && ParticipantsEligible(users) && CountersMatchEdges(users, refs)
    requires row.tgUserId !in UserIds(users) && row.referralsConfirmed == 0 && !row.isParticipant
    ensures ParticipantsEligible(users + [row]) && CountersMatchEdges(users + [row], refs)
  {
    NoEdgesNoConfirmed(refs, row.tgUserId);
    var grown := users + [row];
    assert forall i :: 0 <= i < |users| ==> grown[i] == users[i];
  }

  /** A pending edge credits nobody. */
  lemma PendingEdgeKeepsCounters(users: seq<User>, refs: seq<Referral>, e: Referral)
    requires e.status == Pending && CountersMatchEdges(users, refs)
    ensures CountersMatchEdges(users, refs + [e])
  {
    forall i | 0 <= i < |users|
      ensures users[i].referralsConfirmed == ConfirmedBy(refs + [e], users[i].tgUserId)
    {
      AppendPendingKeepsConfirmed(refs, e, users[i].tgUserId);
    }
  }

  /** Rewriting one row keeps both invariants when the new row is itself
      eligible and its counter matches its confirmed edges, and every other
      row's counter already matches. */
  lemma RowUpdateKeepsInvariants(users: seq<User>, refs: seq<Referral>, k: nat, row: User)
    requires k < |users| && row.tgUserId == users[k].tgUserId
    requires ParticipantsEligible(users)
    requires forall i :: 0 <= i < |users| && i != k ==> users[i].referralsConfirmed == ConfirmedBy(refs, users[i].tgUserId)
    requires row.isParticipant ==> row.isSubscribed && row.referralsConfirmed >= REFERRALS_REQUIRED_FOR_PARTICIPATION
    requires row.referralsConfirmed == ConfirmedBy(refs, row.tgUserId)
    ensures ParticipantsEligible(users[k := row]) && CountersMatchEdges(users[k := row], refs)
  {
  }

  /** Flipping one pending edge leaves every counter but its referrer's right. */
  lemma FlipKeepsOtherCounters(users: seq<User>, refs: seq<Referral>, k: nat, now: int)
    requires k < |refs| && refs[k].status == Pending && CountersMatchEdges(users, refs)
    ensures forall i :: 0 <= i < |users| && users[i].tgUserId != refs[k].referrerId ==>
              users[i].referralsConfirmed == ConfirmedBy(refs[k := ConfirmEdge(refs[k], now)], users[i].tgUserId)
  {
    forall i | 0 <= i < |users| && users[i].tgUserId != refs[k].referrerId
      ensures users[i].referralsConfirmed == ConfirmedBy(refs[k := ConfirmEdge(refs[k], now)], users[i].tgUserId)
    {
      ConfirmEdgeCounts(refs, k, now, users[i].tgUserId);
    }
  }

  /** Rows that keep their id and their `referred_by`, over edges that keep
      every user's referrer, keep the mirror. */
  lemma MirrorKept(users: seq<User>, refs: seq<Referral>, users2: seq<User>, refs2: seq<Referral>)
    requires ReferrersMirrored(users, refs)
    requires |users2| == |users|
    requires forall i :: 0 <= i < |users| ==> users2[i].tgUserId == users[i].tgUserId && users2[i].referredBy == users[i].referredBy
    requires forall i :: 0 <= i < |users| ==> ReferrerOf(refs2, users[i].tgUserId) == ReferrerOf(refs, users[i].tgUserId)
    ensures ReferrersMirrored(users2, refs2)
  {
  }

  /** Rewriting one row, keeping its id and its `referred_by`, keeps the mirror. */
  lemma MirrorRowUpdate(users: seq<User>, refs: seq<Referral>, k: nat, row: User)
    requires ReferrersMirrored(users, refs)
    requires k < |users| && row.tgUserId == users[k].tgUserId && row.referredBy == users[k].referredBy
    ensures ReferrersMirrored(users[k := row], refs)
  {
  }

  /** Confirming an edge keeps its two ends, so every user's referrer stays. */
  lemma ReferrerOfFlip(refs: seq<Referral>, k: nat, now: int, x: int)
    requires k < |refs|
    ensures ReferrerOf(refs[k := ConfirmEdge(refs[k], now)], x) == ReferrerOf(refs, x)
  {
    FindReferralStable(refs, k, ConfirmEdge(refs[k], now), x);
  }

  /** A fresh row without a referrer keeps the mirror: no edge can name a
      user that did not exist. */
  lemma MirrorNewRow(users: seq<User>, refs: seq<Referral>, row: User)
    requires ReferrersMirrored(users, refs) && ForeignKeysHold(users, refs)
    requires row.tgUserId !in UserIds(users) && row.referredBy.None?
    ensures ReferrersMirrored(users + [row], refs)
  {
    var grown := users + [row];
    assert forall i :: 0 <= i < |users| ==> grown[i] == users[i];
    assert ReferrerOf(refs, row.tgUserId).None?;
  }

  /** Appending the edge of a user who had none, and pointing that user's
      `referred_by` at its referrer, keeps the mirror. */
  lemma MirrorNewEdge(users: seq<User>, refs: seq<Referral>, k: nat, row: User, e: Referral)
    requires ReferrersMirrored(users, refs) && UniqueTgUserIds(users)
    requires k < |users| && users[k].tgUserId == e.referralId && row.tgUserId == e.referralId
    requires FindReferral(refs, e.referralId).None? && row.referredBy == Some(e.referrerId)
    ensures ReferrersMirrored(users[k := row], refs + [e])
  {
    var r := users[k := row];
    forall i | 0 <= i < |r|
      ensures r[i].referredBy == ReferrerOf(refs + [e], r[i].tgUserId)
    {
      FindReferralAppend(refs, e, r[i].tgUserId);
    }
  }

  /** Under the mirror, a user whose code may still be applied (no
      `referred_by`) has no edge, so the adopt branch of `/start` never runs. */
  lemma NoReferrerNoEdge(users: seq<User>, refs: seq<Referral>, tgUserId: int)
    requires ReferrersMirrored(users, refs) && tgUserId in UserIds(users)
    requires RowOf(users, tgUserId).referredBy.None?
    ensures FindReferral(refs, tgUserId).None?
  {
    var k := FindUser(users, tgUserId).value;
    assert users[k].referredBy == ReferrerOf(refs, tgUserId);
  }

  // ---------------------------------------------------------------------
  // The ORM object

  /** A user row loaded into the session. The services change its fields in
      place; the session writes them back to the row at commit. */
  class UserRecord {
    const tgUserId: int
    var username: Option<string>
    var firstName: Option<string>
    var lastName: Option<string>
    var isSubscribed: bool
    var referredBy: Option<int>
    var referralsConfirmed: nat
    var isParticipant: bool
    var lastSubscriptionCheckAt: Option<int>
    var contactName: Option<string>
    var contactPhone: Option<string>

    /** The row as it would be written back now. */
    function Row(): User
      reads this
    {
      User(tgUserId, username, firstName, lastName, isSubscribed, referredBy, referralsConfirmed,
           isParticipant, lastSubscriptionCheckAt, contactName, contactPhone)
    }

    constructor Load(row: User)
      ensures Row() == row
    {
      tgUserId := row.tgUserId;
      username := row.username;
      firstName := row.firstName;
      lastName := row.lastName;
      isSubscribed := row.isSubscribed;
      referredBy := row.referredBy;
      referralsConfirmed := row.referralsConfirmed;
      isParticipant := row.isParticipant;
      lastSubscriptionCheckAt := row.lastSubscriptionCheckAt;
      contactName := row.contactName;
      contactPhone := row.contactPhone;
    }
  }
}
