/** The `users` and `referrals` tables as one in-memory store, with the
    repository queries and statements the services run inside a transaction. */
module Repositories {
  import opened Common
  import opened Models

  datatype BasicStats = BasicStats(totalUsers: nat, totalSubscribed: nat, totalParticipants: nat)

  class Database {
    /** Rows of `users`, in primary-key order. */
    var users: seq<User>
    /** Rows of `referrals`, in primary-key order. */
    var referrals: seq<Referral>

    /** What the schema enforces after every statement. */
    ghost predicate Valid()
      reads this
    {
      SchemaValid(users, referrals)
    }

    /** What every committed transaction of the services leaves behind. */
    ghost predicate Consistent()
      reads this
    {
      Valid() && ParticipantsEligible(users) && CountersMatchEdges(users, referrals)
      && ReferrersMirrored(users, referrals)
    }

    constructor ()
      ensures Consistent() && users == [] && referrals == []
    {
      users := [];
      referrals := [];
    }

    // -------------------------------------------------------------------
    // users

    /** `SELECT ... WHERE tg_user_id = :id`. */
    function GetByTgUserId(tgUserId: int): (r: Option<User>)
      reads this
      ensures r.Some? <==> tgUserId in UserIds(users)
      ensures r.Some? ==> r.value.tgUserId == tgUserId && r.value in users
    {
      match FindUser(users, tgUserId)
      case None => None
      case Some(k) => Some(users[k])
    }

    /** The same query with `FOR UPDATE`: the row is loaded into a session object. */
    method GetByTgUserIdForUpdate(tgUserId: int) returns (user: UserRecord?)
      ensures user == null <==> tgUserId !in UserIds(users)
      ensures user != null ==> fresh(user) && Some(user.Row()) == GetByTgUserId(tgUserId)
    {
      var k := FindUser(users, tgUserId);
      if k.None? {
        return null;
      }
      user := new UserRecord.Load(users[k.value]);
    }

    /** Insert-or-ignore of the identity and profile, then load of the row,
        whose profile is overwritten on the loaded object. */
    method GetOrCreateForUpdate(tgUserId: int, username: Option<string>, firstName: Option<string>, lastName: Option<string>)
      returns (user: UserRecord, created: bool)
      requires Valid()
      modifies this
      ensures Valid()
      ensures created <==> tgUserId !in UserIds(old(users))
      ensures users == if created then old(users) + [NewUser(tgUserId, username, firstName, lastName)] else old(users)
      ensures referrals == old(referrals)
      ensures tgUserId in UserIds(users)
      ensures fresh(user)
      ensures user.Row() == GetByTgUserId(tgUserId).value.(username := username, firstName := firstName, lastName := lastName)
      ensures created ==> && !user.isSubscribed && user.referralsConfirmed == 0 && !user.isParticipant
                          && user.referredBy.None? && user.lastSubscriptionCheckAt.None?
                          && user.contactName.None? && user.contactPhone.None?
    {
      created := FindUser(users, tgUserId).None?;
      if created {
        var row := NewUser(tgUserId, username, firstName, lastName);
        InUserIds(users, tgUserId);
        UserIdsAppend(users, row);
        users := users + [row];
        FindUserUnique(users, |users| - 1);
      }
      var k := FindUser(users, tgUserId).value;
      user := new UserRecord.Load(users[k]);
      user.username := username;
      user.firstName := firstName;
      user.lastName := lastName;
    }

    /** `SELECT id ... LIMIT 1` is not null. */
    function ExistsByTgUserId(tgUserId: int): (r: bool)
      reads this
      ensures r <==> exists i :: 0 <= i < |users| && users[i].tgUserId == tgUserId
      ensures r <==> tgUserId in UserIds(users)
    {
      InUserIds(users, tgUserId);
      FindUser(users, tgUserId).Some?
    }

    /** The three `count(*)` queries of the statistics. */
    function FetchBasicStats(): (s: BasicStats)
      reads this
      ensures s.totalUsers == |users|
      ensures s.totalSubscribed <= s.totalUsers && s.totalParticipants <= s.totalUsers
      ensures ParticipantsEligible(users) ==> s.totalParticipants <= s.totalSubscribed
    {
      CountsBoundedByTotal(users);
      ParticipantsBoundWhenEligible(users);
      BasicStats(|users|, CountSubscribed(users), CountParticipants(users))
    }

    /** Every `tg_user_id`, ordered by primary key. */
    function FetchAllTgUserIds(): (ids: seq<int>)
      reads this
      ensures |ids| == |users| && forall i :: 0 <= i < |users| ==> ids[i] == users[i].tgUserId
      ensures Valid() ==> forall i, j :: 0 <= i < j < |ids| ==> ids[i] != ids[j]
    {
      UserIds(users)
    }

    /** The session flush at commit: the loaded object's columns are written
        back to its row. */
    method Save(user: UserRecord)
      requires Valid()
      requires user.tgUserId in UserIds(users)
      requires user.referredBy.Some? ==> user.referredBy.value in UserIds(users)
      modifies this
      ensures Valid()
      ensures users == old(users)[FindUser(old(users), user.tgUserId).value := user.Row()]
      ensures UserIds(users) == UserIds(old(users))
      ensures referrals == old(referrals)
    {
      var k := FindUser(users, user.tgUserId).value;
      UserIdsUpdate(users, k, user.Row());
      assert UserIds(users)[k] == user.tgUserId;
      users := users[k := user.Row()];
      assert forall i :: 0 <= i < |users| && i != k ==> users[i] == old(users)[i];
    }

    // -------------------------------------------------------------------
    // referrals

    /** `INSERT ... ON CONFLICT (referral_id) DO NOTHING RETURNING id`: true
        exactly when a row was inserted. The referrer and the referred user
        must exist and differ, or the database rejects the statement. */
    method CreatePendingReferral(referrerId: int, referralId: int, now: int) returns (inserted: bool)
      requires Valid()
      requires referrerId in UserIds(users) && referralId in UserIds(users) && referrerId != referralId
      modifies this
      ensures Valid()
      ensures inserted <==> FindReferral(old(referrals), referralId).None?
      ensures referrals == if inserted then old(referrals) + [Referral(referrerId, referralId, Pending, None, now)]
                           else old(referrals)
      ensures users == old(users)
    {
      inserted := FindReferral(referrals, referralId).None?;
      if inserted {
        referrals := referrals + [Referral(referrerId, referralId, Pending, None, now)];
      }
    }

    /** The edge of this referred user, if any; under the schema, the only one. */
    function GetReferralByReferralId(referralId: int): (r: Option<Referral>)
      reads this
      ensures r.None? <==> forall k :: 0 <= k < |referrals| ==> referrals[k].referralId != referralId
      ensures r.Some? ==> r.value in referrals && r.value.referralId == referralId
      ensures r.Some? && Valid() ==> forall k :: 0 <= k < |referrals| && referrals[k].referralId == referralId ==> referrals[k] == r.value
    {
      match FindReferral(referrals, referralId)
      case None => None
      case Some(k) => Some(referrals[k])
    }

    /** `UPDATE ... SET status = confirmed, confirmed_at = now WHERE
        referral_id = :id AND status = pending RETURNING referrer_id`. */
    method ConfirmPendingReferral(referralId: int, now: int) returns (referrerId: Option<int>)
      requires Valid()
      modifies this
      ensures Valid()
      ensures users == old(users)
      ensures var k := FindReferral(old(referrals), referralId);
        if k.Some? && old(referrals)[k.value].status == Pending then
          && referrerId == Some(old(referrals)[k.value].referrerId)
          && referrals == old(referrals)[k.value := ConfirmEdge(old(referrals)[k.value], now)]
        else
          referrerId.None? && referrals == old(referrals)
    {
      var k := FindReferral(referrals, referralId);
      if k.Some? && referrals[k.value].status == Pending {
        referrerId := Some(referrals[k.value].referrerId);
        referrals := referrals[k.value := ConfirmEdge(referrals[k.value], now)];
      } else {
        referrerId := None;
      }
    }

    /** `count(id) WHERE status = confirmed`. */
    function CountConfirmedReferrals(): (n: nat)
      reads this
      ensures n <= |referrals|
      ensures CountersMatchEdges(users, referrals) && Valid() ==> n == SumCounters(users)
    {
      ConfirmedAtMost(referrals);
      CountWhenConsistent(users, referrals);
      ConfirmedCount(referrals)
    }
  }

  lemma ParticipantsBoundWhenEligible(users: seq<User>)
    ensures ParticipantsEligible(users) ==> CountParticipants(users) <= CountSubscribed(users)
  {
    if ParticipantsEligible(users) {
      ParticipantsAtMostSubscribed(users);
    }
  }

  lemma CountWhenConsistent(users: seq<User>, refs: seq<Referral>)
    ensures CountersMatchEdges(users, refs) && SchemaValid(users, refs) ==> ConfirmedCount(refs) == SumCounters(users)
  {
    if CountersMatchEdges(users, refs) && SchemaValid(users, refs) {
      TableCountEqualsCounterSum(users, refs);
    }
  }

  lemma {:induction false} ConfirmedAtMost(refs: seq<Referral>)
    ensures ConfirmedCount(refs) <= |refs|
  {
    if refs != [] {
      ConfirmedAtMost(refs[..|refs| - 1]);
    }
  }

  /** After the first confirmation the user's edge is still the one found,
      and no longer pending, so a second confirmation matches no row; the
      table count rose by one, once. */
  lemma ConfirmTwiceIsIdempotent(refs: seq<Referral>, referralId: int, now: int)
    requires UniqueReferralIds(refs)
    requires var k := FindReferral(refs, referralId); k.Some? && refs[k.value].status == Pending
    ensures var k := FindReferral(refs, referralId).value;
      var once := refs[k := ConfirmEdge(refs[k], now)];
      && ConfirmedCount(once) == ConfirmedCount(refs) + 1
      && FindReferral(once, referralId) == Some(k)
      && once[k].status == Confirmed
  {
    var k := FindReferral(refs, referralId).value;
    ConfirmEdgeCounts(refs, k, now, refs[k].referrerId);
    var once := refs[k := ConfirmEdge(refs[k], now)];
    FindReferralStable(refs, k, ConfirmEdge(refs[k], now), referralId);
  }
}
