/** The `/start` command: registering the user and linking them to the
    referrer named in the invite link. */
module ReferralService {
  import opened Common
  import opened Models
  import opened Repositories

  datatype StartProcessingResult = StartProcessingResult(tgUserId: int, created: bool, referralApplied: bool)

  /** The referral code carried by the start argument: absent or empty gives
      nothing, otherwise the trimmed text read as an integer, a malformed one
      giving nothing rather than an error. */
  function ParseRefCode(rawValue: Option<string>): (r: Option<int>)
    ensures !Truthy(rawValue) ==> r.None?
    ensures Truthy(rawValue) ==> r == ParseInt(Trim(rawValue.value))
  {
    if !Truthy(rawValue) then None
    else ParseInt(Trim(rawValue.value))
  }

  /** The invite link carries `str(id)`; reading it back gives the id. */
  lemma RefCodeRoundTrip(id: int)
    ensures ParseRefCode(Some(IntToString(id))) == Some(id)
  {
    var s := IntToString(id);
    TrimOfUntrimmed(s);
    ParseIntOfIntToString(id);
  }

  /** Surrounding whitespace does not change the code that is read. */
  lemma RefCodeIgnoresSurroundingSpace(id: int, before: string, after: string)
    requires forall k :: 0 <= k < |before| ==> IsWhitespace(before[k])
    requires forall k :: 0 <= k < |after| ==> IsWhitespace(after[k])
    ensures ParseRefCode(Some(before + IntToString(id) + after)) == Some(id)
  {
    var s := IntToString(id);
    var padded := before + s + after;
    assert Trim(padded) == s by {
      assert !IsWhitespace(s[0]) && !IsWhitespace(s[|s| - 1]);
      assert padded == before + (s + after);
      TrimLeftSkipsBlank(before, s + after);
      assert (s + after)[0] == s[0];
      assert TrimLeft(s + after) == s + after;
      TrimRightSkipsBlank(s, after);
      assert TrimRight(s) == s;
    }
    assert padded != [];
    ParseIntOfIntToString(id);
  }

  /** The cases of the unit tests on malformed values. */
  lemma RefCodeOfNothing()
    ensures ParseRefCode(None) == None
    ensures ParseRefCode(Some("")) == None
  {
  }

  /** A code that, once stripped, starts with neither a digit nor a sign
      (the letters of the unit tests, say) gives nothing. */
  lemma RefCodeOfLetters(text: string)
    requires text != [] && !IsWhitespace(text[0]) && !IsWhitespace(text[|text| - 1])
    requires !IsDigit(text[0]) && text[0] != '-' && text[0] != '+'
    ensures ParseRefCode(Some(text)) == None
  {
    TrimOfUntrimmed(text);
  }

  lemma RefCodeOfDigits()
    ensures ParseRefCode(Some("123")) == Some(123)
  {
    assert NatToString(1) == "1";
    assert NatToString(12) == "12";
    assert NatToString(123) == "123";
    RefCodeRoundTrip(123);
  }

  /** A code may be applied only when present, when the user has no referrer
      yet, and when it does not name the user themselves. */
  function CanApplyReferral(existingReferredBy: Option<int>, refCode: Option<int>, userId: int): (r: bool)
    ensures r <==> refCode.Some? && existingReferredBy.None? && refCode.value != userId
  {
    if refCode.None? then false
    else if existingReferredBy.Some? then false
    else if refCode.value == userId then false
    else true
  }

  /** The cases of the unit tests: self-referral and overwrite are refused. */
  lemma CanApplyReferralExamples()
    ensures !CanApplyReferral(None, Some(10), 10)
    ensures !CanApplyReferral(Some(99), Some(11), 10)
    ensures CanApplyReferral(None, Some(11), 10)
  {
  }

  /** The row of `users` as the /start transaction meets it once the
      insert-or-ignore has run: the existing row, or the defaults. */
  function RowBeforeStart(users: seq<User>, telegramUser: TelegramUser): (u: User)
    ensures u.tgUserId == telegramUser.id
    ensures telegramUser.id !in UserIds(users) ==> u.referredBy.None? && u.referralsConfirmed == 0
  {
    if telegramUser.id in UserIds(users) then RowOf(users, telegramUser.id)
    else NewUser(telegramUser.id, telegramUser.username, Some(telegramUser.firstName), telegramUser.lastName)
  }

  /** The link step of `/start` on the loaded user: when the code may be
      applied and names an existing user, insert the pending edge, or adopt
      the edge that already exists for this user. */
  method LinkReferrer(db: Database, user: UserRecord, refCode: Option<int>, now: int) returns (referralApplied: bool)
    requires db.Valid() && user.tgUserId in UserIds(db.users)
    requires user.referredBy.Some? ==> user.referredBy.value in UserIds(db.users)
    modifies db, user
    ensures db.Valid() && db.users == old(db.users)
    ensures user.Row() == old(user.Row()).(referredBy := user.referredBy)
    ensures user.referredBy.Some? ==> user.referredBy.value in UserIds(db.users)
    ensures var eligible := CanApplyReferral(old(user.referredBy), refCode, user.tgUserId) && refCode.value in UserIds(db.users);
      var edge := FindReferral(old(db.referrals), user.tgUserId);
      && (referralApplied <==> eligible && edge.None?)
      && (db.referrals == if referralApplied
                          then old(db.referrals) + [Referral(refCode.value, user.tgUserId, Pending, None, now)]
                          else old(db.referrals))
      && (referralApplied ==> user.referredBy == refCode)
      && (eligible && edge.Some? ==> user.referredBy == Some(old(db.referrals)[edge.value].referrerId))
      && (!eligible ==> user.referredBy == old(user.referredBy))
  {
    referralApplied := false;
    if CanApplyReferral(user.referredBy, refCode, user.tgUserId) {
      var referrerExists := db.ExistsByTgUserId(refCode.value);
      if referrerExists {
        var createdReferral := db.CreatePendingReferral(refCode.value, user.tgUserId, now);
        if createdReferral {
          user.referredBy := refCode;
          referralApplied := true;
        } else {
          var existingReferral := db.GetReferralByReferralId(user.tgUserId);
          if existingReferral.Some? {
            user.referredBy := Some(existingReferral.value.referrerId);
          }
        }
      }
    }
  }

  /** The steps of the `/start` transaction on plain values: `grown` is the
      users table after the insert-or-ignore, `row0` the loaded row with the
      profile refreshed, `row` and `refs` the row and the edges after the
      link step, and `users` the table once the row is saved. */
  lemma StartSteps(users0: seq<User>, refs0: seq<Referral>, grown: seq<User>, refs: seq<Referral>, users: seq<User>,
                   telegramUser: TelegramUser, code: Option<int>, now: int, created: bool, referralApplied: bool,
                   row0: User, row: User)
    requires SchemaValid(users0, refs0) && ParticipantsEligible(users0) && CountersMatchEdges(users0, refs0)
    requires created <==> telegramUser.id !in UserIds(users0)
    requires grown == if created then users0 + [RowBeforeStart(users0, telegramUser)] else users0
    requires UniqueTgUserIds(grown) && telegramUser.id in UserIds(grown)
    requires row0 == RowOf(grown, telegramUser.id).(username := telegramUser.username, firstName := Some(telegramUser.firstName),
                                                    lastName := telegramUser.lastName)
    requires row == row0.(referredBy := row.referredBy)
    requires var eligible := CanApplyReferral(row0.referredBy, code, telegramUser.id) && code.value in UserIds(grown);
      var edge := FindReferral(refs0, telegramUser.id);
      && (referralApplied <==> eligible && edge.None?)
      && (refs == if referralApplied then refs0 + [Referral(code.value, telegramUser.id, Pending, None, now)] else refs0)
      && (referralApplied ==> row.referredBy == code)
      && (eligible && edge.Some? ==> row.referredBy == Some(refs0[edge.value].referrerId))
      && (!eligible ==> row.referredBy == row0.referredBy)
    requires users == grown[FindUser(grown, telegramUser.id).value := row]
    ensures ParticipantsEligible(users) && CountersMatchEdges(users, refs)
    ensures telegramUser.id in UserIds(users)
    ensures var k := FindUser(grown, telegramUser.id).value;
      && |users| == |grown|
      && users == grown[k := users[k]]
      && users[k] == grown[k].(username := telegramUser.username, firstName := Some(telegramUser.firstName),
                               lastName := telegramUser.lastName, referredBy := users[k].referredBy)
    ensures var before := RowBeforeStart(users0, telegramUser);
      var eligible := CanApplyReferral(before.referredBy, code, telegramUser.id) && code.value in UserIds(users0);
      var after := RowOf(users, telegramUser.id);
      var edge := FindReferral(refs0, telegramUser.id);
      && (referralApplied <==> eligible && edge.None?)
      && (refs == if referralApplied then refs0 + [Referral(code.value, telegramUser.id, Pending, None, now)] else refs0)
      && (referralApplied ==> after.referredBy == code)
      && (eligible && edge.Some? ==> after.referredBy == Some(refs0[edge.value].referrerId))
      && (!eligible ==> after.referredBy == before.referredBy)
  {
    var before := RowBeforeStart(users0, telegramUser);
    var k := FindUser(grown, telegramUser.id).value;
    InsertOrIgnore(users0, refs0, grown, telegramUser, created);
    if referralApplied {
      PendingEdgeKeepsCounters(grown, refs0, Referral(code.value, telegramUser.id, Pending, None, now));
    }
    RowUpdateKeepsInvariants(grown, refs, k, row);
    UserIdsUpdate(grown, k, row);
    assert UniqueTgUserIds(users) by {
      assert forall i :: 0 <= i < |users| ==> users[i].tgUserId == grown[i].tgUserId;
    }
    FindUserUnique(users, k);
    assert RowOf(users, telegramUser.id) == row;
  }

  /** The steps of `/start` keep `referred_by` mirroring the user's edge: a
      new row has neither, an inserted edge is the one `referred_by` now
      names, and a user who already had a referrer is left alone. */
  lemma StartKeepsMirror(users0: seq<User>, refs0: seq<Referral>, grown: seq<User>, refs: seq<Referral>, users: seq<User>,
                         telegramUser: TelegramUser, code: Option<int>, now: int, created: bool, referralApplied: bool,
                         row0: User, row: User)
    requires SchemaValid(users0, refs0) && ReferrersMirrored(users0, refs0)
    requires created <==> telegramUser.id !in UserIds(users0)
    requires grown == if created then users0 + [RowBeforeStart(users0, telegramUser)] else users0
    requires UniqueTgUserIds(grown) && telegramUser.id in UserIds(grown)
    requires row0 == RowOf(grown, telegramUser.id).(username := telegramUser.username, firstName := Some(telegramUser.firstName),
                                                    lastName := telegramUser.lastName)
    requires row == row0.(referredBy := row.referredBy)
    requires var eligible := CanApplyReferral(row0.referredBy, code, telegramUser.id) && code.value in UserIds(grown);
      var edge := FindReferral(refs0, telegramUser.id);
      && (referralApplied <==> eligible && edge.None?)
      && (refs == if referralApplied then refs0 + [Referral(code.value, telegramUser.id, Pending, None, now)] else refs0)
      && (referralApplied ==> row.referredBy == code)
      && (!eligible ==> row.referredBy == row0.referredBy)
    requires users == grown[FindUser(grown, telegramUser.id).value := row]
    ensures ReferrersMirrored(users, refs)
  {
    var k := FindUser(grown, telegramUser.id).value;
    if created {
      MirrorNewRow(users0, refs0, RowBeforeStart(users0, telegramUser));
    }
    if referralApplied {
      MirrorNewEdge(grown, refs0, k, row, Referral(code.value, telegramUser.id, Pending, None, now));
    } else {
      if CanApplyReferral(row0.referredBy, code, telegramUser.id) {
        NoReferrerNoEdge(grown, refs0, telegramUser.id);
      }
      MirrorRowUpdate(grown, refs0, k, row);
    }
  }

  /** In a consistent store a user whose code may be applied has no edge
      yet: a new user cannot be named by one, and an existing user without
      `referred_by` has none. */
  lemma EligibleUserHasNoEdge(users0: seq<User>, refs0: seq<Referral>, telegramUser: TelegramUser, code: Option<int>)
    requires SchemaValid(users0, refs0) && ReferrersMirrored(users0, refs0)
    ensures CanApplyReferral(RowBeforeStart(users0, telegramUser).referredBy, code, telegramUser.id)
            ==> FindReferral(refs0, telegramUser.id).None?
  {
    if telegramUser.id in UserIds(users0) {
      if RowOf(users0, telegramUser.id).referredBy.None? {
        NoReferrerNoEdge(users0, refs0, telegramUser.id);
      }
    }
  }

  /** The insert-or-ignore of `/start`: the user's row is the existing one or
      the defaults, no other id appears, and both invariants still hold. */
  lemma InsertOrIgnore(users0: seq<User>, refs0: seq<Referral>, grown: seq<User>, telegramUser: TelegramUser, created: bool)
    requires SchemaValid(users0, refs0) && ParticipantsEligible(users0) && CountersMatchEdges(users0, refs0)
    requires created <==> telegramUser.id !in UserIds(users0)
    requires grown == if created then users0 + [RowBeforeStart(users0, telegramUser)] else users0
    requires UniqueTgUserIds(grown)
    ensures ParticipantsEligible(grown) && CountersMatchEdges(grown, refs0)
    ensures telegramUser.id in UserIds(grown) && RowOf(grown, telegramUser.id) == RowBeforeStart(users0, telegramUser)
    ensures forall x :: x != telegramUser.id ==> (x in UserIds(grown) <==> x in UserIds(users0))
  {
    var before := RowBeforeStart(users0, telegramUser);
    UserIdsAppend(users0, before);
    if created {
      NewRowKeepsInvariants(users0, refs0, before);
      FindUserUnique(grown, |grown| - 1);
    }
  }

  /** The whole `/start` transaction. */
  method ProcessStartCommand(db: Database, telegramUser: TelegramUser, startArgument: Option<string>, now: int)
    returns (result: StartProcessingResult)
    requires db.Consistent()
    modifies db
    ensures db.Consistent()
    ensures result.tgUserId == telegramUser.id
    ensures result.created <==> telegramUser.id !in UserIds(old(db.users))
    ensures telegramUser.id in UserIds(db.users)
    ensures result.created ==> telegramUser.id in UserIds(old(db.users) + [RowBeforeStart(old(db.users), telegramUser)])
    // the users table: at most one row added, and only this user's row changed
    ensures var grown := if result.created then old(db.users) + [RowBeforeStart(old(db.users), telegramUser)] else old(db.users);
      var k := FindUser(grown, telegramUser.id).value;
      && |db.users| == |grown|
      && db.users == grown[k := db.users[k]]
      && db.users[k] == grown[k].(username := telegramUser.username, firstName := Some(telegramUser.firstName),
                                   lastName := telegramUser.lastName, referredBy := db.users[k].referredBy)
    // the link
    ensures var before := RowBeforeStart(old(db.users), telegramUser);
      var code := ParseRefCode(startArgument);
      var eligible := CanApplyReferral(before.referredBy, code, telegramUser.id) && code.value in UserIds(old(db.users));
      var after := RowOf(db.users, telegramUser.id);
      var edge := FindReferral(old(db.referrals), telegramUser.id);
      && (eligible ==> edge.None?)
      && (result.referralApplied <==> eligible)
      && (db.referrals == if result.referralApplied
                          then old(db.referrals) + [Referral(code.value, telegramUser.id, Pending, None, now)]
                          else old(db.referrals))
      && (result.referralApplied ==> after.referredBy == code)
      && (!eligible ==> after.referredBy == before.referredBy)
  {
    ghost var users0, refs0 := db.users, db.referrals;
    var code := ParseRefCode(startArgument);
    var user, created := db.GetOrCreateForUpdate(telegramUser.id, telegramUser.username, Some(telegramUser.firstName), telegramUser.lastName);
    ghost var grown := db.users;
    ghost var row0 := user.Row();
    assert RowOf(grown, telegramUser.id) == db.GetByTgUserId(telegramUser.id).value;
    var referralApplied := LinkReferrer(db, user, code, now);
    ghost var refs := db.referrals;
    ghost var row := user.Row();
    db.Save(user);
    StartSteps(users0, refs0, grown, refs, db.users, telegramUser, code, now, created, referralApplied, row0, row);
    StartKeepsMirror(users0, refs0, grown, refs, db.users, telegramUser, code, now, created, referralApplied, row0, row);
    EligibleUserHasNoEdge(users0, refs0, telegramUser, code);
    result := StartProcessingResult(telegramUser.id, created, referralApplied);
  }
}
