/** The participation rule: a subscribed user with enough confirmed referrals
    becomes a participant, once and for good. */
module Participation {
  import opened Common
  import opened Models

  /** What the rule does to a row: the row afterwards and whether the flag flipped. */
  function ParticipationRule(u: User): (User, bool) {
    if u.isParticipant then (u, false)
    else if u.isSubscribed && u.referralsConfirmed >= REFERRALS_REQUIRED_FOR_PARTICIPATION then
      (u.(isParticipant := true), true)
    else (u, false)
  }

  /** Applies the rule to a loaded user in place and reports whether it flipped the flag. */
  method MarkParticipantIfEligible(user: UserRecord) returns (changed: bool)
    modifies user
    ensures (user.Row(), changed) == ParticipationRule(old(user.Row()))
  {
    if user.isParticipant {
      return false;
    }
    if user.isSubscribed && user.referralsConfirmed >= REFERRALS_REQUIRED_FOR_PARTICIPATION {
      user.isParticipant := true;
      return true;
    }
    return false;
  }

  /** The rule reports a change exactly when the flag went from false to true;
      it never clears the flag and touches no other column. */
  lemma ParticipationRuleCharacterised(u: User)
    ensures var (after, changed) := ParticipationRule(u);
      && (changed <==> !u.isParticipant && after.isParticipant)
      && (changed <==> !u.isParticipant && u.isSubscribed && u.referralsConfirmed >= 1)
      && (u.isParticipant ==> after == u && !changed)
      && after == u.(isParticipant := u.isParticipant || changed)
  {
  }

  /** A second application changes nothing and reports no change. */
  lemma ParticipationRuleIdempotent(u: User)
    ensures var (once, _) := ParticipationRule(u);
      ParticipationRule(once) == (once, false)
  {
  }

  /** A row that is not subscribed, or has no confirmed referral, is left as it is. */
  lemma ParticipationNeedsBothConditions(u: User)
    requires !u.isSubscribed || u.referralsConfirmed == 0
    ensures ParticipationRule(u) == (u, false)
  {
  }

  /** The rule keeps "participant implies subscribed with a confirmed referral". */
  lemma ParticipationRuleKeepsEligibility(u: User)
    requires u.isParticipant ==> u.isSubscribed && u.referralsConfirmed >= REFERRALS_REQUIRED_FOR_PARTICIPATION
    ensures var (after, _) := ParticipationRule(u);
      after.isParticipant ==> after.isSubscribed && after.referralsConfirmed >= REFERRALS_REQUIRED_FOR_PARTICIPATION
  {
  }

  /** The three cases of the rule's unit tests, and its idempotence test, run on a record. */
  method ParticipationScenarios() returns (noSub: bool, noRefs: bool, both: bool, again: bool)
    ensures !noSub && !noRefs && both && !again
  {
    var u := new UserRecord.Load(User(1, None, None, None, false, None, 5, false, None, None, None));
    noSub := MarkParticipantIfEligible(u);
    assert !u.isParticipant;
    var v := new UserRecord.Load(User(1, None, None, None, true, None, 0, false, None, None, None));
    noRefs := MarkParticipantIfEligible(v);
    assert !v.isParticipant;
    var w := new UserRecord.Load(User(1, None, None, None, true, None, 1, false, None, None, None));
    both := MarkParticipantIfEligible(w);
    assert w.isParticipant;
    again := MarkParticipantIfEligible(w);
    assert w.isParticipant;
  }
}
