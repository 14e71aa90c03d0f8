/** The services behind the admin commands: the statistics and their message,
    and the broadcast to every user. */
module AdminService {
  import opened Common
  import opened Models
  import opened Repositories
  import TelegramRetry

  datatype AdminStats = AdminStats(
    totalUsers: nat,
    totalSubscribed: nat,
    totalParticipants: nat,
    totalConfirmedReferrals: nat)

  datatype BroadcastResult = BroadcastResult(delivered: nat, failed: nat)

  /** `collect_admin_stats`: the user counts from `users`, the confirmed
      referrals counted in `referrals` rather than summed from the counters. */
  function CollectAdminStats(db: Database): (s: AdminStats)
    reads db
    ensures s.totalUsers == |db.users| && s.totalConfirmedReferrals == ConfirmedCount(db.referrals)
    ensures s.totalSubscribed == CountSubscribed(db.users) && s.totalParticipants == CountParticipants(db.users)
    ensures s.totalSubscribed <= s.totalUsers && s.totalParticipants <= s.totalUsers
    ensures s.totalConfirmedReferrals <= |db.referrals|
    ensures db.Consistent() ==> s.totalParticipants <= s.totalSubscribed
    ensures db.Consistent() ==> s.totalConfirmedReferrals == SumCounters(db.users)
  {
    var basic := db.FetchBasicStats();
    AdminStats(basic.totalUsers, basic.totalSubscribed, basic.totalParticipants, db.CountConfirmedReferrals())
  }

  // ---------------------------------------------------------------------
  // The statistics message

  const STATS_HEADER: string := "Giveaway Stats"
  const TOTAL_USERS_LABEL: string := "Total users: "
  const SUBSCRIBED_LABEL: string := "Subscribed users: "
  const PARTICIPANTS_LABEL: string := "Participants: "
  const CONFIRMED_LABEL: string := "Confirmed referrals: "

  /** A caption followed by a number. */
  function LabelledLine(caption: string, n: nat): (line: string)
    ensures |line| == |caption| + |NatToString(n)|
    ensures line[..|caption|] == caption && line[|caption|..] == NatToString(n)
  {
    caption + NatToString(n)
  }

  /** The lines of the message, in their fixed order. */
  function StatsLines(stats: AdminStats): (lines: seq<string>)
    ensures |lines| == 5 && lines[0] == STATS_HEADER
  {
    [STATS_HEADER,
     LabelledLine(TOTAL_USERS_LABEL, stats.totalUsers),
     LabelledLine(SUBSCRIBED_LABEL, stats.totalSubscribed),
     LabelledLine(PARTICIPANTS_LABEL, stats.totalParticipants),
     LabelledLine(CONFIRMED_LABEL, stats.totalConfirmedReferrals)]
  }

  /** Reads the number after `caption`, if the line is exactly that. */
  function ReadLabelled(line: string, caption: string): (n: Option<nat>)
  {
    if |line| >= |caption| && line[..|caption|] == caption && IsDigitString(line[|caption|..]) then
      Some(DigitsValue(line[|caption|..]))
    else None
  }

  /** Reads the four counts back from a statistics message. */
  function ParseStatsMessage(m: string): (stats: Option<AdminStats>)
  {
    var lines := Split(m, '\n');
    if |lines| != 5 || lines[0] != STATS_HEADER then None
    else
      match (ReadLabelled(lines[1], TOTAL_USERS_LABEL), ReadLabelled(lines[2], SUBSCRIBED_LABEL),
             ReadLabelled(lines[3], PARTICIPANTS_LABEL), ReadLabelled(lines[4], CONFIRMED_LABEL))
      case (Some(u), Some(s), Some(p), Some(c)) => Some(AdminStats(u, s, p, c))
      case _ => None
  }

  lemma ReadLabelledLine(caption: string, n: nat)
    ensures ReadLabelled(LabelledLine(caption, n), caption) == Some(n)
  {
    DigitsOfNatToString(n);
  }

  lemma NoNewlineInLine(caption: string, n: nat)
    requires '\n' !in caption
    ensures '\n' !in LabelledLine(caption, n)
  {
    var line := LabelledLine(caption, n);
    var digits := NatToString(n);
    forall k | 0 <= k < |line|
      ensures line[k] != '\n'
    {
      if k >= |caption| {
        assert line[k] == digits[k - |caption|];
      } else {
        assert line[k] == caption[k];
      }
    }
  }

  /** `format_stats_message`: the header and the four labelled counts, one
      per line in a fixed order, from which the counts can be read back. */
  function FormatStatsMessage(stats: AdminStats): (m: string)
    ensures Split(m, '\n') == StatsLines(stats)
    ensures ParseStatsMessage(m) == Some(stats)
  {
    var lines := StatsLines(stats);
    NoNewlineInLine(TOTAL_USERS_LABEL, stats.totalUsers);
    NoNewlineInLine(SUBSCRIBED_LABEL, stats.totalSubscribed);
    NoNewlineInLine(PARTICIPANTS_LABEL, stats.totalParticipants);
    NoNewlineInLine(CONFIRMED_LABEL, stats.totalConfirmedReferrals);
    SplitJoin(lines, '\n');
    ReadLabelledLine(TOTAL_USERS_LABEL, stats.totalUsers);
    ReadLabelledLine(SUBSCRIBED_LABEL, stats.totalSubscribed);
    ReadLabelledLine(PARTICIPANTS_LABEL, stats.totalParticipants);
    ReadLabelledLine(CONFIRMED_LABEL, stats.totalConfirmedReferrals);
    Join(lines, '\n')
  }

  /** Two different statistics never give the same message. */
  lemma FormatStatsMessageInjective(a: AdminStats, b: AdminStats)
    requires FormatStatsMessage(a) == FormatStatsMessage(b)
    ensures a == b
  {
  }

  /** `s` occurs in `m` starting at position `k`. */
  predicate OccursAt(m: string, s: string, k: nat) {
    k + |s| <= |m| && m[k..k + |s|] == s
  }

  /** `s in m` for strings. */
  ghost predicate Contains(m: string, s: string) {
    exists k: nat :: OccursAt(m, s, k)
  }

  lemma {:induction false} JoinContainsPart(parts: seq<string>, sep: char, i: nat)
    requires i < |parts|
    ensures Contains(Join(parts, sep), parts[i])
  {
    var s := Join(parts, sep);
    if |parts| == 1 {
      assert s[0..|parts[0]|] == parts[0];
      assert OccursAt(s, parts[i], 0);
    } else if i == 0 {
      assert s[0..|parts[0]|] == parts[0];
      assert OccursAt(s, parts[i], 0);
    } else {
      JoinContainsPart(parts[1..], sep, i - 1);
      var tail := Join(parts[1..], sep);
      var k: nat :| OccursAt(tail, parts[i], k);
      var off := |parts[0]| + 1;
      assert s == parts[0] + [sep] + tail;
      assert s[off + k..off + k + |parts[i]|] == tail[k..k + |parts[i]|];
      assert OccursAt(s, parts[i], off + k);
    }
  }

  /** The message contains each labelled count. */
  lemma StatsMessageContainsCounts(stats: AdminStats)
    ensures var m := FormatStatsMessage(stats);
      && Contains(m, TOTAL_USERS_LABEL + NatToString(stats.totalUsers))
      && Contains(m, SUBSCRIBED_LABEL + NatToString(stats.totalSubscribed))
      && Contains(m, PARTICIPANTS_LABEL + NatToString(stats.totalParticipants))
      && Contains(m, CONFIRMED_LABEL + NatToString(stats.totalConfirmedReferrals))
  {
    var lines := StatsLines(stats);
    JoinContainsPart(lines, '\n', 1);
    JoinContainsPart(lines, '\n', 2);
    JoinContainsPart(lines, '\n', 3);
    JoinContainsPart(lines, '\n', 4);
  }

  // ---------------------------------------------------------------------
  // Broadcast

  /** What `send_message` to a chat does on each of its calls. */
  type SendScript = nat -> TelegramRetry.CallOutcome<()>

  /** One message delivered with the default retry policy of three attempts:
      some attempt succeeds and every attempt before it failed with an error
      that is retried. */
  predicate DeliveredTo(script: SendScript) {
    || script(1).Returned?
    || (TelegramRetry.Retryable(script(1)) && script(2).Returned?)
    || (TelegramRetry.Retryable(script(1)) && TelegramRetry.Retryable(script(2)) && script(3).Returned?)
  }

  /** The closed form is what the retry loop does with its defaults. */
  lemma DeliveredToMeansRetrySucceeds(script: SendScript)
    ensures DeliveredTo(script) <==>
      TelegramRetry.Retry(script, 1, TelegramRetry.DEFAULT_ATTEMPTS, TelegramRetry.DEFAULT_BASE_DELAY_SECONDS).0.Value?
  {
    var attempts := TelegramRetry.DEFAULT_ATTEMPTS;
    var base := TelegramRetry.DEFAULT_BASE_DELAY_SECONDS;
    var third := TelegramRetry.Retry(script, 3, attempts, base);
    assert third.0.Value? <==> script(3).Returned?;
    var second := TelegramRetry.Retry(script, 2, attempts, base);
    assert second.0.Value? <==> script(2).Returned? || (TelegramRetry.Retryable(script(2)) && third.0.Value?);
  }

  /** How many of `ids` are delivered. */
  function DeliveredCount(ids: seq<int>, sends: int -> SendScript): (n: nat)
    ensures n <= |ids|
  {
    if ids == [] then 0
    else DeliveredCount(ids[..|ids| - 1], sends) + (if DeliveredTo(sends(ids[|ids| - 1])) then 1 else 0)
  }

  /** The counts a broadcast to `ids` ends with: every id is either
      delivered or failed. */
  function Tally(ids: seq<int>, sends: int -> SendScript): (r: BroadcastResult)
    ensures r.delivered == DeliveredCount(ids, sends)
    ensures r.delivered + r.failed == |ids|
  {
    BroadcastResult(DeliveredCount(ids, sends), |ids| - DeliveredCount(ids, sends))
  }

  /** `broadcast_to_all_users`: one send with retries to every id, in the
      order fetched; `sends(id)` says what the API does for that chat, and
      `recipients` lists the chats sent to. */
  method BroadcastToAllUsers(tgUserIds: seq<int>, sends: int -> SendScript) returns (result: BroadcastResult, recipients: seq<int>)
    ensures recipients == tgUserIds
    ensures result == Tally(recipients, sends)
  {
    var delivered: nat := 0;
    var failed: nat := 0;
    recipients := [];
    var i := 0;
    while i < |tgUserIds|
      invariant 0 <= i <= |tgUserIds|
      invariant recipients == tgUserIds[..i]
      invariant delivered == DeliveredCount(recipients, sends)
      invariant delivered + failed == i
    {
      var tgUserId := tgUserIds[i];
      var outcome, _, _ := TelegramRetry.RunWithRetry(sends(tgUserId), TelegramRetry.DEFAULT_ATTEMPTS,
                                                      TelegramRetry.DEFAULT_BASE_DELAY_SECONDS);
      DeliveredToMeansRetrySucceeds(sends(tgUserId));
      assert tgUserIds[..i + 1] == recipients + [tgUserId];
      assert (recipients + [tgUserId])[..i] == recipients;
      recipients := recipients + [tgUserId];
      if outcome.Value? {
        delivered := delivered + 1;
      } else {
        failed := failed + 1;
      }
      i := i + 1;
    }
    assert tgUserIds[..i] == tgUserIds;
    result := BroadcastResult(delivered, failed);
  }

  /** When every chat accepts the first send, everyone is reached. */
  lemma {:induction false} AllAcceptedAllDelivered(ids: seq<int>, sends: int -> SendScript)
    requires forall k :: 0 <= k < |ids| ==> sends(ids[k])(1).Returned?
    ensures DeliveredCount(ids, sends) == |ids|
  {
    if ids != [] {
      AllAcceptedAllDelivered(ids[..|ids| - 1], sends);
    }
  }

  /** When every chat refuses the first send (blocked bot, bad request),
      nobody is reached and nothing is retried. */
  lemma {:induction false} AllRefusedNoneDelivered(ids: seq<int>, sends: int -> SendScript)
    requires forall k :: 0 <= k < |ids| ==> sends(ids[k])(1).OtherError?
    ensures DeliveredCount(ids, sends) == 0
  {
    if ids != [] {
      AllRefusedNoneDelivered(ids[..|ids| - 1], sends);
    }
  }
}
