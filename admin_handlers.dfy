/** The admin commands `/stats`, `/export` and `/broadcast`, each behind the
    admin check. */
module AdminHandlers {
  import opened Common
  import opened Repositories
  import opened AdminService
  import opened Config

  /** `is_admin_user`. */
  predicate IsAdminUser(userId: Option<int>, adminIds: seq<int>) {
    userId.Some? && userId.value in adminIds
  }

  /** The check holds exactly for a present id that occurs in the list. */
  lemma IsAdminUserMeans(userId: Option<int>, adminIds: seq<int>)
    ensures IsAdminUser(userId, adminIds) <==> exists k :: 0 <= k < |adminIds| && userId == Some(adminIds[k])
    ensures userId.None? ==> !IsAdminUser(userId, adminIds)
  {
  }

  /** With the admin list loaded from comma-separated text, exactly the
      listed ids are admins. */
  lemma ListedIdsAreAdmins(ids: seq<int>, userId: int)
    requires |ids| >= 1
    ensures ParseAdminIds(Text(IdsText(ids))).Success?
    ensures IsAdminUser(Some(userId), ParseAdminIds(Text(IdsText(ids))).value) <==> userId in ids
  {
    ParseAdminIdsRoundTrip(ids);
  }

  /** The text after the command: the message stripped, cut after its first
      space, and stripped again. */
  function ExtractBroadcastPayload(text: Option<string>): (payload: string)
    ensures payload == [] || IsStripped(payload)
    ensures text.None? || ' ' !in Trim(text.value) ==> payload == []
  {
    var message := if text.Some? then text.value else [];
    Trim(AfterFirst(Trim(message), ' '))
  }

  lemma {:induction false} AfterFirstOfCommand(command: string, rest: string)
    requires ' ' !in command
    ensures AfterFirst(command + " " + rest, ' ') == rest
  {
    if command != [] {
      var s := command + " " + rest;
      assert s[0] == command[0] && s[1..] == command[1..] + " " + rest;
      AfterFirstOfCommand(command[1..], rest);
    }
  }

  /** `/broadcast <text>` broadcasts the text, stripped: the command is a
      word without whitespace, and the message does not end in whitespace. */
  lemma PayloadOfCommand(command: string, body: string)
    requires command != [] && forall k :: 0 <= k < |command| ==> !IsWhitespace(command[k])
    requires body != [] && !IsWhitespace(body[|body| - 1])
    ensures ExtractBroadcastPayload(Some(command + " " + body)) == Trim(body)
  {
    var s := command + " " + body;
    assert s[0] == command[0] && s[|s| - 1] == body[|body| - 1];
    TrimOfUntrimmed(s);
    assert ' ' !in command by {
      assert forall k :: 0 <= k < |command| ==> command[k] != ' ';
    }
    AfterFirstOfCommand(command, body);
  }

  datatype AdminReply =
    | NotAdmin
    | StatsMessage(text: string)
    /** The CSV file of every user; its contents are not part of this model. */
    | ExportDocument
    | BroadcastUsage
    | BroadcastDone(payload: string, result: BroadcastResult)

  /** `/stats`: the statistics message, for an admin only. */
  method HandleStats(db: Database, adminIds: seq<int>, fromUserId: Option<int>) returns (reply: AdminReply)
    ensures reply.NotAdmin? <==> !IsAdminUser(fromUserId, adminIds)
    ensures !reply.NotAdmin? ==> reply == StatsMessage(FormatStatsMessage(CollectAdminStats(db)))
  {
    if !IsAdminUser(fromUserId, adminIds) {
      return NotAdmin;
    }
    var stats := CollectAdminStats(db);
    reply := StatsMessage(FormatStatsMessage(stats));
  }

  /** `/export`: the export file, for an admin only. */
  method HandleExport(adminIds: seq<int>, fromUserId: Option<int>) returns (reply: AdminReply)
    ensures reply.NotAdmin? <==> !IsAdminUser(fromUserId, adminIds)
    ensures !reply.NotAdmin? ==> reply == ExportDocument
  {
    if !IsAdminUser(fromUserId, adminIds) {
      return NotAdmin;
    }
    reply := ExportDocument;
  }

  /** What `/broadcast` does before any message goes out. */
  datatype BroadcastPlan = Reject | Usage | Send(payload: string)

  /** The admin check first, then the payload: a message only when an admin
      gave a non-empty text. */
  function PlanBroadcast(adminIds: seq<int>, fromUserId: Option<int>, text: Option<string>): (plan: BroadcastPlan)
    ensures plan.Reject? <==> !IsAdminUser(fromUserId, adminIds)
    ensures plan.Usage? <==> IsAdminUser(fromUserId, adminIds) && ExtractBroadcastPayload(text) == []
    ensures plan.Send? ==> plan.payload == ExtractBroadcastPayload(text) && plan.payload != []
  {
    if !IsAdminUser(fromUserId, adminIds) then Reject
    else
      var payload := ExtractBroadcastPayload(text);
      if payload == [] then Usage else Send(payload)
  }

  /** The reply and the chats sent to, once the plan is made: every user
      for a message, nobody otherwise. */
  function BroadcastOutcome(plan: BroadcastPlan, tgUserIds: seq<int>, sends: int -> SendScript): (out: (AdminReply, seq<int>))
    ensures plan.Send? <==> out.0.BroadcastDone?
    ensures out.1 == if plan.Send? then tgUserIds else []
    ensures plan.Reject? <==> out.0.NotAdmin?
    ensures plan.Usage? <==> out.0.BroadcastUsage?
    ensures plan.Send? ==> out.0.payload == plan.payload && out.0.result == Tally(tgUserIds, sends)
  {
    match plan
    case Reject => (NotAdmin, [])
    case Usage => (BroadcastUsage, [])
    case Send(payload) => (BroadcastDone(payload, Tally(tgUserIds, sends)), tgUserIds)
  }

  /** `/broadcast <text>`. `sends` says what the API does for each chat;
      `recipients` lists the chats sent to. */
  method HandleBroadcast(db: Database, adminIds: seq<int>, fromUserId: Option<int>, text: Option<string>,
                         sends: int -> SendScript)
    returns (reply: AdminReply, recipients: seq<int>)
    ensures (reply, recipients) == BroadcastOutcome(PlanBroadcast(adminIds, fromUserId, text), db.FetchAllTgUserIds(), sends)
  {
    recipients := [];
    var plan := PlanBroadcast(adminIds, fromUserId, text);
    match plan
    case Reject =>
      reply := NotAdmin;
    case Usage =>
      reply := BroadcastUsage;
    case Send(payload) =>
      var result;
      result, recipients := BroadcastToAllUsers(db.FetchAllTgUserIds(), sends);
      reply := BroadcastDone(payload, result);
  }
}
