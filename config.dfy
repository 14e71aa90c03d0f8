/** The validators of the environment settings: the admin list, the channel
    id and the webhook mode. */
module Config {
  import opened Common

  const ADMIN_IDS_EMPTY: string := "ADMIN_IDS must contain at least one Telegram user ID"
  const ADMIN_IDS_TYPE: string := "ADMIN_IDS must be a comma-separated string or a sequence"
  /** The `ValueError` that `int()` raises on an item that is not a number. */
  const ADMIN_ID_INVALID: string := "invalid literal for int()"
  const CHANNEL_ID_FORMAT: string := "CHANNEL_ID must be in format -100xxxxxxxxxx"
  const WEBHOOK_URL_REQUIRED: string := "WEBHOOK_URL is required when SKIP_WEBHOOK_SETUP=false"
  const CHANNEL_ID_PREFIX: string := "-100"

  /** One element of a list or tuple of ids. */
  datatype Item = IntItem(i: int) | StrItem(s: string)

  /** The raw `ADMIN_IDS` value, by its Python type. */
  datatype AdminIdsInput =
    | Text(text: string)
    | Number(n: int)
    | Items(items: seq<Item>)
    | OtherValue

  /** The comprehension over the comma-separated pieces: each stripped, the
      blank ones dropped, the order kept. */
  function CleanedItems(parts: seq<string>): (cleaned: seq<string>)
    ensures |cleaned| <= |parts|
    ensures forall k :: 0 <= k < |cleaned| ==> |cleaned[k]| > 0
  {
    if |parts| == 0 then []
    else
      var t := Trim(parts[0]);
      var rest := CleanedItems(parts[1..]);
      if |t| == 0 then rest else [t] + rest
  }

  /** Every piece kept is already stripped: whitespace at neither end. */
  lemma {:induction false} CleanedItemIsStripped(parts: seq<string>, k: nat)
    requires k < |CleanedItems(parts)|
    ensures IsStripped(CleanedItems(parts)[k])
    decreases parts
  {
    var t := Trim(parts[0]);
    var rest := CleanedItems(parts[1..]);
    if |t| == 0 {
      assert CleanedItems(parts) == rest;
      CleanedItemIsStripped(parts[1..], k);
    } else {
      assert CleanedItems(parts) == [t] + rest;
      if k > 0 {
        assert CleanedItems(parts)[k] == rest[k - 1];
        CleanedItemIsStripped(parts[1..], k - 1);
      } else {
        assert CleanedItems(parts)[0] == t;
      }
    }
  }

  /** `int(item)`: a number as it is, a string after stripping it. */
  function ParseItem(item: Item): (r: Option<int>)
    ensures item.IntItem? ==> r == Some(item.i)
    ensures item.StrItem? ==> r == ParseInt(Trim(item.s))
  {
    match item
    case IntItem(i) => Some(i)
    case StrItem(s) => ParseInt(Trim(s))
  }

  /** `tuple(int(item) for item in items)`: every item parsed in order, or
      nothing as soon as one fails. */
  function ParseItems(items: seq<Item>): (r: Option<seq<int>>)
    ensures r.Some? <==> forall k :: 0 <= k < |items| ==> ParseItem(items[k]).Some?
    ensures r.Some? ==> |r.value| == |items| && forall k :: 0 <= k < |items| ==> Some(r.value[k]) == ParseItem(items[k])
  {
    if items == [] then Some([])
    else
      match (ParseItem(items[0]), ParseItems(items[1..]))
      case (Some(i), Some(rest)) => Some([i] + rest)
      case (None, _) => None
      case (Some(_), None) =>
        assert forall k :: 1 <= k < |items| ==> items[k] == items[1..][k - 1];
        None
  }

  function AsStrItems(texts: seq<string>): (items: seq<Item>)
    ensures |items| == |texts| && forall k :: 0 <= k < |texts| ==> items[k] == StrItem(texts[k])
  {
    seq(|texts|, k requires 0 <= k < |texts| => StrItem(texts[k]))
  }

  /** `parse_admin_ids`. */
  function ParseAdminIds(value: AdminIdsInput): (r: Result<seq<int>, string>)
    ensures r.Success? ==> |r.value| >= 1
    ensures value.Number? ==> r == Success([value.n])
    ensures value.OtherValue? ==> r == Failure(ADMIN_IDS_TYPE)
    ensures value.Items? ==>
      (r.Success? <==> |value.items| >= 1 && forall k :: 0 <= k < |value.items| ==> ParseItem(value.items[k]).Some?)
    ensures value.Items? && r.Success? ==>
      |r.value| == |value.items| && forall k :: 0 <= k < |value.items| ==> Some(r.value[k]) == ParseItem(value.items[k])
  {
    match value
    case Text(text) =>
      var cleaned := CleanedItems(Split(text, ','));
      if cleaned == [] then Failure(ADMIN_IDS_EMPTY)
      else
        (match ParseItems(AsStrItems(cleaned))
         case Some(ids) => Success(ids)
         case None => Failure(ADMIN_ID_INVALID))
    case Number(n) => Success([n])
    case Items(items) =>
      (match ParseItems(items)
       case None => Failure(ADMIN_ID_INVALID)
       case Some(parsed) => if parsed == [] then Failure(ADMIN_IDS_EMPTY) else Success(parsed))
    case OtherValue => Failure(ADMIN_IDS_TYPE)
  }

  /** `str(i)` for each id. */
  function IntTexts(ids: seq<int>): (texts: seq<string>)
    ensures |texts| == |ids| && forall k :: 0 <= k < |ids| ==> texts[k] == IntToString(ids[k])
  {
    seq(|ids|, k requires 0 <= k < |ids| => IntToString(ids[k]))
  }

  /** The text `",".join(str(i) for i in ids)`. */
  function IdsText(ids: seq<int>): string {
    Join(IntTexts(ids), ',')
  }

  lemma IntTextIsTrimmed(i: int)
    ensures ',' !in IntToString(i) && IsStripped(IntToString(i))
    ensures Trim(IntToString(i)) == IntToString(i)
  {
    var s := IntToString(i);
    assert !IsWhitespace(s[0]) && !IsWhitespace(s[|s| - 1]);
    TrimOfUntrimmed(s);
  }

  lemma {:induction false} CleanedOfTrimmed(parts: seq<string>)
    requires forall k :: 0 <= k < |parts| ==> IsStripped(parts[k])
    ensures CleanedItems(parts) == parts
  {
    if parts != [] {
      TrimOfUntrimmed(parts[0]);
      CleanedOfTrimmed(parts[1..]);
      assert parts == [parts[0]] + parts[1..];
    }
  }

  /** Writing the ids comma-separated and parsing the text gives the same ids
      in the same order. */
  lemma ParseAdminIdsRoundTrip(ids: seq<int>)
    requires |ids| >= 1
    ensures ParseAdminIds(Text(IdsText(ids))) == Success(ids)
  {
    var texts := IntTexts(ids);
    forall k | 0 <= k < |ids|
      ensures ',' !in texts[k] && IsStripped(texts[k])
    {
      IntTextIsTrimmed(ids[k]);
    }
    SplitJoin(texts, ',');
    CleanedOfTrimmed(texts);
    ParseIntTexts(ids);
  }

  lemma ParseIntTexts(ids: seq<int>)
    ensures ParseItems(AsStrItems(IntTexts(ids))) == Some(ids)
  {
    var items := AsStrItems(IntTexts(ids));
    forall k | 0 <= k < |ids|
      ensures ParseItem(items[k]) == Some(ids[k])
    {
      IntTextIsTrimmed(ids[k]);
      ParseIntOfIntToString(ids[k]);
    }
    var r := ParseItems(items);
    assert r.Some?;
    assert r.value == ids;
  }

  lemma {:induction false} CleanedOfBlank(parts: seq<string>)
    requires forall i, k :: 0 <= i < |parts| && 0 <= k < |parts[i]| ==> IsWhitespace(parts[i][k])
    ensures CleanedItems(parts) == []
  {
    if parts != [] {
      var t := Trim(parts[0]);
      assert t == [];
      CleanedOfBlank(parts[1..]);
    }
  }

  /** A text of nothing but commas and whitespace is rejected as an empty
      admin list. */
  lemma BlankListRejected(text: string)
    requires forall k :: 0 <= k < |text| ==> text[k] == ',' || IsWhitespace(text[k])
    ensures ParseAdminIds(Text(text)) == Failure(ADMIN_IDS_EMPTY)
  {
    SplitPartsOf(text, ',');
    CleanedOfBlank(Split(text, ','));
  }

  /** `validate_channel_id`: the decimal text must start with "-100". */
  function ValidateChannelId(value: int): (r: Result<int, string>)
    ensures r.Success? <==> StartsWith(IntToString(value), CHANNEL_ID_PREFIX)
    ensures r.Success? ==> r.value == value
  {
    if StartsWith(IntToString(value), CHANNEL_ID_PREFIX) then Success(value) else Failure(CHANNEL_ID_FORMAT)
  }

  /** Only negative ids pass, and among them only those whose digits start
      with "100". */
  lemma AcceptedChannelIdIsNegative(value: int)
    requires ValidateChannelId(value).Success?
    ensures value < 0 && NatToString(-value)[..3] == "100"
  {
    var s := IntToString(value);
    assert s[0] == s[..4][0] == '-';
    assert s[1..4] == s[..4][1..];
  }

  /** `validate_webhook_url`: webhook mode needs a URL. */
  function ValidateWebhookUrl(skipWebhookSetup: bool, webhookUrl: Option<string>): (r: Result<(), string>)
    ensures r.Success? <==> skipWebhookSetup || Truthy(webhookUrl)
    ensures r.Failure? ==> r.error == WEBHOOK_URL_REQUIRED
  {
    if !skipWebhookSetup && !Truthy(webhookUrl) then Failure(WEBHOOK_URL_REQUIRED) else Success(())
  }

  /** The settings fields these validators concern, as the environment gives them. */
  datatype RawSettings = RawSettings(
    channelId: int,
    webhookUrl: Option<string>,
    adminIds: AdminIdsInput,
    skipWebhookSetup: bool,
    botUsername: Option<string>,
    channelUrl: Option<string>)

  datatype Settings = Settings(
    channelId: int,
    webhookUrl: Option<string>,
    adminIds: seq<int>,
    skipWebhookSetup: bool,
    botUsername: Option<string>,
    channelUrl: Option<string>)

  /** Loading the settings: the field validators, then the check over the
      whole model. Loaded settings have at least one admin, a channel id of
      the "-100" form, and a webhook URL unless webhook setup is skipped. */
  function LoadSettings(raw: RawSettings): (r: Result<Settings, string>)
    ensures r.Success? <==> ParseAdminIds(raw.adminIds).Success? && ValidateChannelId(raw.channelId).Success?
                            && (raw.skipWebhookSetup || Truthy(raw.webhookUrl))
    ensures r.Success? ==> && r.value.adminIds == ParseAdminIds(raw.adminIds).value
                           && |r.value.adminIds| >= 1
                           && StartsWith(IntToString(r.value.channelId), CHANNEL_ID_PREFIX)
                           && (!r.value.skipWebhookSetup ==> Truthy(r.value.webhookUrl))
  {
    match (ParseAdminIds(raw.adminIds), ValidateChannelId(raw.channelId))
    case (Failure(e), _) => Failure(e)
    case (_, Failure(e)) => Failure(e)
    case (Success(ids), Success(channelId)) =>
      var settings := Settings(channelId, raw.webhookUrl, ids, raw.skipWebhookSetup, raw.botUsername, raw.channelUrl);
      match ValidateWebhookUrl(settings.skipWebhookSetup, settings.webhookUrl)
      case Failure(e) => Failure(e)
      case Success(_) => Success(settings)
  }
}
