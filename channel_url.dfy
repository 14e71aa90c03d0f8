/** The public link to the channel the bot asks users to join. */
module ChannelUrl {
  import opened Common

  const PRIVATE_CHANNEL_PREFIX: string := "https://t.me/c/"
  const PUBLIC_CHANNEL_PREFIX: string := "https://t.me/"
  const SUPERGROUP_PREFIX: string := "-100"

  /** `str.lstrip(c)`: every leading `c` removed. */
  function StripLeading(s: string, c: char): (r: string)
    ensures |r| <= |s| && r == s[|s| - |r|..]
    ensures r == [] || r[0] != c
    ensures forall k :: 0 <= k < |s| - |r| ==> s[k] == c
  {
    if s != [] && s[0] == c then StripLeading(s[1..], c) else s
  }

  /** The part of the link after the prefix. */
  function ChannelSuffix(channelId: int): (suffix: string)
  {
    var channel := IntToString(channelId);
    if StartsWith(channel, SUPERGROUP_PREFIX) then channel[4..] else StripLeading(channel, '-')
  }

  /** `derive_channel_url`: the link to a private channel built from its id. */
  function DeriveChannelUrl(channelId: int): (url: string)
    ensures StartsWith(url, PRIVATE_CHANNEL_PREFIX)
    ensures url[|PRIVATE_CHANNEL_PREFIX|..] == ChannelSuffix(channelId)
  {
    var url := PRIVATE_CHANNEL_PREFIX + ChannelSuffix(channelId);
    assert url[..|PRIVATE_CHANNEL_PREFIX|] == PRIVATE_CHANNEL_PREFIX;
    url
  }

  /** The suffix is the id without its "-100" prefix when it has one, and
      otherwise the id's digits without the sign; putting "-100" back in
      front restores the id. The suffix holds digits only. */
  lemma ChannelSuffixRestoresId(channelId: int)
    ensures var channel := IntToString(channelId);
      && (StartsWith(channel, SUPERGROUP_PREFIX) ==> SUPERGROUP_PREFIX + ChannelSuffix(channelId) == channel)
      && (!StartsWith(channel, SUPERGROUP_PREFIX) ==>
            ChannelSuffix(channelId) == NatToString(if channelId < 0 then -channelId else channelId))
      && AllDigits(ChannelSuffix(channelId))
  {
    var channel := IntToString(channelId);
    var suffix := ChannelSuffix(channelId);
    if StartsWith(channel, SUPERGROUP_PREFIX) {
      assert channel == channel[..4] + channel[4..];
      assert forall k :: 0 <= k < |suffix| ==> suffix[k] == channel[k + 4];
    } else if channelId < 0 {
      var digits := NatToString(-channelId);
      assert channel == "-" + digits;
      assert channel[1..] == digits;
      assert digits[0] != '-';
      assert StripLeading(digits, '-') == digits;
    } else {
      var digits := NatToString(channelId);
      assert digits[0] != '-';
    }
  }

  /** What asking Telegram for the chat gave: an API error, or the chat with
      its public username and invite link, either of which may be absent. */
  datatype ChatLookup = LookupFailed | Chat(username: Option<string>, inviteLink: Option<string>)

  /** `resolve_channel_url`: a configured URL first, then the chat's public
      username, then its invite link, and the derived private link last. */
  function ResolveChannelUrl(configuredUrl: Option<string>, channelId: int, lookup: ChatLookup): (url: string)
    ensures url != ""
    ensures Truthy(configuredUrl) ==> url == configuredUrl.value
    ensures !Truthy(configuredUrl) && lookup.Chat? && Truthy(lookup.username) ==>
      url == PUBLIC_CHANNEL_PREFIX + lookup.username.value
    ensures !Truthy(configuredUrl) && lookup.Chat? && !Truthy(lookup.username) && Truthy(lookup.inviteLink) ==>
      url == lookup.inviteLink.value
    ensures !Truthy(configuredUrl) && (lookup.LookupFailed? || (!Truthy(lookup.username) && !Truthy(lookup.inviteLink))) ==>
      url == DeriveChannelUrl(channelId)
  {
    if Truthy(configuredUrl) then configuredUrl.value
    else if lookup.Chat? && Truthy(lookup.username) then PUBLIC_CHANNEL_PREFIX + lookup.username.value
    else if lookup.Chat? && Truthy(lookup.inviteLink) then lookup.inviteLink.value
    else DeriveChannelUrl(channelId)
  }
}
