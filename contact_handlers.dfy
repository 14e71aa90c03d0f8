/** Collecting a participant's contact details: phone validation and
    normalisation, the name-then-phone conversation, the contact shared
    through Telegram's button, and the gate of the `/contact` command. */
module ContactHandlers {
  import opened Common
  import opened Models
  import opened Repositories

  /** The states of the contact-entry conversation. */
  datatype ContactState = WaitingForName | WaitingForPhone | WaitingForSimpleContact

  /** The key under which the conversation keeps the entered name. */
  const CONTACT_NAME_KEY: string := "contact_name"
  /** The replies that abandon the entry, after trimming and lower-casing. */
  const CANCEL_WORDS: set<string> := {"отменить", "❌ отменить", "cancel"}
  const MIN_NAME_LENGTH: int := 2

  /** The conversation context of one chat: its current state and its data. */
  class Conversation {
    var state: Option<ContactState>
    var data: map<string, string>

    constructor ()
      ensures state.None? && data == map[]
    {
      state := None;
      data := map[];
    }

    method SetState(s: ContactState)
      modifies this
      ensures state == Some(s) && data == old(data)
    {
      state := Some(s);
    }

    method UpdateData(key: string, value: string)
      modifies this
      ensures data == old(data)[key := value] && state == old(state)
    {
      data := data[key := value];
    }

    /** Leaves the conversation: no state and no data. */
    method Clear()
      modifies this
      ensures state.None? && data == map[]
    {
      state := None;
      data := map[];
    }
  }

  // ---------------------------------------------------------------------
  // Phone numbers

  predicate IsPhoneChar(c: char) {
    IsDigit(c) || c == '+'
  }

  /** `re.sub(r"[^\d+]", "", phone)`: every character other than an ASCII
      digit or '+' removed, the rest kept in order. */
  function CleanPhone(phone: string): (r: string)
    ensures |r| <= |phone|
    ensures forall k :: 0 <= k < |r| ==> IsPhoneChar(r[k])
  {
    if phone == [] then []
    else (if IsPhoneChar(phone[0]) then [phone[0]] else []) + CleanPhone(phone[1..])
  }

  /** Cleaning works character by character: the pieces of a string clean
      independently. */
  lemma {:induction false} CleanPhoneConcat(a: string, b: string)
    ensures CleanPhone(a + b) == CleanPhone(a) + CleanPhone(b)
  {
    if a == [] {
      assert a + b == b;
    } else {
      assert (a + b)[0] == a[0];
      assert (a + b)[1..] == a[1..] + b;
      CleanPhoneConcat(a[1..], b);
    }
  }

  /** Text without digits or '+' cleans to nothing. */
  lemma {:induction false} CleanPhoneOfNoise(s: string)
    requires forall k :: 0 <= k < |s| ==> !IsPhoneChar(s[k])
    ensures CleanPhone(s) == []
  {
    if s != [] {
      CleanPhoneOfNoise(s[1..]);
    }
  }

  /** A string of digits and '+' is left as it is, so cleaning is idempotent. */
  lemma {:induction false} CleanPhoneOfClean(s: string)
    requires forall k :: 0 <= k < |s| ==> IsPhoneChar(s[k])
    ensures CleanPhone(s) == s
  {
    if s != [] {
      CleanPhoneOfClean(s[1..]);
    }
  }

  lemma CleanPhoneIdempotent(s: string)
    ensures CleanPhone(CleanPhone(s)) == CleanPhone(s)
  {
    CleanPhoneOfClean(CleanPhone(s));
  }

  /** The optional prefix of the pattern: nothing, `7`, `8` or `+7`. */
  predicate PhonePrefix(p: string) {
    || |p| == 0
    || (|p| == 1 && (p[0] == '7' || p[0] == '8'))
    || (|p| == 2 && p[0] == '+' && p[1] == '7')
  }

  /** `re.match(r"^(\+?7|8)?\d{10}$", cleaned)`: an optional prefix `+7`,
      `7` or `8`, then exactly ten digits and nothing more. */
  function MatchesPhonePattern(c: string): (ok: bool)
    ensures ok ==> 10 <= |c| <= 12
  {
    || (|c| == 10 && AllDigits(c))
    || (|c| == 11 && (c[0] == '7' || c[0] == '8') && AllDigits(c[1..]))
    || (|c| == 12 && c[..2] == "+7" && AllDigits(c[2..]))
  }

  /** A matching number is one of the prefixes followed by ten digits, and
      every such text matches. */
  lemma PhonePatternMeans(c: string)
    ensures MatchesPhonePattern(c) <==> |c| >= 10 && PhonePrefix(c[..|c| - 10]) && AllDigits(c[|c| - 10..])
  {
    assert |c| == 12 ==> (c[..2] == "+7" <==> c[0] == '+' && c[1] == '7');
  }

  /** The ten subscriber digits a matching number ends with. */
  function SubscriberDigits(c: string): (d: string)
    requires MatchesPhonePattern(c)
    ensures |d| == 10 && AllDigits(d) && c == c[..|c| - 10] + d
    ensures c[..|c| - 10] in {"", "+7", "7", "8"}
  {
    assert |c| == 11 ==> c[..1] == [c[0]];
    assert |c| == 12 ==> c[..2] == "+7";
    c[|c| - 10..]
  }

  /** `validate_phone`: the cleaned text matches the pattern. */
  function ValidatePhone(phone: string): (ok: bool)
    ensures ok ==> |phone| >= 10
  {
    MatchesPhonePattern(CleanPhone(phone))
  }

  /** Spaces, brackets and dashes do not change the verdict. */
  lemma ValidatePhoneIgnoresNoise(before: string, noise: string, after: string)
    requires forall k :: 0 <= k < |noise| ==> !IsPhoneChar(noise[k])
    ensures ValidatePhone(before + noise + after) == ValidatePhone(before + after)
  {
    CleanPhoneConcat(before + noise, after);
    CleanPhoneConcat(before, noise);
    CleanPhoneOfNoise(noise);
    CleanPhoneConcat(before, after);
    assert CleanPhone(before) + [] == CleanPhone(before);
  }

  /** Ten digits are accepted bare and behind each prefix; a wrong prefix or a
      digit too few is refused. */
  lemma ValidatePhoneForms(digits: string)
    requires |digits| == 10 && AllDigits(digits)
    ensures ValidatePhone(digits)
    ensures ValidatePhone("7" + digits) && ValidatePhone("8" + digits) && ValidatePhone("+7" + digits)
    ensures !ValidatePhone("+8" + digits)
    ensures !ValidatePhone(digits[..9])
    ensures !ValidatePhone("+7" + digits[..9])
  {
    CleanPhoneOfClean(digits);
    assert ValidatePhone("7" + digits) by {
      CleanPhoneOfClean("7" + digits);
      assert ("7" + digits)[1..] == digits;
    }
    assert ValidatePhone("8" + digits) by {
      CleanPhoneOfClean("8" + digits);
      assert ("8" + digits)[1..] == digits;
    }
    assert ValidatePhone("+7" + digits) by {
      CleanPhoneOfClean("+7" + digits);
      assert ("+7" + digits)[..2] == "+7" && ("+7" + digits)[2..] == digits;
    }
    assert !ValidatePhone("+8" + digits) by {
      CleanPhoneOfClean("+8" + digits);
      assert ("+8" + digits)[..2] != "+7";
    }
    assert !ValidatePhone(digits[..9]) by {
      CleanPhoneOfClean(digits[..9]);
    }
    assert !ValidatePhone("+7" + digits[..9]) by {
      CleanPhoneOfClean("+7" + digits[..9]);
      assert ("+7" + digits[..9])[0] == '+';
    }
  }

  /** The normalisation the two phone handlers spell out: a leading `8`
      becomes `+7`, anything not starting with `+7` gets `+7` in front. */
  function NormalizePhoneAsWritten(phone: string): (r: string)
    ensures StartsWith(r, "+7")
  {
    var c := CleanPhone(phone);
    if StartsWith(c, "8") then "+7" + c[1..]
    else if !StartsWith(c, "+7") then "+7" + c
    else c
  }

  /** An eleven-digit number with the country code `7`, such as
      `79123456789`, passes validation and comes out with the country code
      twice, as a number that no longer passes. */
  lemma AsWrittenDoublesCountryCode(digits: string)
    requires |digits| == 10 && AllDigits(digits)
    ensures ValidatePhone("7" + digits)
    ensures NormalizePhoneAsWritten("7" + digits) == "+77" + digits
    ensures !ValidatePhone(NormalizePhoneAsWritten("7" + digits))
  {
    var s := "7" + digits;
    CleanPhoneOfClean(s);
    assert s[1..] == digits;
    assert s[..1] != "8" && s[..2] != "+7";
    assert "+7" + s == "+77" + digits;
    CleanPhoneOfClean("+77" + digits);
  }

  /** A ten-digit number that starts with `8`, such as `8005553535`, passes
      validation and loses that digit, as a number that no longer passes. */
  lemma AsWrittenDropsSubscriberDigit(digits: string)
    requires |digits| == 9 && AllDigits(digits)
    ensures ValidatePhone("8" + digits)
    ensures NormalizePhoneAsWritten("8" + digits) == "+7" + digits
    ensures !ValidatePhone(NormalizePhoneAsWritten("8" + digits))
  {
    var s := "8" + digits;
    CleanPhoneOfClean(s);
    assert s[..1] == "8" && s[1..] == digits;
    var r := "+7" + digits;
    CleanPhoneOfClean(r);
    assert r[0] == '+';
  }

  /** The written normalisation is idempotent: its result starts with `+7`
      and holds only digits and '+'. */
  lemma NormalizeAsWrittenIdempotent(phone: string)
    ensures NormalizePhoneAsWritten(NormalizePhoneAsWritten(phone)) == NormalizePhoneAsWritten(phone)
  {
    var r := NormalizePhoneAsWritten(phone);
    var c := CleanPhone(phone);
    assert forall k :: 0 <= k < |r| ==> IsPhoneChar(r[k]) by {
      if StartsWith(c, "8") {
        assert r == "+7" + c[1..];
      } else if !StartsWith(c, "+7") {
        assert r == "+7" + c;
      }
    }
    CleanPhoneOfClean(r);
    assert !StartsWith(r, "8");
  }

  /** The two shapes of valid number the written normalisation gets wrong:
      eleven digits starting with the country code `7`, and ten digits
      starting with `8`. */
  predicate MisnormalisedShape(c: string) {
    MatchesPhonePattern(c) && ((|c| == 11 && c[0] == '7') || (|c| == 10 && c[0] == '8'))
  }

  /** The normalisation the handlers of this model use: a number that passes
      validation becomes `+7` and its ten subscriber digits; any other text is
      normalised as written. */
  function NormalizePhone(phone: string): (r: string)
    ensures StartsWith(r, "+7")
  {
    var c := CleanPhone(phone);
    if MatchesPhonePattern(c) then "+7" + SubscriberDigits(c) else NormalizePhoneAsWritten(phone)
  }

  /** Every valid number normalises to a valid `+7` number with the same ten
      subscriber digits. */
  lemma NormalizeValidPhone(phone: string)
    requires ValidatePhone(phone)
    ensures var r := NormalizePhone(phone);
      && |r| == 12 && r[..2] == "+7" && r[2..] == SubscriberDigits(CleanPhone(phone))
      && ValidatePhone(r)
  {
    var r := NormalizePhone(phone);
    assert forall k :: 0 <= k < |r| ==> IsPhoneChar(r[k]);
    CleanPhoneOfClean(r);
    assert r[2..] == SubscriberDigits(CleanPhone(phone));
  }

  /** Normalising a normalised number changes nothing. */
  lemma NormalizeIdempotent(phone: string)
    ensures NormalizePhone(NormalizePhone(phone)) == NormalizePhone(phone)
  {
    var r := NormalizePhone(phone);
    var c := CleanPhone(phone);
    assert forall k :: 0 <= k < |r| ==> IsPhoneChar(r[k]) by {
      if !MatchesPhonePattern(c) && StartsWith(c, "8") {
        assert r == "+7" + c[1..];
      }
    }
    CleanPhoneOfClean(r);
    assert !StartsWith(r, "8");
  }

  /** The corrected normalisation differs from the written one only on the
      two shapes of valid number the written one gets wrong. */
  lemma NormalizeDiffersOnlyOnFindings(phone: string)
    ensures var c := CleanPhone(phone);
      NormalizePhone(phone) != NormalizePhoneAsWritten(phone) ==> MisnormalisedShape(c)
  {
    var c := CleanPhone(phone);
    if MatchesPhonePattern(c) && !MisnormalisedShape(c) {
      AsWrittenAgreesOutsideFindings(c);
    }
  }

  /** On a matching number of neither finding shape, the written steps give
      `+7` and the ten subscriber digits. */
  lemma AsWrittenAgreesOutsideFindings(c: string)
    requires MatchesPhonePattern(c) && !MisnormalisedShape(c)
    ensures "+7" + SubscriberDigits(c)
            == if StartsWith(c, "8") then "+7" + c[1..] else if !StartsWith(c, "+7") then "+7" + c else c
  {
    assert StartsWith(c, "8") <==> c[0] == '8' by {
      assert c[..1] == [c[0]];
    }
    if |c| == 10 {
      assert c[0] != '8' && !StartsWith(c, "+7") by {
        assert IsDigit(c[0]);
      }
      assert c[|c| - 10..] == c;
    } else if |c| == 11 {
      assert c[0] == '8' && c[|c| - 10..] == c[1..];
    } else {
      assert c[..2] == "+7" && c[0] == '+';
      assert c == c[..2] + c[|c| - 10..];
    }
  }

  // ---------------------------------------------------------------------
  // Names

  /** The reply abandons the entry when, trimmed and lower-cased, it is one
      of the cancel words; only a reply as long as one of them can cancel,
      so a typed name of any other length is never taken for one. */
  function IsCancelWord(text: string): (b: bool)
    ensures b ==> |Trim(text)| == 6 || |Trim(text)| == 8 || |Trim(text)| == 10
  {
    var word := ToLower(Trim(text));
    CancelWordsHaveLengths();
    word in CANCEL_WORDS
  }

  lemma CancelWordsHaveLengths()
    ensures forall w :: w in CANCEL_WORDS ==> |w| == 6 || |w| == 8 || |w| == 10
  {
    assert |"cancel"| == 6 && |"отменить"| == 8 && |"❌ отменить"| == 10;
  }

  /** Cancelling does not depend on the case of the reply, in Latin or
      Cyrillic. */
  lemma CancelIgnoresCase(text: string)
    ensures IsCancelWord(ToLower(text)) <==> IsCancelWord(text)
  {
    var t := Trim(text);
    TrimToLower(text);
    ToLowerIdempotent(t);
    assert ToLower(Trim(ToLower(text))) == ToLower(t);
  }

  /** The name of a contact shared through the button: the first name, and
      when a last name is present, both joined by a space and trimmed. */
  function ButtonContactName(firstName: string, lastName: Option<string>): (name: string)
    ensures !Truthy(lastName) ==> name == firstName
    ensures Truthy(lastName) ==> |name| <= |firstName| + 1 + |lastName.value|
                                 && (name == [] || IsStripped(name))
  {
    if Truthy(lastName) then Trim(firstName + " " + lastName.value) else firstName
  }

  /** Names without surrounding whitespace are joined by one space; without
      a first name only the last name is left. */
  lemma ButtonContactNameJoins(firstName: string, lastName: string)
    requires lastName != [] && !IsWhitespace(lastName[0]) && !IsWhitespace(lastName[|lastName| - 1])
    requires firstName == [] || !IsWhitespace(firstName[0])
    ensures ButtonContactName(firstName, Some(lastName)) == if firstName == [] then lastName else firstName + " " + lastName
  {
    var joined := firstName + " " + lastName;
    if firstName == [] {
      assert joined == " " + lastName;
      assert TrimLeft(joined) == lastName by {
        assert joined[1..] == lastName;
      }
      TrimOfUntrimmed(lastName);
    } else {
      assert joined[0] == firstName[0] && joined[|joined| - 1] == lastName[|lastName| - 1];
      TrimOfUntrimmed(joined);
    }
  }

  // ---------------------------------------------------------------------
  // Saving a contact

  /** The users table once the contact columns of this user's row are written,
      if the row exists. */
  function WithContact(users: seq<User>, tgUserId: int, name: string, phone: string): (r: seq<User>)
    requires UniqueTgUserIds(users)
    ensures |r| == |users| && UserIds(r) == UserIds(users)
    ensures forall i :: 0 <= i < |users| && users[i].tgUserId != tgUserId ==> r[i] == users[i]
    ensures forall i :: 0 <= i < |users| && users[i].tgUserId == tgUserId ==>
              r[i] == users[i].(contactName := Some(name), contactPhone := Some(phone))
  {
    match FindUser(users, tgUserId)
    case None =>
      InUserIds(users, tgUserId);
      users
    case Some(k) =>
      UserIdsUpdate(users, k, users[k].(contactName := Some(name), contactPhone := Some(phone)));
      users[k := users[k].(contactName := Some(name), contactPhone := Some(phone))]
  }

  /** With both parts non-empty, the user then has a contact. */
  lemma WithContactGivesContact(users: seq<User>, tgUserId: int, name: string, phone: string)
    requires UniqueTgUserIds(users) && tgUserId in UserIds(users) && name != "" && phone != ""
    ensures HasContact(RowOf(WithContact(users, tgUserId, name, phone), tgUserId))
  {
    var k := FindUser(users, tgUserId).value;
    var r := WithContact(users, tgUserId, name, phone);
    assert FindUser(r, tgUserId) == Some(k) by {
      assert forall j :: 0 <= j < k ==> r[j] == users[j];
    }
  }

  /** The transaction that writes the contact columns of the loaded user. */
  method SaveContact(db: Database, tgUserId: int, name: string, phone: string) returns (saved: bool)
    requires db.Consistent()
    modifies db
    ensures db.Consistent()
    ensures saved <==> tgUserId in UserIds(old(db.users))
    ensures db.users == WithContact(old(db.users), tgUserId, name, phone)
    ensures db.referrals == old(db.referrals)
  {
    var user := db.GetByTgUserIdForUpdate(tgUserId);
    if user == null {
      return false;
    }
    var k := FindUser(db.users, tgUserId).value;
    ghost var users0 := db.users;
    assert user.Row() == users0[k];
    user.contactName := Some(name);
    user.contactPhone := Some(phone);
    ghost var row := user.Row();
    db.Save(user);
    RowUpdateKeepsInvariants(users0, db.referrals, k, row);
    MirrorRowUpdate(users0, db.referrals, k, row);
    saved := true;
  }

  // ---------------------------------------------------------------------
  // The conversation

  /** `request_contact_info`: the entry starts by asking for the name. */
  method RequestContactInfo(conv: Conversation)
    modifies conv
    ensures conv.state == Some(WaitingForName) && conv.data == old(conv.data)
  {
    conv.SetState(WaitingForName);
  }

  /** `request_simple_contact`: after a fresh subscription the bot asks for
      the contact through the button. */
  method RequestSimpleContact(conv: Conversation)
    modifies conv
    ensures conv.state == Some(WaitingForSimpleContact) && conv.data == old(conv.data)
  {
    conv.SetState(WaitingForSimpleContact);
  }

  /** The button under the subscription message starts the entry; an update
      without a sender only gets an empty answer. */
  method HandleRequestContactCallback(conv: Conversation, fromUser: Option<int>)
    modifies conv
    ensures fromUser.Some? ==> conv.state == Some(WaitingForName)
    ensures fromUser.None? ==> conv.state == old(conv.state)
    ensures conv.data == old(conv.data)
  {
    if fromUser.Some? {
      conv.SetState(WaitingForName);
    }
  }

  /** What `/contact` answers for the user's row. */
  datatype ContactGate = NotRegistered | NotParticipant | AlreadyProvided(name: string, phone: string) | RequestContact

  function ContactCommandGate(user: Option<User>): (g: ContactGate)
    ensures g.NotRegistered? <==> user.None?
    ensures g.NotParticipant? <==> user.Some? && !user.value.isParticipant
    ensures g.AlreadyProvided? <==> user.Some? && user.value.isParticipant && HasContact(user.value)
    ensures g.AlreadyProvided? ==> g.name == user.value.contactName.value && g.phone == user.value.contactPhone.value
    ensures g.RequestContact? <==> user.Some? && user.value.isParticipant && !HasContact(user.value)
  {
    if user.None? then NotRegistered
    else if !user.value.isParticipant then NotParticipant
    else if HasContact(user.value) then AlreadyProvided(user.value.contactName.value, user.value.contactPhone.value)
    else RequestContact
  }

  /** `/contact`: only a participant without a saved contact is asked for one. */
  method HandleContactCommand(conv: Conversation, db: Database, fromUser: Option<int>) returns (gate: Option<ContactGate>)
    modifies conv
    ensures fromUser.None? ==> gate.None?
    ensures fromUser.Some? ==> gate == Some(ContactCommandGate(db.GetByTgUserId(fromUser.value)))
    ensures conv.state == (if gate == Some(RequestContact) then Some(WaitingForName) else old(conv.state))
    ensures conv.data == old(conv.data)
  {
    if fromUser.None? {
      return None;
    }
    var g := ContactCommandGate(db.GetByTgUserId(fromUser.value));
    if g.RequestContact? {
      RequestContactInfo(conv);
    }
    gate := Some(g);
  }

  /** The answers to a typed name. */
  datatype NameReply = NameCancelled | NameTooShort | NameSaved(name: string)

  /** A message while the name is awaited. */
  method HandleContactName(conv: Conversation, text: string) returns (reply: NameReply)
    requires conv.state == Some(WaitingForName)
    modifies conv
    ensures reply.NameCancelled? <==> IsCancelWord(text)
    ensures reply.NameCancelled? ==> conv.state.None? && conv.data == map[]
    ensures reply.NameTooShort? <==> !IsCancelWord(text) && |Trim(text)| < MIN_NAME_LENGTH
    ensures reply.NameTooShort? ==> conv.state == old(conv.state) && conv.data == old(conv.data)
    ensures reply.NameSaved? ==>
      && reply.name == Trim(text) && |reply.name| >= MIN_NAME_LENGTH
      && conv.state == Some(WaitingForPhone)
      && conv.data == old(conv.data)[CONTACT_NAME_KEY := reply.name]
  {
    if IsCancelWord(text) {
      conv.Clear();
      return NameCancelled;
    }
    var name := Trim(text);
    if |name| < MIN_NAME_LENGTH {
      return NameTooShort;
    }
    conv.UpdateData(CONTACT_NAME_KEY, name);
    conv.SetState(WaitingForPhone);
    reply := NameSaved(name);
  }

  /** The answers to a typed phone number; `sheetsSync` says whether the
      background spreadsheet update was started. */
  datatype PhoneReply =
    | PhoneIgnored
    | PhoneCancelled
    | InvalidPhone
    | ContactInfoSaved(name: string, phone: string, saved: bool, sheetsSync: bool)

  /** The name entered earlier in the conversation, or "" when there is none. */
  function StoredName(data: map<string, string>): (name: string)
    ensures CONTACT_NAME_KEY !in data ==> name == ""
    ensures CONTACT_NAME_KEY in data ==> name == data[CONTACT_NAME_KEY]
  {
    if CONTACT_NAME_KEY in data then data[CONTACT_NAME_KEY] else ""
  }

  /** A message while the phone number is awaited. */
  method HandleContactPhone(conv: Conversation, db: Database, fromUser: Option<int>, text: string)
    returns (reply: PhoneReply)
    requires conv.state == Some(WaitingForPhone) && db.Consistent()
    modifies conv, db
    ensures db.Consistent() && db.referrals == old(db.referrals)
    ensures reply.PhoneIgnored? <==> fromUser.None?
    ensures reply.PhoneCancelled? <==> fromUser.Some? && IsCancelWord(text)
    ensures reply.InvalidPhone? <==> fromUser.Some? && !IsCancelWord(text) && !ValidatePhone(Trim(text))
    ensures reply.PhoneIgnored? || reply.InvalidPhone? ==>
      conv.state == old(conv.state) && conv.data == old(conv.data) && db.users == old(db.users)
    ensures reply.PhoneCancelled? ==> conv.state.None? && conv.data == map[] && db.users == old(db.users)
    ensures reply.ContactInfoSaved? ==>
      && reply.name == StoredName(old(conv.data))
      && reply.phone == NormalizePhone(Trim(text))
      && |reply.phone| == 12 && ValidatePhone(reply.phone)
      && (!MisnormalisedShape(CleanPhone(Trim(text))) ==> reply.phone == NormalizePhoneAsWritten(Trim(text)))
      && (reply.saved <==> fromUser.value in UserIds(old(db.users)))
      && reply.sheetsSync == reply.saved
      && db.users == WithContact(old(db.users), fromUser.value, reply.name, reply.phone)
      && conv.state.None? && conv.data == map[]
  {
    if fromUser.None? {
      return PhoneIgnored;
    }
    if IsCancelWord(text) {
      conv.Clear();
      return PhoneCancelled;
    }
    var phone := Trim(text);
    if !ValidatePhone(phone) {
      return InvalidPhone;
    }
    var cleanedPhone := NormalizePhone(phone);
    NormalizeValidPhone(phone);
    NormalizeDiffersOnlyOnFindings(phone);
    var contactName := StoredName(conv.data);
    var saved := SaveContact(db, fromUser.value, contactName, cleanedPhone);
    conv.Clear();
    reply := ContactInfoSaved(contactName, cleanedPhone, saved, saved);
  }

  /** A contact shared through Telegram's button. */
  datatype SharedContact = SharedContact(phoneNumber: string, firstName: string, lastName: Option<string>)

  /** The answers to a shared contact. */
  datatype ButtonReply =
    | ButtonIgnored
    | NoPhone
    | ContactReceived(name: string, phone: string, saved: bool, sheetsSync: bool)
    /** No contact entry is under way: nothing is saved and nothing answered. */
    | NotExpected

  /** A shared contact. It is saved whenever an entry is under way, whatever
      the state; after the simple request the spreadsheet is only updated when
      the name is not empty. The number is normalised without validation. */
  method HandleContactFromButton(conv: Conversation, db: Database, fromUser: Option<int>, contact: Option<SharedContact>)
    returns (reply: ButtonReply)
    requires db.Consistent()
    modifies conv, db
    ensures db.Consistent() && db.referrals == old(db.referrals)
    ensures reply.ButtonIgnored? <==> contact.None? || fromUser.None?
    ensures reply.NoPhone? <==> contact.Some? && fromUser.Some? && contact.value.phoneNumber == ""
    ensures reply.NotExpected? <==> contact.Some? && fromUser.Some? && contact.value.phoneNumber != "" && old(conv.state).None?
    ensures !reply.ContactReceived? ==>
      conv.state == old(conv.state) && conv.data == old(conv.data) && db.users == old(db.users)
    ensures reply.ContactReceived? ==>
      && reply.name == ButtonContactName(contact.value.firstName, contact.value.lastName)
      && reply.phone == NormalizePhone(contact.value.phoneNumber)
      && (!MisnormalisedShape(CleanPhone(contact.value.phoneNumber)) ==>
            reply.phone == NormalizePhoneAsWritten(contact.value.phoneNumber))
      && (reply.saved <==> fromUser.value in UserIds(old(db.users)))
      && (reply.sheetsSync <==> reply.saved && (old(conv.state) == Some(WaitingForSimpleContact) ==> reply.name != ""))
      && db.users == WithContact(old(db.users), fromUser.value, reply.name, reply.phone)
      && conv.state.None? && conv.data == map[]
  {
    if contact.None? || fromUser.None? {
      return ButtonIgnored;
    }
    var c := contact.value;
    var phone := c.phoneNumber;
    var name := ButtonContactName(c.firstName, c.lastName);
    if phone == "" {
      return NoPhone;
    }
    var cleanedPhone := NormalizePhone(phone);
    NormalizeDiffersOnlyOnFindings(phone);
    match conv.state
    case Some(WaitingForSimpleContact) =>
      var saved := SaveContact(db, fromUser.value, name, cleanedPhone);
      var sheetsSync := saved && name != "" && cleanedPhone != "";
      conv.Clear();
      reply := ContactReceived(name, cleanedPhone, saved, sheetsSync);
    case Some(_) =>
      var saved := SaveContact(db, fromUser.value, name, cleanedPhone);
      conv.Clear();
      reply := ContactReceived(name, cleanedPhone, saved, saved);
    case None =>
      reply := NotExpected;
  }
}
