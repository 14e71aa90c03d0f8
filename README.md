# Referral giveaway bot: a Dafny model

This project models the core of a Telegram bot that runs a referral giveaway
for a channel. A user opens the bot with `/start`, optionally through a
friend's invite link. The user then presses "check subscription". The bot asks
Telegram whether the user is a member of the channel. On a positive answer it
marks the user subscribed and confirms the referral edge that brought them, if
there is one. That credits the inviting user. A user who is subscribed and has
at least one confirmed referral becomes a participant. Participants leave a
name and a phone number, and the bot mirrors these contacts into a
spreadsheet. Admins can ask for statistics and broadcast a message to every
user.

The model is split into modules that follow the program's structure:

- `Models`: the `users` and `referrals` rows, the schema constraints as
  predicates, the service invariants, and the counting facts. It also holds
  `UserRecord`, the row object the services change in place.
- `Repositories`: class `Database`, holding both tables as sequences. Each
  repository query is a function and each statement is a method. The schema
  constraints are `Valid()`. It also holds the rule that `confirmed_at` is
  set exactly on confirmed edges. The table does not declare that rule; the
  repository's writes keep it. `Consistent()` adds the three invariants every
  committed transaction keeps:
  - a participant is subscribed and has a confirmed referral;
  - each user's `referrals_confirmed` counter equals the number of confirmed
    edges that user referred;
  - a user's `referred_by` names the referrer of the edge that names the
    user as referred, and is empty when no edge does.
- `Participation`: the one-way, idempotent participation flag.
- `ReferralService`: the `/start` transaction. It parses the referral code,
  decides whether the code may be applied, does get-or-create and the profile
  overwrite, then either inserts the pending edge or adopts the one already
  there. In a consistent store the adopt branch is never reached: a user
  whose code may be applied has no `referred_by`, hence no edge.
- `SubscriptionService`: the member-status normalisation and the
  rate-limit gate. It also holds the confirmation transaction: a
  compare-and-swap on the user's edge, the credit to the referrer, and the
  result record.
- `SubscriptionHandler`: the "check subscription" callback. It is the order
  of gate, membership verdict, confirmation and choice of answer.
- `ContactHandlers`: phone validation and normalisation, the
  name-then-phone conversation (a `Conversation` class with a state and a
  data map), the contact shared through Telegram's button, and the
  `/contact` gate.
- `SheetsService`: the contacts worksheet as a `Worksheet` class over rows of
  cells. It covers the lookup by id, the serial numbering, the row layout, and
  `add_contact`/`update_contact`.
- `TelegramRetry`: the bounded retry loop. It runs against a script saying
  what each call does, and returns the result, the sleeps and the number of
  calls.
- `AdminService` and `AdminHandlers`: the statistics and their message, the
  broadcast tally, the admin check and the broadcast payload.
- `Config`: the `ADMIN_IDS`, `CHANNEL_ID` and webhook validators.
- `ChannelUrl`: the channel link, derived or resolved.
- `Common`: the Python string and integer behaviour the bot relies on.

**Parameters instead of the outside world:**

- Time is an integer number of microseconds, passed as `now`.
- What Telegram answers is a parameter:
  - the member status, or `None` for an API error;
  - the chat lookup;
  - a script of call outcomes.
- Which worksheet could be opened, and whether the integration is enabled,
  are parameters as well.

**Row numbers.** Sheet rows are 0-based indices into the row sequence. The
header is row 0, so index `i` is the sheet's row `i + 1`. The source's
`row_index - 1` fallback serial is therefore the index itself.

**Contact columns.** The `contact_name` and `contact_phone` columns are
those added by `alembic/versions/20260213_0001_add_contact_fields.py:21-22`.
`app/db/models.py` does not declare them.

## Model

| member | source | states |
|---|---|---|
| Models.ReferralStatus.Value | app/db/enums.py:6-8 | the stored status value is "pending" or "confirmed" |
| Models.StatusValueInjective | app/db/enums.py:6-8 | distinct statuses store distinct values |
| Models.FindUser | app/repositories/users.py:20-23 | the position found holds the id and is the first such; nothing is found exactly when the id is absent from the column |
| Models.RowOf | app/repositories/users.py:20-23 | the row returned is in the table and carries the id |
| Models.FindReferral | app/repositories/referrals.py:38-40 | found position carries the referral id; nothing is found exactly when no edge names the user |
| Models.ReferrerOf | app/db/models.py:23-27 | the referrer of the edge naming the user, none exactly when no edge names the user |
| Models.FindReferralStable | app/repositories/referrals.py:42-56 | rewriting an edge in place, keeping its referred user, keeps the lookup by referred user |
| Models.FindReferralAppend | app/repositories/referrals.py:16-35 | appending an edge leaves an earlier match in place, and otherwise finds the new edge exactly when it names the user |
| Models.NewUser | app/db/models.py:22-29 | the given identity and profile; not subscribed, not a participant, no confirmed referral, no referrer, no check time, no contact |
| Models.HasContact | app/services/subscription_service.py:130 | both the contact name and the phone are present and non-empty |
| Models.FindUserUnique | app/db/models.py:18 | with unique ids the lookup of a row's own id returns that row's position |
| Models.InUserIds | app/db/models.py:18 | an id is in the id column exactly when some row carries it |
| Models.CountsBoundedByTotal | app/repositories/users.py:61-75 | subscribed and participant counts never exceed the number of users |
| Models.ParticipantsAtMostSubscribed | app/services/participation_service.py:18-20 | when every participant is subscribed there are no more participants than subscribers |
| Models.AppendPendingKeepsConfirmed | app/repositories/referrals.py:16-35 | inserting a pending edge changes no confirmed count, per referrer or in total |
| Models.ConfirmEdgeCounts | app/repositories/referrals.py:42-56 | flipping one pending edge adds one confirmed edge in total, credited to its referrer alone |
| Models.NoEdgesNoConfirmed | app/db/models.py:40-45 | a user no edge names as referrer has no confirmed referrals |
| Models.TableCountEqualsCounterSum | app/services/admin_service.py:36-43 | under the schema and the counter invariant, the confirmed edges in the table equal the sum of the users' counters |
| Models.NewRowKeepsInvariants | app/db/models.py:22-29 | a fresh row with no counter and no participation keeps both service invariants |
| Models.PendingEdgeKeepsCounters | app/repositories/referrals.py:16-35 | a pending edge leaves every counter matching the edges |
| Models.RowUpdateKeepsInvariants | app/services/participation_service.py:15-22 | rewriting one row keeps both invariants when that row is eligible and its counter matches its edges |
| Models.FlipKeepsOtherCounters | app/repositories/referrals.py:42-56 | flipping an edge leaves every counter but its referrer's matching |
| Models.MirrorKept | app/services/subscription_service.py:93-113 | rows keeping their id and `referred_by`, over edges keeping every referrer, keep the mirror |
| Models.MirrorRowUpdate | app/services/referral_service.py:50-51 | rewriting one row without touching its id or `referred_by` keeps the mirror |
| Models.ReferrerOfFlip | app/repositories/referrals.py:42-56 | confirming an edge keeps every user's referrer |
| Models.MirrorNewRow | app/repositories/users.py:25-54 | a new row without a referrer keeps the mirror, since no edge can name a missing user |
| Models.MirrorNewEdge | app/services/referral_service.py:69-76 | appending the edge of a user without one while pointing `referred_by` at its referrer keeps the mirror |
| Models.NoReferrerNoEdge | app/services/referral_service.py:65-88 | under the mirror a user without `referred_by` has no edge |
| Models.UserRecord.Load | app/repositories/users.py:14-23 | the loaded object holds exactly the row's columns |
| Repositories.Database.constructor | app/db/models.py:14-68 | an empty store satisfies the schema and both invariants |
| Repositories.Database.GetByTgUserId | app/repositories/users.py:14-23 | a row is returned exactly when one has the id, and it is that row |
| Repositories.Database.GetByTgUserIdForUpdate | app/repositories/users.py:14-23 | null exactly when the id is absent; otherwise a fresh object holding that row |
| Repositories.Database.GetOrCreateForUpdate | app/repositories/users.py:25-54 | a row with declared defaults is appended exactly when the id was absent, and `created` says so; the loaded object carries the row with the given profile, and nothing else changes |
| Repositories.Database.ExistsByTgUserId | app/repositories/users.py:56-59 | true exactly when some row carries the id |
| Repositories.Database.FetchBasicStats | app/repositories/users.py:61-75 | counts all users, subscribed and participants; each count is at most the total, and participants are at most subscribers when the invariant holds |
| Repositories.Database.FetchAllTgUserIds | app/repositories/users.py:89-93 | every id in primary-key order, each once under the schema |
| Repositories.Database.Save | app/services/referral_service.py:50-51 | the commit writes the object's columns to its row and changes nothing else |
| Repositories.Database.CreatePendingReferral | app/repositories/referrals.py:16-35 | inserts the pending edge exactly when no edge names the referred user, reports that, and never changes an existing edge |
| Repositories.Database.GetReferralByReferralId | app/repositories/referrals.py:37-40 | the edge of the referred user if any, the only one under the schema |
| Repositories.Database.ConfirmPendingReferral | app/repositories/referrals.py:42-56 | a pending edge becomes confirmed at `now` and its referrer is returned; otherwise nothing changes and nothing is returned |
| Repositories.Database.CountConfirmedReferrals | app/repositories/referrals.py:58-61 | at most the number of edges; equals the sum of counters when the invariant holds |
| Repositories.ParticipantsBoundWhenEligible | app/repositories/users.py:61-75 | with the participation invariant, participants are at most subscribers |
| Repositories.CountWhenConsistent | app/repositories/referrals.py:58-61 | in a consistent store the confirmed count equals the sum of counters |
| Repositories.ConfirmedAtMost | app/repositories/referrals.py:58-61 | confirmed edges are at most all edges |
| Repositories.ConfirmTwiceIsIdempotent | app/repositories/referrals.py:46-49 | after one confirmation the count rose by one and the edge is no longer pending, so a second confirmation matches nothing |
| Participation.MarkParticipantIfEligible | app/services/participation_service.py:9-22 | the record after the call and the flag returned are the rule applied to the record before |
| Participation.ParticipationRuleCharacterised | app/services/participation_service.py:15-22 | a change is reported exactly when the flag went from false to true, exactly when not yet a participant and subscribed with a confirmed referral; a participant is left alone; only the flag changes |
| Participation.ParticipationRuleIdempotent | tests/test_referral_confirmation_idempotent.py:14-22 | a second application changes nothing and reports no change |
| Participation.ParticipationNeedsBothConditions | tests/test_participation_rules.py:14-23 | not subscribed, or no confirmed referral: nothing changes |
| Participation.ParticipationRuleKeepsEligibility | app/services/participation_service.py:18-20 | the rule keeps "participant implies subscribed with a confirmed referral" |
| Participation.ParticipationScenarios | tests/test_participation_rules.py:14-29 | the three unit-test cases on records, and the idempotence test |
| ReferralService.ParseRefCode | app/services/referral_service.py:22-29 | absent or empty gives nothing; otherwise the stripped text read as an integer, a malformed one giving nothing |
| ReferralService.RefCodeRoundTrip | app/services/referral_service.py:22-29 | reading `str(id)` gives back `id` |
| ReferralService.RefCodeIgnoresSurroundingSpace | app/services/referral_service.py:26-29 | whitespace around the id does not change the code read |
| ReferralService.RefCodeOfNothing | tests/test_start_referral.py:4-6 | `None` and "" give nothing |
| ReferralService.RefCodeOfLetters | tests/test_start_referral.py:7 | stripped text starting with neither digit nor sign, such as "abc", gives nothing |
| ReferralService.RefCodeOfDigits | tests/test_start_referral.py:8 | "123" gives 123 |
| ReferralService.CanApplyReferral | app/services/referral_service.py:32-39 | true exactly when a code is present, the user has no referrer yet, and the code is not the user's own id |
| ReferralService.CanApplyReferralExamples | tests/test_start_referral.py:11-20 | self-referral and overwrite are refused, a fresh code is accepted |
| ReferralService.RowBeforeStart | app/repositories/users.py:33-49 | the row the transaction meets carries the id; a new user has no referrer and no confirmed referral |
| ReferralService.LinkReferrer | app/services/referral_service.py:63-94 | applied exactly when the code may be applied, the referrer exists and the user has no edge; then the pending edge is appended and `referred_by` is the code; an existing edge is adopted; otherwise `referred_by` is unchanged; only `referred_by` changes on the user |
| ReferralService.InsertOrIgnore | app/repositories/users.py:33-49 | after the insert-or-ignore the user's row is the existing one or the defaults, no other id appears, and both invariants hold |
| ReferralService.StartSteps | app/services/referral_service.py:50-94 | the steps of `/start` together keep both invariants, change only this user's row, and give the link outcome in terms of the state before |
| ReferralService.StartKeepsMirror | app/services/referral_service.py:50-94 | the steps of `/start` keep `referred_by` mirroring the edges |
| ReferralService.EligibleUserHasNoEdge | app/services/referral_service.py:65-88 | in a consistent store a user whose code may be applied has no edge, so the adopt branch is unreachable |
| ReferralService.ProcessStartCommand | app/services/referral_service.py:42-100 | the store stays consistent; the result echoes the id and whether the row was created; at most one row is added and only this user's row changes; a user whose code may be applied has no edge, so the referral is applied exactly then, the pending edge is appended and `referred_by` is the code; otherwise `referred_by` is unchanged |
| SubscriptionService.NormalizeMemberStatus | app/services/subscription_service.py:31-34 | an enum member gives its value, a string gives itself; `SubscriptionHandler.ClassifyRawStatus` states what the classification makes of it |
| SubscriptionService.NormalizeAgreesOnRepresentations | app/services/subscription_service.py:31-34 | both representations of one status give the same text |
| SubscriptionService.ComputeRetryAfterSeconds | app/services/subscription_service.py:37-50 | never negative; zero exactly when there was no check or the cooldown has passed; otherwise the remaining wait rounded up to whole seconds |
| SubscriptionService.RetryAfterWithinCooldown | app/services/subscription_service.py:45-50 | a check inside the cooldown waits between 1 and the cooldown |
| SubscriptionService.RetryAfterExamples | tests/test_subscription_rate_limit.py:6-20 | no check gives 0, 2 s ago gives 3, 7 s ago gives 0, with cooldown 5 |
| SubscriptionService.RegisterSubscriptionCheckAttempt | app/services/subscription_service.py:53-79 | get-or-create with profile overwrite; a rate-limited attempt keeps the check time, an allowed one stamps `now` and returns 0; the edges are untouched and the store stays consistent |
| SubscriptionService.SubscribedRow | app/services/subscription_service.py:93-96 | the confirming user's row is subscribed, keeps its counter, and is a participant exactly when it was one or has a confirmed referral |
| SubscriptionService.CreditedRow | app/services/subscription_service.py:108-113 | the referrer's row has one more confirmed referral and is a participant exactly when it was one or is subscribed |
| SubscriptionService.FlipsEdge | app/services/subscription_service.py:98-100 | true exactly when the user has a pending edge |
| SubscriptionService.CreditReferrer | app/services/subscription_service.py:108-113 | an existing referrer's row becomes its credited row and the invariants hold again; a missing referrer changes nothing |
| SubscriptionService.CreditedReferrer | app/services/subscription_service.py:98-113 | the referrer of the user's pending edge, present exactly when an edge flips, never the user themselves |
| SubscriptionService.ConfirmEdgeCountsAll | app/repositories/referrals.py:42-56 | one flipped edge: one more confirmed edge in total, credited to its referrer for every id |
| SubscriptionService.ReferralsAfterConfirmation | app/services/subscription_service.py:98 | same edges and ids; one more confirmed edge exactly when one flipped, counted for the credited referrer alone; nothing is left to flip |
| SubscriptionService.UsersAfterCredit | app/services/subscription_service.py:104-113 | same ids; the credited referrer's counter rises by one and every other row is unchanged |
| SubscriptionService.ConfirmReferralOf | app/services/subscription_service.py:98-118 | the edge is flipped and the referrer credited as the two functions above say; the referrer notified is the credited one, with its participation afterwards |
| SubscriptionService.ConfirmSubscriptionAndReferral | app/services/subscription_service.py:82-131 | a missing user is an error and changes nothing; otherwise the result fields are the changes as the old and new rows show them, the user's row becomes its subscribed row, and the store stays consistent |
| SubscriptionService.ConfirmTwice | app/services/subscription_service.py:98-131 | a repeated confirmation flips nothing, credits nobody and reports no change; the confirmed count rises at most once |
| SubscriptionHandler.ClassifyStatus | app/bot/handlers/subscription.py:72-94 | subscribed exactly for the valid statuses, unsubscribed for the invalid ones, unknown for the rest |
| SubscriptionHandler.StatusSetsDisjoint | app/constants.py:7-17 | no status is both valid and invalid |
| SubscriptionHandler.ClassifyRawStatus | app/bot/handlers/subscription.py:72-83 | the status from either representation is subscribed exactly for a valid text and unsubscribed exactly for an invalid one, and both representations of a text are classified alike |
| SubscriptionHandler.ReferralsNeeded | app/bot/handlers/subscription.py:161 | `max(0, 1 - n)`: at most 1, and 0 exactly when a referral is confirmed |
| SubscriptionHandler.ReferralLink | app/bot/handlers/subscription.py:186 | empty exactly when the bot has no username |
| SubscriptionHandler.ReferralLinkCarriesId | app/bot/handlers/subscription.py:186 | the link's start argument reads back as the user's id in `/start` |
| SubscriptionHandler.DecideReply | app/bot/handlers/subscription.py:155-196 | nothing changed: "already participant" or the friends still needed; a fresh subscription without contact: the contact request; otherwise the updated status, with the link only for a non-participant |
| SubscriptionHandler.CheckAttempt | app/bot/handlers/subscription.py:47-58 | the gate returns the wait and leaves every standing and every edge as it was |
| SubscriptionHandler.NotifyReferrer | app/bot/handlers/subscription.py:102-136 | the notice goes to the referrer, congratulates exactly when the referrer is a participant, and syncs the sheet exactly when the referrer's row has a contact |
| SubscriptionHandler.ConfirmAndNotify | app/bot/handlers/subscription.py:96-153 | the store stays consistent, the user is subscribed, the edges are confirmed as the confirmation says, and a notice goes exactly to the credited referrer, with the wording and sheet sync its row calls for |
| SubscriptionHandler.ConfirmAndAnswer | app/bot/handlers/subscription.py:96-196 | after a positive check the user is subscribed; the referrer gets a notice exactly when credited, with the wording and sheet sync its row calls for; the contact request sets the simple-contact state |
| SubscriptionHandler.HandleCheckSubscription | app/bot/handlers/subscription.py:43-196 | no sender gives an empty answer; a wait, an API error or a non-member status confirms nothing; only a member status reaches the confirmation |
| TelegramRetry.RetryDelay | app/services/telegram_retry.py:27-50 | the server's delay, or the base delay when that is 0 or missing; `base * 2^(k-1)` for network and server errors |
| TelegramRetry.RunWithRetry | app/services/telegram_retry.py:14-52 | the loop's result and sleeps are those of the retry function, with one call more than sleeps when any attempt is allowed |
| TelegramRetry.RetryCallsBounded | app/services/telegram_retry.py:24 | at most one call per attempt; "unreachable" exactly when no attempt is allowed |
| TelegramRetry.SleepAt | app/services/telegram_retry.py:27-50 | sleep `i` follows the retryable error on attempt `attempt + i` |
| TelegramRetry.RetrySleepsFollowErrors | app/services/telegram_retry.py:27-50 | every sleep follows a retryable error on the matching attempt and lasts that error's delay |
| TelegramRetry.RetryEndsOnLastCall | app/services/telegram_retry.py:24-41 | a value is what the last call returned; an escaping error is the last call's and is not retryable or came on the last attempt |
| TelegramRetry.FirstSuccessReturnsAtOnce | app/services/telegram_retry.py:25-26 | success on the first call returns it without sleeping |
| TelegramRetry.OtherErrorPropagates | app/services/telegram_retry.py:25-50 | an uncaught error escapes from the first call without sleeping |
| TelegramRetry.NoAttemptsIsUnreachable | app/services/telegram_retry.py:24-52 | with no attempt allowed nothing is called and the loop ends "unreachable" |
| TelegramRetry.Backoff | app/services/telegram_retry.py:42 | sleep `i` of the backoff is `base * 2^(attempt + i - 1)` |
| TelegramRetry.PersistentNetworkErrorBacksOff | app/services/telegram_retry.py:39-50 | network errors throughout: the backoff sleeps, then the last error escapes |
| TelegramRetry.DefaultBackoffIsOneThenTwo | app/services/telegram_retry.py:17-42 | with the defaults the sleeps are 1 then 2 |
| ContactHandlers.Conversation.SetState | app/bot/handlers/contact.py:195 | the state is set and the data kept |
| ContactHandlers.Conversation.UpdateData | app/bot/handlers/contact.py:194 | one key of the data is set and the state kept |
| ContactHandlers.Conversation.Clear | app/bot/handlers/contact.py:185 | no state and no data |
| ContactHandlers.CleanPhone | app/bot/handlers/contact.py:71 | only digits and '+' are left, and no character is added |
| ContactHandlers.CleanPhoneConcat | app/bot/handlers/contact.py:71 | cleaning works piece by piece |
| ContactHandlers.CleanPhoneOfNoise | app/bot/handlers/contact.py:71 | text without digits or '+' cleans to nothing |
| ContactHandlers.CleanPhoneOfClean | app/bot/handlers/contact.py:71 | digits and '+' are kept as they are |
| ContactHandlers.CleanPhoneIdempotent | app/bot/handlers/contact.py:71 | cleaning twice is cleaning once |
| ContactHandlers.SubscriberDigits | app/bot/handlers/contact.py:73 | a matching number is one of the prefixes "", "+7", "7", "8" followed by ten digits |
| ContactHandlers.MatchesPhonePattern | app/bot/handlers/contact.py:73-74 | a match has 10 to 12 characters |
| ContactHandlers.PhonePatternMeans | app/bot/handlers/contact.py:73-74 | a text matches exactly when it is an optional prefix `+7`, `7` or `8` followed by ten digits |
| ContactHandlers.ValidatePhone | app/bot/handlers/contact.py:68-74 | an accepted phone has at least ten characters, since cleaning only removes |
| ContactHandlers.ValidatePhoneIgnoresNoise | app/bot/handlers/contact.py:68-74 | characters other than digits and '+' do not change the verdict |
| ContactHandlers.ValidatePhoneForms | app/bot/handlers/contact.py:68-74 | ten digits are accepted bare and after "7", "8" or "+7"; "+8" and nine digits are refused |
| ContactHandlers.NormalizePhoneAsWritten | app/bot/handlers/contact.py:387-391 | the normalisation as written always starts with "+7" |
| ContactHandlers.AsWrittenDoublesCountryCode | app/bot/handlers/contact.py:387-391 | a valid `7XXXXXXXXXX` becomes `+77XXXXXXXXXX`, which is no longer valid |
| ContactHandlers.AsWrittenDropsSubscriberDigit | app/bot/handlers/contact.py:387-391 | a valid ten-digit number starting with 8 loses that digit and is no longer valid |
| ContactHandlers.NormalizeAsWrittenIdempotent | app/bot/handlers/contact.py:387-391 | normalising twice as written is normalising once |
| ContactHandlers.NormalizePhone | app/bot/handlers/contact.py:387-391 | the normalisation always starts with "+7" |
| ContactHandlers.NormalizeValidPhone | app/bot/handlers/contact.py:378-391 | a valid number normalises to "+7" and its ten subscriber digits, again valid |
| ContactHandlers.NormalizeIdempotent | app/bot/handlers/contact.py:387-391 | normalising a normalised number changes nothing |
| ContactHandlers.NormalizeDiffersOnlyOnFindings | app/bot/handlers/contact.py:387-391 | the corrected normalisation differs from the written one only on the two shapes listed under Findings |
| ContactHandlers.AsWrittenAgreesOutsideFindings | app/bot/handlers/contact.py:387-391 | on a matching number of neither finding shape the written steps give "+7" and the ten subscriber digits |
| ContactHandlers.CancelIgnoresCase | app/bot/handlers/contact.py:184 | cancelling does not depend on letter case |
| ContactHandlers.IsCancelWord | app/bot/handlers/contact.py:184 | only a stripped reply of 6, 8 or 10 characters can cancel |
| ContactHandlers.ButtonContactName | app/bot/handlers/contact.py:237-239 | without a last name the first name; with one, a trimmed text no longer than both names and a space |
| ContactHandlers.ButtonContactNameJoins | app/bot/handlers/contact.py:237-239 | names without surrounding whitespace are joined by one space; without a first name only the last name is left |
| ContactHandlers.WithContact | app/bot/handlers/contact.py:399-402 | only the user's row changes, and only in its two contact columns |
| ContactHandlers.WithContactGivesContact | app/services/subscription_service.py:130 | once a non-empty name and phone are written the user has a contact |
| ContactHandlers.SaveContact | app/bot/handlers/contact.py:397-402 | saved exactly when the user exists; the users table becomes `WithContact`; edges untouched |
| ContactHandlers.RequestContactInfo | app/bot/handlers/contact.py:105-117 | the state becomes "waiting for name" |
| ContactHandlers.RequestSimpleContact | app/bot/handlers/contact.py:120-129 | the state becomes "waiting for simple contact" |
| ContactHandlers.HandleRequestContactCallback | app/bot/handlers/contact.py:77-89 | with a sender the state becomes "waiting for name"; without one nothing changes |
| ContactHandlers.ContactCommandGate | app/bot/handlers/contact.py:144-168 | no user, not a participant, and contact already given are refused; only a participant without contact is asked |
| ContactHandlers.HandleContactCommand | app/bot/handlers/contact.py:132-171 | the gate's verdict, and the name request exactly when it asks |
| ContactHandlers.HandleContactName | app/bot/handlers/contact.py:174-195 | a cancel word clears the entry; a stripped name under 2 characters is refused with the state kept; otherwise the name is stored and the phone is awaited |
| ContactHandlers.StoredName | app/bot/handlers/contact.py:393-394 | the value stored under the name key when there is one, "" otherwise |
| ContactHandlers.HandleContactPhone | app/bot/handlers/contact.py:359-429 | cancel clears; an invalid phone keeps everything; a valid one stores the name and the normalised phone on the user and clears the entry; the stored phone is valid, and equals the normalisation as written except on the two shapes under Findings |
| ContactHandlers.HandleContactFromButton | app/bot/handlers/contact.py:205-356 | no phone is refused; outside an entry nothing happens; otherwise name and normalised phone are saved, equal to the normalisation as written except on the two shapes under Findings, the entry cleared, and the sheet sync started as the state requires |
| SheetsService.FirstKeyRow | app/services/google_sheets_service.py:145-159 | the first row from `start` whose third cell is the id, none exactly when no row has it |
| SheetsService.ScanRows | app/services/google_sheets_service.py:156-159 | the loop finds what `FirstKeyRow` finds |
| SheetsService.HeaderHasNoKey | app/services/google_sheets_service.py:92-104 | the header row never matches an id |
| SheetsService.SearchSkipsHeader | app/services/google_sheets_service.py:145-159 | on a sheet with the header, searching the whole column equals searching the data rows |
| SheetsService.FallbackSearchAgrees | app/services/google_sheets_service.py:152-159 | when the column search finds nothing, the data-row search finds nothing either |
| SheetsService.LocateRow | app/services/google_sheets_service.py:145-159 | the row both searches settle on is the first row with the id |
| SheetsService.ColumnA | app/services/google_sheets_service.py:180 | each row's first cell, "" for an empty row; by `SheetsService.NextSerialIgnoresTrailingBlanks` the blanks after the last filled cell, absent from `col_values(1)`, do not change the serial |
| SheetsService.MaxSerial | app/services/google_sheets_service.py:184-187 | the largest numeric serial, or 0, and it is one of them |
| SheetsService.NextSerial | app/services/google_sheets_service.py:181-188 | a numeric serial |
| SheetsService.NextSerialIsFresh | app/services/google_sheets_service.py:181-188 | the new serial is larger than every numeric serial under the header, one more than their maximum |
| SheetsService.MaxSerialIgnoresBlanks | app/services/google_sheets_service.py:185-187 | blank cells never change the largest serial |
| SheetsService.NextSerialIgnoresTrailingBlanks | app/services/google_sheets_service.py:180-188 | blank cells at the end of the column do not change the next serial |
| SheetsService.MaxSerialStep | app/services/google_sheets_service.py:185-187 | one loop step keeps the maximum of what has been seen |
| SheetsService.NextSerialNumber | app/services/google_sheets_service.py:178-188 | the loop computes `NextSerial` |
| SheetsService.ExistingSerial | app/services/google_sheets_service.py:172-175 | a numeric serial is kept, otherwise the row's position under the header |
| SheetsService.FlagCell | app/services/google_sheets_service.py:212-213 | "Да" or "Нет" |
| SheetsService.TelegramName | app/services/google_sheets_service.py:162-166 | empty exactly without a first name; the last name only after a first name |
| SheetsService.BuildRow | app/services/google_sheets_service.py:204-215 | ten cells, the serial first and the id third |
| SheetsService.BuildRowReadsBack | app/services/google_sheets_service.py:204-215 | the id, the flags and the counter read back from the row |
| SheetsService.OverwriteRow | app/services/google_sheets_service.py:217-220 | the first ten cells are the new row, later cells stay |
| SheetsService.Upserted | app/services/google_sheets_service.py:217-234 | a matching row is overwritten in place with every other row kept; otherwise one row is appended; the id is in the row written |
| SheetsService.UpsertKeepsOneRowPerUser | app/services/google_sheets_service.py:217-234 | an upsert never adds a second row for the user |
| SheetsService.AddContact | app/services/google_sheets_service.py:113-238 | succeeds exactly when enabled, with name and phone, and with a worksheet; then the rows become `Upserted`; otherwise nothing changes |
| SheetsService.SetIfPresent | app/services/google_sheets_service.py:268-277 | a cell is written only when a value is given and the row reaches it |
| SheetsService.SheetWidth | app/services/google_sheets_service.py:259 | no row is wider, and some row is that wide |
| SheetsService.PadRow | app/services/google_sheets_service.py:259 | the row followed by blank cells up to the width |
| SheetsService.PatchRow | app/services/google_sheets_service.py:264-277 | columns 6 to 10 are written where given and present; nothing else changes |
| SheetsService.UpdateContact | app/services/google_sheets_service.py:240-287 | only the first data row with the id is patched, as `get_all_values` returns it filled to the sheet's width; success exactly when one exists; the row count and the user's row count stay |
| SheetsService.UpdateReachesEveryColumn | app/services/google_sheets_service.py:264-277 | under a full-width header every given value lands in its column, however short the user's row |
| AdminService.CollectAdminStats | app/services/admin_service.py:34-44 | user counts from the users table, confirmed referrals counted in the referrals table; bounds between them, and equality with the counter sum in a consistent store |
| AdminService.StatsLines | app/services/admin_service.py:47-54 | five lines, the header first |
| AdminService.ReadLabelledLine | app/services/admin_service.py:50-53 | the number after a caption reads back as itself |
| AdminService.FormatStatsMessage | app/services/admin_service.py:47-54 | the message splits into the header and the four labelled counts in order, and the counts read back |
| AdminService.FormatStatsMessageInjective | app/services/admin_service.py:47-54 | different statistics give different messages |
| AdminService.StatsMessageContainsCounts | tests/test_admin_commands.py:12-24 | the message contains each labelled count |
| AdminService.DeliveredToMeansRetrySucceeds | app/services/admin_service.py:100-113 | a chat counts as delivered exactly when the retry loop with its defaults returns a value |
| AdminService.DeliveredCount | app/services/admin_service.py:96-117 | at most the number of ids |
| AdminService.Tally | app/services/admin_service.py:96-117 | delivered plus failed is the number of ids |
| AdminService.BroadcastToAllUsers | app/services/admin_service.py:87-117 | every id is sent to once, in order, and the counts are the tally |
| AdminService.AllAcceptedAllDelivered | app/services/admin_service.py:99-107 | when every first send succeeds, every id is delivered |
| AdminService.AllRefusedNoneDelivered | app/services/admin_service.py:108-113 | when every first send is refused, nobody is delivered |
| AdminHandlers.IsAdminUserMeans | app/bot/handlers/admin.py:24-25 | admin exactly for a present id in the list, never for none |
| AdminHandlers.ListedIdsAreAdmins | app/config.py:41-45 | with the list loaded from text, exactly the listed ids are admins |
| AdminHandlers.ExtractBroadcastPayload | app/bot/handlers/admin.py:80-82 | a stripped text, empty when the message has no space |
| AdminHandlers.AfterFirstOfCommand | app/bot/handlers/admin.py:81 | the text after the first space of a command is the rest |
| AdminHandlers.PayloadOfCommand | app/bot/handlers/admin.py:80-82 | `/broadcast <text>` gives the text stripped |
| AdminHandlers.HandleStats | app/bot/handlers/admin.py:37-49 | refused exactly for a non-admin; otherwise the formatted statistics |
| AdminHandlers.HandleExport | app/bot/handlers/admin.py:52-66 | refused exactly for a non-admin; otherwise the export file |
| AdminHandlers.PlanBroadcast | app/bot/handlers/admin.py:77-86 | refused for a non-admin, usage for an empty payload, otherwise a send of the payload |
| AdminHandlers.BroadcastOutcome | app/bot/handlers/admin.py:84-102 | sends to every user only for a send plan, with the tally; nobody otherwise |
| AdminHandlers.HandleBroadcast | app/bot/handlers/admin.py:69-102 | the reply and recipients are the outcome of the plan over all user ids |
| Config.CleanedItems | app/config.py:42 | no more pieces than parts, none empty |
| Config.CleanedItemIsStripped | app/config.py:42 | every piece kept is stripped |
| Config.ParseItem | app/config.py:45 | a number as itself, a string stripped and read |
| Config.ParseItems | app/config.py:50-51 | every item read in order, or nothing when one fails |
| Config.ParseAdminIds | app/config.py:36-56 | a number gives itself; other types are an error; a list succeeds exactly when non-empty with every item readable, in order; success has at least one id |
| Config.CleanedOfTrimmed | app/config.py:42 | stripped non-empty pieces are kept as they are |
| Config.ParseAdminIdsRoundTrip | app/config.py:41-45 | comma-joined ids parse back to the same ids in order |
| Config.ParseIntTexts | app/config.py:45 | the decimal texts of ids read back as the ids |
| Config.CleanedOfBlank | app/config.py:42-44 | blank pieces all drop out |
| Config.BlankListRejected | app/config.py:43-44 | commas and whitespace only is the empty-list error |
| Config.ValidateChannelId | app/config.py:58-63 | accepted exactly when the decimal text starts with "-100", unchanged |
| Config.AcceptedChannelIdIsNegative | app/config.py:61 | an accepted id is negative with digits starting "100" |
| Config.ValidateWebhookUrl | app/config.py:65-70 | refused exactly in webhook mode without a URL |
| Config.LoadSettings | app/config.py:36-70 | loaded exactly when all three validators pass; then at least one admin, a "-100" channel id, and a URL in webhook mode |
| ChannelUrl.StripLeading | app/main.py:25 | every leading character `c` removed, nothing else |
| ChannelUrl.DeriveChannelUrl | app/main.py:23-26 | the private-channel prefix followed by the id's suffix |
| ChannelUrl.ChannelSuffixRestoresId | app/main.py:23-26 | putting "-100" back restores the id when it had the prefix; otherwise the suffix is the unsigned digits; the suffix is all digits |
| ChannelUrl.ResolveChannelUrl | app/main.py:29-44 | configured URL first, then the public username, then the invite link, the derived link last; never empty |
| Common.Trim | app/services/referral_service.py:27 | no longer than the input, and either empty or stripped at both ends |
| Common.TrimIsSlice | app/services/referral_service.py:27 | the stripped text is a contiguous slice of the input |
| Common.TrimIdempotent | app/bot/handlers/admin.py:80-82 | stripping twice is stripping once |
| Common.ParseInt | app/services/referral_service.py:26-29 | succeeds exactly for an optional sign followed by ASCII digits |
| Common.ParseIntOfIntToString | app/services/referral_service.py:26-29 | `int(str(i)) == i` |
| Common.ToLower | app/bot/handlers/contact.py:184 | lower-cases character by character, keeping the length |
| Common.TrimToLower | app/bot/handlers/contact.py:184 | lower-casing commutes with stripping |
| Common.AfterFirst | app/bot/handlers/admin.py:81 | the text after the first separator, or "" without one |
| Common.SplitJoin | app/config.py:42 | splitting the join of separator-free parts gives the parts back |

## Left out

- Concurrency and transactions: row locks, `session.begin()` and the
  insert-on-conflict races. Each service call is one atomic method on a
  sequential store. The race on the referral edge appears only as "an edge
  already exists". `ReferralService.LinkReferrer` keeps the adopt branch,
  but without concurrent transactions a consistent store never reaches it.
- The ORM identity map: every load gives a fresh object. The confirmation
  never loads one id twice, because an edge never refers its own user.
- Dead defensive branches are kept as branches with no effect. These are
  the self-referral found at confirmation and a missing referrer row. The
  "unable to load after upsert" error is left out, because no reachable
  state leads to it.
- Messaging transport is left out as I/O: routers, webhook and polling
  setup, startup and shutdown in `app/main.py`, keyboards, health
  endpoints, message wording and message edits.
- Background and async machinery is left out: `asyncio.sleep` (including
  the 0.05 s pause between broadcast messages), `create_task` and
  `run_in_executor`. The spreadsheet sync is therefore a flag in the
  model's answer. `SheetsService.AddContact` models what that sync does.
- Floats and clocks:
  - delays are whole seconds;
  - timestamps are integer microseconds, so `ceil` becomes ceiling
    division;
  - `datetime.now()` is the parameter `now`;
  - the sheet's date cell is a parameter.
- The gspread client is left out: its setup, its exceptions, and the
  fallback numbering that runs only when `col_values` raises. Opening the
  worksheet is the nullable parameter `ws`.
- The CSV content of `/export`, the SHA-256 fallback webhook secret and
  pydantic's environment loading are left out as foreign code.
  `AdminReply.ExportDocument` stands for the file.
- `scripts/sync_to_sheets.py`, the alembic migrations, logging and the
  referrer-notification send are left out. The send's failures are
  swallowed, so the model records only which wording is chosen.
- Common.ParseInt: models `int()` on ASCII digits with an optional sign. It
  does not model underscores or non-ASCII digits.
- Common.ToLower: models `str.lower()` only on Latin and Cyrillic capitals,
  which covers the cancel words.
- Common.IsDigitString: models `str.isdigit()` on ASCII digits only.
- Config.ParseAdminIds: list items are ints or strings. It does not model
  floats, and it does not model `bool` values treated as ints.
- Config.LoadSettings: reports the first failing validator. Pydantic
  collects every field error.
- Common.Trim: its own contract states only the length bound and the
  stripped ends. `Common.TrimIsSlice`, `Common.TrimLeftSkipsBlank` and
  `Common.TrimRightSkipsBlank` give the exact content.
- AdminHandlers.ExtractBroadcastPayload: its own contract states the
  stripped ends and the no-space case. The full content is given by
  `AdminHandlers.PayloadOfCommand`, for a command word without
  whitespace.
- ContactHandlers.ButtonContactName: its contract with a last name states
  a length bound and stripped ends. The exact join is given by
  `ContactHandlers.ButtonContactNameJoins`, for names without surrounding
  whitespace.
- Config.CleanedItems: its own contract states the count and that no piece
  is empty. `Config.CleanedItemIsStripped` states that pieces are stripped.
- ContactHandlers.HandleContactFromButton: the warning logged when the
  contact's user id differs from the sender is left out. It has no other
  effect.
- ContactHandlers.CleanPhone: keeps the ASCII digits and '+'. Python's
  `\d` also matches the other Unicode decimal digits, which the model
  removes.
- ContactHandlers.HandleContactPhone: stores the corrected `NormalizePhone`.
  The program as written stores `NormalizePhoneAsWritten`. The two differ
  only on the two shapes under Findings, and the handler's contract says
  so. Its clause that the stored phone is valid holds for the corrected
  normalisation only.
- ContactHandlers.HandleContactFromButton: stores the corrected
  `NormalizePhone`, as above. On every other number the stored phone is the
  one the code as written stores.
- Models.User: `referralsConfirmed` is an unbounded `nat`. The column is a
  32-bit `INTEGER`, and the overflow past 2^31 - 1 is not modelled.
- SheetsService.UpdateContact: the patched row is stored filled with blank
  cells up to the sheet's width. Blank cells after a row are the same sheet
  content as no cells.
- SheetsService.AddContact: cells are modelled as the text sent. The row is
  written with `value_input_option="USER_ENTERED"`, and the sheet's parsing
  of typed input is not modelled. A phone such as "+79123456789" is stored
  as a number without its "+". The serial, id and counter cells become
  numbers, and the date cell may become a date. The id lookup by
  `FirstKeyRow` holds only while the stored number displays as `str(id)`.
- SheetsService.UpdateContact: cells are modelled as the text sent. Its
  `update_cell` writes are also parsed as typed input, which is not
  modelled. A "+7..." phone loses its "+" and a counter becomes a number.
  The id lookup by `FirstKeyRow` holds only while the stored number
  displays as `str(id)`.
- Referral links in the contact replies are left out. Their rule is
  `SubscriptionHandler.ReferralLink`.

## Findings

| source | as written | input that shows it | evidently intended | confidence | as-written member | corrected member |
|---|---|---|---|---|---|---|
| app/bot/handlers/contact.py:387-391 | a validated number with country code `7` and no `+` gets `+7` put in front | `79123456789` passes validation and becomes `+779123456789`, which fails it | `+79123456789` | high (not executed) | ContactHandlers.AsWrittenDoublesCountryCode | ContactHandlers.NormalizeValidPhone |
| app/bot/handlers/contact.py:387-391 | a leading `8` is always taken for the trunk prefix, even on a bare ten-digit number | `8005553535` passes validation as ten digits and becomes `+7005553535`, eleven characters that fail it | `+78005553535` | medium (not executed) | ContactHandlers.AsWrittenDropsSubscriberDigit | ContactHandlers.NormalizeValidPhone |

The same three lines appear again at `app/bot/handlers/contact.py:248-252`,
for contacts shared through the button. That path does not validate the
number first. `ContactHandlers.NormalizePhone` is the corrected
normalisation, and the model's two handlers store it rather than the
written one. For a number that passes validation it keeps the ten
subscriber digits. For any other text it does what the code as written
does. `ContactHandlers.NormalizeDiffersOnlyOnFindings` proves that the two
normalisations differ only on the two shapes above. Each handler's
contract states that its stored phone equals the written normalisation
outside those shapes.
