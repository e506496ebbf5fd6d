# OttoHello visitor kiosk: the visitor-session core in Dafny

OttoHello is a reception kiosk. A visitor checks in with a name, a reason
for the visit, the person they are meeting, an optional phone number and a
photo. The visit is stored in a hosted record store, and the host is told
over Slack. A late arrival records a name and a reason. A departing visitor
is found by a search over the visitors this kiosk checked in and is checked
out. This project models the logic behind those flows:

- `slack_directory.dfy`, `slack_utils.dfy` model the Slack directory:
  - the member filter and its projection;
  - the roster load with its 12-entry demo fallback;
  - the three-stage recipient matcher;
  - the choice of delivery channel;
  - the configuration predicates.
- `visitor_storage.dfy` models the kiosk's local visitor cache as a class with a `seq` field. Its three updates are an idempotent add, a checkout by id and a 24-hour sweep.
- `check_in_form.dfy`, `late_check_in_form.dfy` and `check_out_form.dfy` model the three forms:
  - their state is class fields;
  - their handlers are methods;
  - their pure parts are functions: the validation cascade, the stored row, the suggestion filter, the search, `formatPurpose` and `getVisitDuration`.
- `app.dfy` models the screen controller: five screens, an optional confirmation and the cache.
- `visitor_types.dfy` models the reason enumeration and the picker table.
- `api_fetch_slack_users.dfy` models the serverless roster endpoint and its status codes.
- `text.dfy`, `seqs.dfy`, `wrappers.dfy` and `record_store.dfy` are shared helpers:
  - the JavaScript string operations the code relies on (`trim`, `toLowerCase`, `includes`, `split`);
  - first-hit search and order-keeping filter over sequences;
  - `Option`;
  - the outcome of a record-store insert.

Every remote call is a parameter describing how the call ended (record store, Slack, `fetch`). So are the build-time environment and the current time. Time is an integer number of milliseconds.

Some behaviour of the code is easy to misread; the model follows the code:

- The matcher does not return "not found" for a blank query. Every string contains the empty string, so a blank query resolves to the first directory entry (`SlackUtils.BlankQueryFindsSomeone`).
- Stage 1 of the matcher also compares the real name, not only the handle and the display name.
- With the roster `[Jane Smith, John Doe]`, the query `"j doe"` resolves to Jane Smith, not John Doe. Stage 3 returns the first user with any word containing any part, and `"jane"` contains `"j"` (`SlackUtils.ResolveInitialAndSurname`).
- An unreadable directory yields the 12-entry demo roster, not an empty one.
- `sendSlackNotification` answers true when no channel is configured or when every channel fails. It answers false only when a call throws.
- Checkout is not first-wins. A second checkout of the same id stamps the record again and again returns it (`VisitorStorage.CheckOutOverwrites`).
- The late check-in form does not trim its fields. A name made only of spaces is accepted.
- The app caches a check-in only after the notification step. The cached record holds only the id, the name and the times.

## Model

| member | source | states |
|---|---|---|
| VisitorTypes.ParseReason | src/types/visitor.ts:13 | a string reads as a reason exactly when it is that reason's value |
| VisitorTypes.ParseReasonValue | src/types/visitor.ts:13 | every reason's value reads back as that reason |
| VisitorTypes.ReasonValuesDistinct | src/types/visitor.ts:13 | the five values are pairwise distinct |
| VisitorTypes.ReasonOptionsComplete | src/types/visitor.ts:15-21 | the picker table has five entries, lists each reason once at its declaration position, and no two entries share a value |
| Text.Trim | src/components/CheckInForm.tsx:191 | `trim` leaves no whitespace at either end, never lengthens, and is empty exactly for all-whitespace input |
| Text.TrimSlice | src/components/CheckInForm.tsx:191 | what `trim` keeps is one slice of the input with only whitespace before and after it |
| Text.TrimIdempotent | src/components/CheckInForm.tsx:239 | trimming twice is trimming once |
| Text.Lower | src/utils/slackUtils.ts:180 | `toLowerCase` maps each character on its own: ASCII capitals to their small letters, everything else kept |
| Text.LowerIdempotent | src/utils/slackUtils.ts:180 | lower-casing twice is lower-casing once |
| Text.ContainsIff | src/utils/slackUtils.ts:193 | `includes` holds exactly when the substring occurs at some index |
| Text.ContainsEmpty | src/utils/slackUtils.ts:193 | every string includes the empty string |
| Text.Split | src/utils/slackUtils.ts:202 | `split` on one character gives one more piece than there are separators, none containing it |
| Text.JoinSplit | src/utils/slackUtils.ts:202 | joining the pieces back with the separator restores the string |
| Text.NatToStringRoundTrip | src/components/CheckOutForm.tsx:126 | the decimal rendering of a number reads back as that number |
| SlackDirectory.RosterFilter | src/utils/slackUtils.ts:47-60 | the roster is the kept members, in order, each projected to `{id, name, real_name, profile}` |
| SlackDirectory.RosterFilterKeepsExactly | src/utils/slackUtils.ts:48-54 | a member appears in the roster exactly when it is not deleted, not a bot, not an app user, has a real name and is not `slackbot` |
| SlackDirectory.RosterFilterRealNames | api/fetchSlackUsers.ts:34-40 | each roster entry's real name is its member's own non-empty `real_name`, and no entry is `slackbot` |
| SlackDirectory.RosterFilterAppend | src/utils/slackUtils.ts:47-60 | filtering a concatenation concatenates the rosters, so member order is kept |
| SlackUtils.FetchSlackUsers | src/utils/slackUtils.ts:29-81 | with a bot token and an ok reply carrying members, the filtered roster; in every other case, including a throw, the 12-entry demo roster |
| SlackUtils.SendSlackNotification | src/utils/slackUtils.ts:83-176 | the direct message is tried exactly with a bot token; the webhook exactly with a hooks URL when there is no bot token or the direct message answered `ok: false`, so not after a direct message that threw or delivered; direct message first; the answer is false exactly when a tried channel threw |
| SlackUtils.IsSlackConfigured | src/utils/slackUtils.ts:216-222 | configured iff the token starts with `xoxb-` or the webhook with `https://hooks.slack.com/` |
| SlackUtils.GetSlackStatus | src/utils/slackUtils.ts:225-237 | `hasBot` and `hasWebhook` are the two prefix tests |
| SlackUtils.StatusAgreesWithConfigured | src/utils/slackUtils.ts:220-233 | the status panel's `configured` equals `isSlackConfigured()` and is `hasBot or hasWebhook` |
| SlackUtils.FindAt | src/utils/slackUtils.ts:183-187 | a stage's `find` answers some user exactly when some user matches at that stage, and then the first one |
| SlackUtils.FindSlackUserByName | src/utils/slackUtils.ts:179-213 | the answer is in the roster; it is the first exact match if any, else the first substring match if any, else the first word match when the query has several parts, else none |
| SlackUtils.TokenStageNeedsSpace | src/utils/slackUtils.ts:202-203 | the word stage runs exactly when the cleaned query contains a space |
| SlackUtils.BlankQueryFindsSomeone | src/utils/slackUtils.ts:180-194 | a blank query against a non-empty roster finds a user |
| SlackUtils.FirstUserWins | src/utils/slackUtils.ts:183-209 | when the first user matches at the first stage anyone matches at, it is the answer |
| SlackUtils.FirstExactWins | src/utils/slackUtils.ts:183-189 | the first user with an exact match is the answer, whatever earlier users match at the later stages |
| SlackUtils.AnnIsSubstringOfFirst | src/utils/slackUtils.ts:192-197 | in the roster `[Jo Ann, Ann]` the query `"Ann"` also matches the first user at the substring stage, so the exact stage decides |
| SlackUtils.ExactBeatsEarlierSubstring | src/utils/slackUtils.ts:183-189 | an exact match later in the roster beats an earlier substring match |
| SlackUtils.ResolveExactName | src/utils/slackUtils.ts:183-189 | `"jane smith"` resolves to Jane Smith at the exact stage |
| SlackUtils.ResolveSubstring | src/utils/slackUtils.ts:192-199 | `"smi"` resolves to Jane Smith at the substring stage |
| SlackUtils.ResolveNobody | src/utils/slackUtils.ts:179-213 | `"zzz"` resolves to no one |
| SlackUtils.ResolveInitialAndSurname | src/utils/slackUtils.ts:202-209 | `"j doe"` resolves to Jane Smith, the first user with a word containing a query part |
| VisitorStorage.LoadVisitors | src/hooks/useVisitorStorage.ts:16-24 | the initial list is the parsed list, or empty when the key is absent or does not parse |
| VisitorStorage.WithVisitor | src/hooks/useVisitorStorage.ts:35-49 | the add keeps the old list as a prefix and contains the id afterwards; it is unchanged when the id was present, else one open record is appended |
| VisitorStorage.StampCheckOut | src/hooks/useVisitorStorage.ts:55-59 | length, order and ids are kept; records with the id get the new checkout time; the others are unchanged |
| VisitorStorage.FindById | src/hooks/useVisitorStorage.ts:61 | none exactly when the id is absent, else the first record of the list with that id |
| VisitorStorage.SweepExpired | src/hooks/useVisitorStorage.ts:65-71 | keeps exactly the records checked in strictly after one day before now |
| VisitorStorage.AddIdempotent | src/hooks/useVisitorStorage.ts:45-46 | a second add of the same id changes nothing |
| VisitorStorage.AddKeepsIdsUnique | src/hooks/useVisitorStorage.ts:43-49 | the add keeps ids unique |
| VisitorStorage.AddThenFind | src/hooks/useVisitorStorage.ts:43-49 | after an add, the id finds the earlier record if there was one, else the new open record, whatever duplicate ids the list already holds |
| VisitorStorage.CheckOutAbsentIsIdentity | src/hooks/useVisitorStorage.ts:55-59 | checking out an absent id changes nothing |
| VisitorStorage.CheckOutOverwrites | src/hooks/useVisitorStorage.ts:56-58 | a second checkout overwrites the first timestamp |
| VisitorStorage.CheckOutKeepsIdsUnique | src/hooks/useVisitorStorage.ts:55-59 | checkout keeps ids unique |
| VisitorStorage.CheckOutClosesFoundRecord | src/hooks/useVisitorStorage.ts:55-61 | with unique ids, checkout changes exactly the returned record, by setting its checkout time |
| VisitorStorage.SweepDropsBoundary | src/hooks/useVisitorStorage.ts:66-69 | a record checked in exactly one day ago is dropped |
| VisitorStorage.SweepHours | src/hooks/useVisitorStorage.ts:66-69 | a record 23 hours old is kept and one 25 hours old is dropped |
| VisitorStorage.SweepAppend | src/hooks/useVisitorStorage.ts:68-70 | the sweep works piecewise, so survivors keep their order |
| VisitorStorage.SweepLater | src/hooks/useVisitorStorage.ts:65-70 | a later sweep subsumes an earlier one, so sweeping twice at one time is sweeping once |
| VisitorStorage.SweepKeepsJustAdded | src/hooks/useVisitorStorage.ts:36-69 | a visitor added now survives a sweep now |
| VisitorStorage.VisitorStore.constructor | src/hooks/useVisitorStorage.ts:16-76 | the state is the loaded list after the mount sweep |
| VisitorStorage.VisitorStore.AddVisitor | src/hooks/useVisitorStorage.ts:35-50 | the list becomes `WithVisitor` of the old list, and unique ids stay unique |
| VisitorStorage.VisitorStore.CheckOutVisitor | src/hooks/useVisitorStorage.ts:52-62 | returns the record found before the update, and stamps the list; unique ids stay unique |
| VisitorStorage.VisitorStore.CleanupOldVisitors | src/hooks/useVisitorStorage.ts:65-71 | the list becomes the sweep of the old list |
| RecordStore.StoredId | src/components/CheckInForm.tsx:231 | an id exactly when the insert returned a row with a non-empty id |
| CheckIn.Validate | src/components/CheckInForm.tsx:191-210 | the reported error's check fails and every earlier check passes; none is reported exactly when all five checks pass |
| CheckIn.ErrorMessagesDistinct | src/components/CheckInForm.tsx:192-208 | each failed check shows its own message |
| CheckIn.Purpose | src/components/CheckInForm.tsx:221 | for `other` the stored purpose is the trimmed free text; any other reason is stored as a value that reads back as that reason |
| CheckIn.OptionalPhone | src/components/CheckInForm.tsx:224 | the phone is absent exactly when it trims to empty, else it is the trimmed text |
| CheckIn.BuildRow | src/components/CheckInForm.tsx:219-226 | no contract of its own: what a valid form stores in the name, purpose, host, phone and photo fields is stated by `CheckIn.ValidRowName`, `CheckIn.ValidRowHost`, `CheckIn.ValidRowPhone`, `CheckIn.ValidRowListedReason` and `CheckIn.ValidRowOtherReason` |
| CheckIn.ValidRowName | src/components/CheckInForm.tsx:220-223 | a valid form stores the trimmed name, non-blank, and a photo |
| CheckIn.ValidRowHost | src/components/CheckInForm.tsx:222 | a valid form stores the trimmed host, non-blank |
| CheckIn.ValidRowPhone | src/components/CheckInForm.tsx:224 | the stored phone is absent or non-blank and trimmed |
| CheckIn.ValidRowListedReason | src/components/CheckInForm.tsx:221 | a listed reason reads back from the stored purpose |
| CheckIn.ValidRowOtherReason | src/components/CheckInForm.tsx:221 | for `other`, the stored purpose is `Trim` of the free text, and it is non-blank with no outer whitespace |
| CheckIn.InsertFailureMessage | src/components/CheckInForm.tsx:231-264 | a failed insert shows the store's non-empty message, a thrown error's message, or one of the two defaults |
| CheckIn.NotifyOutcome | src/components/CheckInForm.tsx:236-256 | idle exactly when Slack is not configured; with Slack configured, an error when the host is unknown or the send throws, and success for a known host and a send that does not throw |
| CheckIn.KnownHostIsNotified | src/components/CheckInForm.tsx:236-247 | with Slack configured and a known host, success exactly when no call of the send throws; so success when every channel declines, and success after a delivered direct message whatever the webhook would do |
| CheckIn.Suggestions | src/components/CheckInForm.tsx:110-113 | exactly the directory entries whose real name or handle contains the value case-insensitively |
| CheckIn.SuggestionsAppend | src/components/CheckInForm.tsx:110-113 | the suggestions for two parts of the directory are the first part's followed by the second's, so directory order is kept |
| CheckIn.CheckInForm.constructor | src/components/CheckInForm.tsx:33-49 | empty form, no photo, idle, no suggestions |
| CheckIn.CheckInForm.LoadSlackUsers | src/components/CheckInForm.tsx:94-104 | the directory is the live roster or the demo roster, and nothing else changes |
| CheckIn.CheckInForm.HandlePersonToMeetChange | src/components/CheckInForm.tsx:106-119 | the host field takes the value; for more than one character the suggestions are recomputed and shown iff non-empty; otherwise they are hidden |
| CheckIn.CheckInForm.SelectSlackUser | src/components/CheckInForm.tsx:121-124 | the host field takes the entry's real name and the suggestions close |
| CheckIn.CheckInForm.HandleSubmit | src/components/CheckInForm.tsx:183-266 | an invalid form shows the first failing check's message and stores nothing; a valid one stores `BuildRow`; a failed insert shows its message and reports nothing; a stored row reports `{id, trimmed name}` with the notification status |
| CheckIn.CheckInForm.Complete | src/components/CheckInForm.tsx:212-265 | the form stops submitting; a failed insert sets the message; a stored id is reported along with the notification status |
| CheckIn.NotifyHost | src/components/CheckInForm.tsx:236-256 | the status the notification step leaves is `NotifyOutcome` |
| LateCheckIn.Accepts | src/components/LateCheckInForm.tsx:35 | no contract of its own: both fields non-empty as typed, untrimmed; its use is stated by `LateCheckIn.LateCheckInForm.HandleSubmit` and `LateCheckIn.BlankNameAccepted` |
| LateCheckIn.LateFailureMessage | src/components/LateCheckInForm.tsx:53-59 | the store's message (even an empty one), else the default; empty exactly for an error with an empty message |
| LateCheckIn.BlankNameAccepted | src/components/LateCheckInForm.tsx:35 | a name of spaces passes the late form's test although it trims to empty |
| LateCheckIn.LateCheckInForm.constructor | src/components/LateCheckInForm.tsx:19-25 | empty fields, not submitting, no error |
| LateCheckIn.LateCheckInForm.Edit | src/components/LateCheckInForm.tsx:27-28 | the fields take the typed values |
| LateCheckIn.LateCheckInForm.HandleSubmit | src/components/LateCheckInForm.tsx:30-62 | an empty field clears the error and does nothing else; otherwise the row holds the fields as typed; a thrown insert leaves the form submitting; a failed one shows its message; a stored id reports `{id, untrimmed name}` |
| CheckOut.ActiveVisitors | src/components/CheckOutForm.tsx:45 | exactly the records without a checkout time |
| CheckOut.ActiveVisitorsAppend | src/components/CheckOutForm.tsx:45 | the active list of two parts of the cache is the first part's followed by the second's, so cache order is kept |
| CheckOut.FindActive | src/components/CheckOutForm.tsx:53-59 | a found visitor is an active record of the list |
| CheckOut.FindActiveHits | src/components/CheckOutForm.tsx:53-59 | the search finds a visitor exactly when some active visitor is hit by name, phone or host, and what it finds is hit |
| CheckOut.FindActiveFirst | src/components/CheckOutForm.tsx:54-59 | every active visitor listed before the found one is missed |
| CheckOut.CheckedOutNeverFound | src/components/CheckOutForm.tsx:45-59 | after the cache stamps an id, no search finds a record with that id |
| CheckOut.JustAddedIsActive | src/components/CheckOutForm.tsx:45 | a visitor just added to the cache is listed as active |
| CheckOut.Dehyphen | src/components/CheckOutForm.tsx:39 | every hyphen becomes a space and nothing else changes |
| CheckOut.CapitalizeWords | src/components/CheckOutForm.tsx:40 | the first character of each word is upper-cased and nothing else changes |
| CheckOut.FormatPurpose | src/components/CheckOutForm.tsx:35-43 | `other` shows the free text or `Other`; no reason shows the placeholder; any other value is `CapitalizeWords` of the dehyphenated value: same length, no hyphen, equal up to case |
| CheckOut.CaptionsMatchFormatPurpose | src/types/visitor.ts:15-21 | for every reason but `other`, the checkout screen shows the picker's caption |
| CheckOut.JsRem | src/components/CheckOutForm.tsx:124 | the remainder takes the dividend's sign, is below the divisor in size, and is what is left after the quotient rounded toward zero |
| CheckOut.DurationParts | src/components/CheckOutForm.tsx:123-124 | no contract of its own: floored hours and minutes of the span, stated by `CheckOut.DurationPartsBounds` and, through the label, by `CheckOut.ShortVisitLabel` |
| CheckOut.DurationPartsBounds | src/components/CheckOutForm.tsx:123-124 | for a non-negative span: whole hours, minutes below 60, and within a minute of the span |
| CheckOut.VisitDuration | src/components/CheckOutForm.tsx:121-128 | the label ends in `m` and shows hours exactly when the floored hour count is non-zero, which for a negative span is already at -1 ms |
| CheckOut.ShortVisitLabel | src/components/CheckOutForm.tsx:126 | under an hour, the digits before `m` read back as the whole minutes |
| CheckOut.CheckOutForm.constructor | src/components/CheckOutForm.tsx:28-33 | empty search, nothing found, not checking out |
| CheckOut.CheckOutForm.ResetSearch | src/components/CheckOutForm.tsx:130-136 | clears the term, the result, the error and the success flag |
| CheckOut.CheckOutForm.EditSearchTerm | src/components/CheckOutForm.tsx:204-209 | the term takes the value; a blank value resets the search |
| CheckOut.CheckOutForm.HandleSearch | src/components/CheckOutForm.tsx:47-68 | a blank term changes nothing; otherwise exactly one of found and not-found is set, found being the first active hit |
| CheckOut.CheckOutForm.ShowResult | src/components/CheckOutForm.tsx:50-67 | the found visitor or "not found" is shown, exactly one of the two, with any earlier checkout outcome cleared |
| CheckOut.CheckOutForm.SelectVisitor | src/components/CheckOutForm.tsx:361-366 | the clicked visitor is found and its name becomes the term |
| CheckOut.CheckOutForm.HandleCheckOutClick | src/components/CheckOutForm.tsx:74-119 | does nothing without a found visitor or while checking out; otherwise reports the found id exactly when the update succeeded, sets success or the matching message, and stops checking out |
| CheckOut.CheckOutForm.AutoReset | src/components/CheckOutForm.tsx:107-111 | clears the found visitor, the term and the success flag |
| App.Kiosk.constructor | src/App.tsx:22-26 | the welcome screen, no confirmation, and the swept cache |
| App.Kiosk.Render | src/App.tsx:62-105 | each screen renders its own view, the checkout form with the cache's list; a confirmation screen renders its confirmation, or nothing when it has none, which a valid state never has |
| App.Kiosk.HandleCheckInSuccess | src/App.tsx:29-37 | adds the visitor to the cache, then confirms the check-in |
| App.Kiosk.HandleLateCheckInSuccess | src/App.tsx:40-45 | confirms the late check-in and leaves the cache alone |
| App.Kiosk.HandleCheckOut | src/App.tsx:48-54 | stamps the cache; confirms with the cached record's id and name when there was one, else the screen is unchanged |
| App.Kiosk.GoHome | src/App.tsx:56-59 | the welcome screen with no confirmation |
| App.Kiosk.Back | src/App.tsx:67-84 | back from one of the forms shows the welcome screen |
| App.Kiosk.Open | src/App.tsx:100-102 | a welcome action opens its form from the welcome screen |
| RosterEndpoint.Handler | api/fetchSlackUsers.ts:3-49 | 400 without a bot token; Slack's status on an HTTP error; 500 with Slack's error or a default on `ok: false`; 500 on any throw; 200 with the filtered members exactly for a live roster; every error body is non-empty |

## Left out

- I/O is left out: the Slack and record-store requests, `localStorage`, and the message text built with `toLocaleTimeString`. The model keeps only each call's outcome.
- JSON is not modelled. A stored list that parses to something other than an array counts as parsed. Saving the list after each change (src/hooks/useVisitorStorage.ts:27-33) is not modelled, and neither is the storage round trip.
- Text.Lower maps only ASCII letters. `toLowerCase` also folds other scripts.
- Text.Trim: its own contract states the ends and the blank case. That the result is the input's middle slice is stated by `Text.TrimSlice`.
- A string is a sequence of code points, while JavaScript's `.length` counts UTF-16 units. CheckIn.CheckInForm.HandlePersonToMeetChange tests `|value| > 1`: for one character outside the Basic Multilingual Plane, such as an emoji, the source recomputes the suggestions and the model hides them.
- Times are integers of milliseconds. The ISO-string comparison of the sweep is taken as integer comparison.
- The camera and photo capture, the guided tour, and the check-in form's plain field setter `handleInputChange` are UI concerns. They are not modelled.
- The welcome and confirmation screens and the record-store client setup are presentation and configuration. They are not modelled.
- React rendering, state batching and asynchronous scheduling are not modelled. Each handler is one sequential step on the state it was rendered with. The two-second timer is the separate step `CheckOut.CheckOutForm.AutoReset`.
- CheckOut.VisitDuration: for spans of an hour or more, the contract states the label's shape (hours shown, ending in `m`) but not its digits. Under an hour, `CheckOut.ShortVisitLabel` gives the digits.
- CheckOut.FindActive: its own contract states only that a found visitor is active. Which visitor it finds is stated by `CheckOut.FindActiveHits` and `CheckOut.FindActiveFirst`.
