# WhatsApp morning check-in coach, modelled in Dafny

The service receives WhatsApp messages through a Twilio webhook. It finds or
creates the sender's user record, which is keyed by a normalised phone
number, and logs the inbound message. It then tries to read a morning check-in
from the text, `Sleep <hours>[h] | Mood <n> | Energy <n> | Notes: <text>`,
first with a strict regular expression and then with an OpenAI completion
that is asked for JSON. A recognised check-in is stored in the day's
`daily_logs` row, a daily plan is generated and stored in the same row, and
the plan is sent back. Any other message gets a general coaching reply.
Delivered replies are logged as outbound messages.

The project models four parts of the service:

- `checkin.dfy` (module `Checkin`) models `src/services/openai.ts`:
  - the strict parser, with the regex semantics written out (unanchored
    leftmost search, ASCII-only case folding, the JavaScript whitespace set,
    the back-off of the final `\s*(.+)`);
  - the checks and coercions the flexible parser applies to the model's
    answer;
  - the fallback texts of the plan and general replies.
- `db.dfy` (module `Db`) models `src/services/db.ts`:
  - phone normalisation;
  - the users, messages and daily_logs tables, as the class `Database` whose
    sequence fields the store methods update;
  - each store method also as a function on the tables' value (`Tables`).
- `twilio.dfy` (module `Twilio`) models `src/services/twilio.ts`: reading the
  webhook form, and the address a reply is sent to.
- `webhooks.dfy` (module `Webhooks`) models `src/routes/webhooks.ts`:
  - the handler as a method over the store;
  - the same handling as a function `Handled` on the tables, about which the
    lemmas are stated.
- `text.dfy` (module `Text`) holds the string operations these need:
  `trim`, removing whitespace, and removing the first occurrence of a
  substring.
- `wrappers.dfy` holds `Option`.

External inputs are parameters:

- the outcome of each OpenAI call (`LlmOutcome`: the call threw, or it
  returned with or without content);
- `JSON.parse`, as a function from text to a `Decoded` view of the result;
- the Twilio delivery result, as a message id or none;
- the clock, as the ISO timestamp `now`.

## Behaviour worth knowing

The code behaves as follows, and the model follows it:

- **The strict pattern is not anchored.** Text before `Sleep` is skipped
  (`UnanchoredPrefix`).
- **Phone normalisation is not idempotent.** Only the first `whatsapp:` is
  removed, so `whatsapp:whatsapp:1` normalises to `+whatsapp:1` and then to
  `+1` (`DoublePrefixNotIdempotent`). It is idempotent exactly when the result
  holds no `whatsapp:` (`NormalizeIdempotent`).
- **`createDailyLog` overwrites instead of merging.** Both payload columns
  are replaced, and an absent payload is written as null. The handler's
  second write of the day therefore erases the check-in written just before
  it (`CheckinThenPlanLosesCheckin`, `HandledCheckinRow`).
- **The flexible parser's acceptance rule is an OR.** A decoded answer is
  accepted when any number is present or the notes are non-empty; the
  comment at src/services/openai.ts:76 says "along with notes", which the
  condition on line 78 does not require (`NotesAloneAccepted`,
  `NumberAloneAccepted`).
- **Missing numbers become 0**, which cannot be told apart from a reported 0
  (`AbsentMoodLikeZero`).
- **Mood and energy are not range-checked** by the strict parser
  (`AnyMoodAndEnergy`).

## Model

| member | source | states |
|---|---|---|
| Text.Trim | src/services/openai.ts:30 | `trim()`: the result starts and ends with a non-whitespace character, is a contiguous piece of the input, and only whitespace was cut off either end |
| Text.TrimmedUnchanged | src/services/db.ts:43 | trimming a string that already starts and ends with non-whitespace returns it unchanged |
| Text.RemoveSpaces | src/services/db.ts:43 | `replace(/\s+/g, '')`: the result holds no whitespace and is no longer than the input |
| Text.RemoveSpacesConcat | src/services/db.ts:43 | whitespace removal works piece by piece: the result for `a + b` is the result for `a` followed by that for `b` (so the order of the kept characters is the input's) |
| Text.RemoveSpacesChar | src/services/db.ts:43 | one character is kept exactly when it is not whitespace; with `RemoveSpacesConcat` this fixes the result for every input |
| Text.RemoveSpacesCounts | src/services/db.ts:43 | every character other than whitespace occurs in the result as often as in the input, and whitespace not at all |
| Text.RemoveSpacesBetween | src/services/db.ts:43 | three pieces without whitespace, joined by single spaces, come out joined with nothing between them |
| Text.RemoveSpacesExample | src/services/db.ts:43 | `"+1 555 0100"` becomes `"+15550100"` |
| Text.RemoveSpacesUnchanged | src/services/db.ts:43 | removing whitespace from a string without whitespace returns it unchanged |
| Text.RemoveFirst | src/services/db.ts:43 | `replace('whatsapp:', '')`: without an occurrence the input is returned; otherwise the leftmost occurrence is cut out and the length drops by the pattern's length |
| Checkin.DigitsValue | src/services/openai.ts:28-29 | `parseInt(_, 10)` of a digit run: a natural number below 10 to the power of the run's length (its exact value is pinned down by `DigitsValueConcat` and `DecimalDigitsValue`) |
| Checkin.DecimalValue | src/services/openai.ts:27 | `parseFloat` of `digits[.digits]`: exactly the integer spelled by all the digits divided by 10 to the power of the number of fraction digits, so at least the whole part and below the whole part plus one |
| Checkin.DigitsValueConcat | src/services/openai.ts:27-29 | the value of two digit runs written one after the other is the first shifted left by the second's length plus the second |
| Checkin.WholeHours | src/services/openai.ts:27 | without a fraction the hours are exactly the whole number |
| Checkin.DecimalValueExample | src/services/openai.ts:27 | `6.5` is read as six and a half |
| Checkin.Fraction | src/services/openai.ts:24 | `(?:\.\d+)?`: the fraction digits read are digits, and the text is their `.digits` spelling followed by what remains |
| Checkin.SpacedNumber | src/services/openai.ts:24 | `\s+(\d+)`: a non-empty digit capture, followed by a proper suffix of the input |
| Checkin.SleepHours | src/services/openai.ts:24 | `\s+(\d+(?:\.\d+)?)h?`: what follows the hours is a proper suffix of the input |
| Checkin.FractionAndUnit | src/services/openai.ts:24 | the optional `.digits` and `h` after the whole hours leave a suffix of the text |
| Checkin.Separator | src/services/openai.ts:24 | `\s*\|\s*<keyword>` in any letter case: what follows is a proper suffix of the input |
| Checkin.BackOff | src/services/openai.ts:24 | the position the greedy `\s*` gives back to: the last character at or before the bound that `.` matches, and none exists when the result is none |
| Checkin.RestOfLine | src/services/openai.ts:24 | the `(.+)` capture is non-empty and holds no line terminator |
| Checkin.Notes | src/services/openai.ts:30 | the notes are the trimmed capture: trimmed and free of line terminators |
| Checkin.NumberField | src/services/openai.ts:24 | `\s*\|\s*<keyword>\s+(\d+)`: a non-empty digit capture followed by a proper suffix |
| Checkin.NotesField | src/services/openai.ts:24 | `\s*\|\s*Notes:\s*(.+)`: the notes are trimmed and hold no line terminator |
| Checkin.MatchHere | src/services/openai.ts:24-31 | the pattern anchored at one position: non-negative numbers, trimmed single-line notes |
| Checkin.FirstMatch | src/services/openai.ts:25 | `String.match` as a search: none exactly when no start position matches, otherwise the match at the leftmost position that does |
| Checkin.ParseStrict | src/services/openai.ts:22-36 | `parseMorningCheckin`: null exactly when the pattern matches at no position; otherwise non-negative numbers and trimmed notes without line breaks |
| Checkin.MatchHereRender | src/services/openai.ts:24-31 | a match at the start of every well-formed rendering of the template (keywords in any case, whitespace runs where `\s+`/`\s*` stand, optional fraction and `h`, any text after the notes line) reads back its exact hours, mood, energy and trimmed notes |
| Checkin.ParseStrictRender | src/services/openai.ts:22-31 | round trip: `parseMorningCheckin` of every such rendering is its exact hours, mood, energy and trimmed notes |
| Checkin.MatchHereWritten | src/services/openai.ts:24-31 | the converse: every text the pattern matches at its start is a well-formed rendering of the template followed by a tail, and the match is that rendering's reading |
| Checkin.CompactExample | src/services/openai.ts:22-31 | `"Sleep 7h\|Mood 8\|Energy 6\|Notes:ok"` (no spaces around the bars) parses as sleep 7, mood 8, energy 6, notes "ok" |
| Checkin.SleepThenOther | src/services/openai.ts:24 | a keyword not starting with `m` (such as `energy` or `notes:`) right after the hours rules out a match at that start |
| Checkin.OnlyStartCanMatch | src/services/openai.ts:24-26 | a text with no `l` after its second character can only match at its start |
| Checkin.OutOfOrderMiss | src/services/openai.ts:24-26 | `"Sleep 7 \| Energy 6 \| Mood 8 \| Notes: x"` (fields out of order) is not a check-in |
| Checkin.UnanchoredPrefix | src/services/openai.ts:24-25 | the search is unanchored: text before a message changes nothing as long as no match starts inside it |
| Checkin.SleepNeedsSpace | src/services/openai.ts:24 | a match starts with `sleep` in some case followed by whitespace |
| Checkin.NoKeywordNoMatch | src/services/openai.ts:24 | no match can start where `sleep` does not |
| Checkin.NoLetterLNoMatch | src/services/openai.ts:24-26 | a message without the letter `l` in either case never parses |
| Checkin.StrictMiss | src/services/openai.ts:26 | "just tired today" is not a check-in |
| Checkin.DecimalDigitsValue | src/services/openai.ts:28-29 | `parseInt` reads back the decimal digits of every natural number |
| Checkin.AnyMoodAndEnergy | src/services/openai.ts:28-29 | mood and energy are not range-checked: in every well-formed rendering, every natural number written as mood or energy is accepted and read back |
| Checkin.RoundHalfUp | src/services/openai.ts:72-73 | `Math.round`: the integer within half of the value, halves going up |
| Checkin.CompletionText | src/services/openai.ts:60 | `content?.trim() \|\| ''`: exactly the trimmed content when there is content, empty when there is none |
| Checkin.IsolateJson | src/services/openai.ts:64-65 | `/\{[\s\S]*\}/`: from the first `{` to the last `}` when one follows it, otherwise the whole text |
| Checkin.Coerce | src/services/openai.ts:69-85 | null exactly when nothing was decoded, or no number is present and the trimmed notes are empty; otherwise missing numbers are 0, mood and energy rounded, notes trimmed |
| Checkin.FromCompletion | src/services/openai.ts:60-67 | no check-in when the call failed or its trimmed content is empty; otherwise the coerced decoding of the isolated JSON |
| Checkin.ParseFlexible | src/services/openai.ts:38-41 | the strict result whenever it exists; only otherwise the model's answer |
| Checkin.NotesAloneAccepted | src/services/openai.ts:76-85 | notes without any number are accepted, with all numbers 0 |
| Checkin.NumberAloneAccepted | src/services/openai.ts:76-85 | one number without notes is accepted |
| Checkin.AbsentMoodLikeZero | src/services/openai.ts:72-82 | whenever a record is produced, an absent mood gives the same record as a reported 0 |
| Checkin.ZeroMoodAloneAccepted | src/services/openai.ts:77-78 | a lone mood of 0 is accepted while nothing at all is rejected |
| Checkin.ReplyOrFallback | src/services/openai.ts:130-133 | the trimmed completion when non-empty, the empty-answer fallback when empty, the error fallback when the call threw; never empty |
| Checkin.GenerateDailyPlan | src/services/openai.ts:130-133 | the plan text, "Unable to generate a plan right now." for an empty answer, the apology when the call threw; never empty |
| Checkin.GenerateGeneralResponse | src/services/openai.ts:155-158 | the reply text, or the format reminder for an empty answer and a failed call alike; never empty |
| Db.NormalizePhone | src/services/db.ts:42-46 | the normalised phone starts with `+` and holds no whitespace |
| Db.NormalizeBare | src/services/db.ts:42-46 | for input without `whatsapp:`, the result is exactly its non-whitespace characters, behind a `+` unless they already start with one |
| Db.NormalizeExample | src/services/db.ts:42-46 | `"whatsapp:+1 555 0100"` normalises to `"+15550100"` |
| Db.NormalizeCanonical | src/services/db.ts:42-46 | a `+` number without whitespace or `whatsapp:` is left unchanged |
| Db.NormalizeIdempotent | src/services/db.ts:42-46 | normalising twice equals normalising once exactly when the first result holds no `whatsapp:`; a `whatsapp:` left in it is removed by the second pass |
| Db.PrefixedLikeBare | src/services/db.ts:42-46 | `whatsapp:` + number and the bare number normalise alike |
| Db.DoublePrefixOnce | src/services/db.ts:43 | a doubled prefix loses only its first `whatsapp:` |
| Db.PlusPrefixed | src/services/db.ts:43-44 | a `whatsapp:` behind the `+` is removed on the next pass |
| Db.DoublePrefixNotIdempotent | src/services/db.ts:42-46 | normalisation is not idempotent: a doubled prefix changes again on a second pass |
| Db.UserWithPhone | src/services/db.ts:70-71 | the user with exactly that phone, and none exactly when no row has it |
| Db.LogFor | src/services/db.ts:137-145 | the row with that (user, date) key, and none exactly when no row has it |
| Db.Upsert | src/services/db.ts:101-129 | the table grows by one row exactly when the key was absent |
| Db.UpsertRow | src/services/db.ts:108-129 | after a write the key's row holds exactly the given payloads and `now`; an existing row keeps its id and creation time, a new one gets the next id |
| Db.UpsertOthersUnchanged | src/services/db.ts:116-122 | a write leaves every row of another key unchanged in place |
| Db.UpsertOtherKeys | src/services/db.ts:116-129 | lookups of other keys answer as before a write |
| Db.UpdateWhereIdRows | src/services/db.ts:118-121 | `update(...).eq('id', id)`: every row with that id gets the new payloads and `now`, every other row is unchanged, and the row count is kept |
| Db.UpsertIsUpdateById | src/services/db.ts:117-121 | when ids are distinct and the key has a row, the write is the same as updating by that row's id |
| Db.UpsertKeepsKeysUnique | src/services/db.ts:101-129 | at most one row per (user, date) is kept by every write |
| Db.CheckinThenPlanLosesCheckin | src/services/db.ts:108-113 | writing the check-in and then the plan leaves the row with no check-in, the plan, and the same id |
| Db.UserCreated | src/services/db.ts:48-66 | afterwards the phone's user is the returned one: the existing user with the tables unchanged, or a new row with the normalised phone, name, time zone and next id; validity preserved |
| Db.MessageLogged | src/services/db.ts:79-93 | exactly one row is appended with the next id and the given fields; validity preserved |
| Db.DailyLogWritten | src/services/db.ts:95-134 | the table after the upsert; the returned row is the key's row with the given payloads; id and creation time kept or newly assigned; validity preserved |
| Db.UpsertKeepsValid | src/services/db.ts:95-134 | a daily-log write keeps keys unique, ids distinct and ids below the counter |
| Db.Database.constructor | src/services/db.ts:35-40 | a new store is empty, with every id counter at 0, and valid |
| Db.Database.GetUserByPhone | src/services/db.ts:68-77 | the user stored under the normalised phone, none exactly when no user has it |
| Db.Database.CreateUser | src/services/db.ts:48-66 | the store moves as `UserCreated` says and stays valid |
| Db.Database.LogMessage | src/services/db.ts:79-93 | the store moves as `MessageLogged` says and stays valid |
| Db.Database.CreateDailyLog | src/services/db.ts:95-134 | read, branch, then update in place or insert; the store moves as `DailyLogWritten` says and stays valid |
| Db.Database.GetDailyLog | src/services/db.ts:136-149 | the row for the key, none exactly when no row has it |
| Twilio.ParseIncomingMessage | src/services/twilio.ts:50-63 | each of the five fields (From, Body, MessageSid, ProfileName, WaId) is exactly the form's value when its key is present and empty when it is absent; an unreadable form gives all fields empty |
| Twilio.ParseFormOf | src/services/twilio.ts:52-58 | reading the form of a message gives the message back |
| Twilio.ParseIgnoresOtherKeys | src/services/twilio.ts:52-58 | keys other than the five read fields make no difference |
| Twilio.Destination | src/services/twilio.ts:32-34 | the reply address is `whatsapp:` plus exactly the store's normalised phone: a `+` and no whitespace |
| Twilio.DestinationOfPrefixed | src/services/twilio.ts:32-34 | a prefixed sender and the bare number are answered at the same address |
| Twilio.DestinationOfCanonical | src/services/twilio.ts:32-34 | a canonical number only gets `whatsapp:` put in front |
| Webhooks.DateOf | src/routes/webhooks.ts:35 | `toISOString().slice(0, 10)`: the first ten characters of the timestamp, or all of a shorter one |
| Webhooks.ProfileNameOrNull | src/routes/webhooks.ts:21-22 | the trimmed profile name, null exactly when it trims to empty |
| Webhooks.ReplyText | src/routes/webhooks.ts:39-41 | the greeting followed by the plan for a check-in, the general answer otherwise |
| Webhooks.CheckinWrites | src/routes/webhooks.ts:36-38 | the day's two writes leave users and messages unchanged and keep the tables valid |
| Webhooks.CheckinWritesOtherKeys | src/routes/webhooks.ts:36-38 | the day's two writes touch no row of another user or day |
| Webhooks.Handled | src/routes/webhooks.ts:19-46 | the reply is the greeting and plan or the general answer, the sender's phone then finds the returned user, and the tables stay valid |
| Webhooks.HandledSender | src/routes/webhooks.ts:19-23 | an existing sender is kept as is; a new one is appended with the normalised phone, trimmed profile name or null, and "UTC" |
| Webhooks.HandledReplyAddress | src/routes/webhooks.ts:44 | the reply goes to the WhatsApp address of the phone stored for the sender |
| Webhooks.HandledMessages | src/routes/webhooks.ts:25-46 | the inbound text is logged; the reply is logged after it exactly when delivered |
| Webhooks.HandledCheckinRow | src/routes/webhooks.ts:34-38 | after a check-in the day's row holds the plan and no check-in |
| Webhooks.HandledNoCheckin | src/routes/webhooks.ts:40-42 | a message that is no check-in leaves the daily logs unchanged |
| Webhooks.HandledOtherDays | src/routes/webhooks.ts:34-38 | no row of another user or day changes |
| Webhooks.RecogniseCheckin | src/routes/webhooks.ts:27-32 | the strict parse followed by the flexible one equals a single flexible parse |
| Webhooks.SenderOf | src/routes/webhooks.ts:19-23 | finding or creating the sender moves the store as `UserCreated` says |
| Webhooks.StoreCheckinAndPlan | src/routes/webhooks.ts:35-38 | the store moves by the day's two writes and the plan is the generated one |
| Webhooks.SendReply | src/routes/webhooks.ts:44-47 | the reply is addressed to the sender and logged exactly when delivered |
| Webhooks.ProcessMessage | src/routes/webhooks.ts:15-52 | the store moves to the tables `Handled` gives and the reply goes to the sender |
| Webhooks.HandleWhatsAppWebhook | src/routes/webhooks.ts:8-57 | a form without sender or text gets 400 and changes nothing; otherwise the store moves as `Handled` says, the reply is sent to the sender, and the answer carries the delivery id |

## Left out

- HTTP transport: Express routing, the `GET /whatsapp` status endpoint, and
  the JSON bodies of the responses. The answer is reduced to `BadRequest` or
  `Success(id)`.
- The 500 path of the handler (src/routes/webhooks.ts:53-56). The in-memory
  store never fails, so `createUser`, `logMessage` and `createDailyLog`
  never throw. Supabase errors that make `getUserByPhone` or `getDailyLog`
  answer null are not modelled either.
- Concurrency: two deliveries racing between the read and the write of
  `createUser` or `createDailyLog`. Each handler call runs to completion.
- Row ids come from per-table counters, standing in for the database's
  generated ids.
- Several rows for one phone or one (user, date). With more than one
  matching row, supabase-js's `maybeSingle` does not throw: it returns the
  error in `error` and leaves `data` null. `getUserByPhone` and
  `getDailyLog` then answer null (src/services/db.ts:71-72, 138-144), and
  `createUser` and `createDailyLog` go on to insert yet another row
  (src/services/db.ts:51-52, 102-117). The model's lookups pick the first
  match instead. The store invariant `TablesValid` keeps at most one row
  per phone and per (user, date), so in the sequential runs the model
  covers this state is unreachable; it could only arise from concurrent
  deliveries or rows written outside the service.
- The prompts, model names, token limits and temperatures of the OpenAI
  calls, and the user's name passed into the prompts. The answers are
  parameters.
- `JSON.parse` is a parameter. Its result is seen only through the four
  fields the extractor reads.
- Floating point. Numbers are exact: `parseFloat` gives the exact decimal
  value, and `parseInt` has no precision loss on long digit runs.
- Infinity in the model's answer. `JSON.parse` turns an out-of-range number
  literal such as `1e999` into Infinity, which passes `typeof === 'number'`
  and is returned as the sleep value (or, rounded, as mood or energy). The
  `Decoded` view holds only finite numbers, so the model cannot produce
  such a check-in. `JSON.parse` never produces NaN.
- `undefined` and `null` are both `None`. This covers the `name` argument
  of `createUser` and the payload arguments of `createDailyLog`, which the
  code turns into null alike.
- Every timestamp in one handler call is the same `now`. The code reads the
  clock separately for each row.
- The Twilio client call, the sender number taken from the environment,
  environment checks in the service constructors, and console logging.
