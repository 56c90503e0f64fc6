# RefugeeBot screens: registration, chat and profile logic

This project is a verified model of the three pieces of logic in the
RefugeeBot mobile front end:

- **The registration wizard** (`app/register.tsx`). It is a three-step
  state machine: name, then country of origin, then preferred language.
  Next is refused on a blank field. When the user completes it, the wizard
  writes the user record and the registered flag to the device store and
  navigates home.
- **The chat screen's `sendChat`** (`app/index.tsx`). It guards against a
  blank message. It appends the user's message and a loading placeholder,
  then asks the assistant service. When the request ends it either takes
  over the history the service returns or appends an error message. The
  screen renders each message's parts joined by spaces, and styles a
  bubble as the user's exactly when the role is "user".
- **The profile screen's read side** (`app/profile.tsx`). It loads the
  stored record if present and shows its name, country and language. The
  language is looked up by code in a table, and the raw code is shown when
  no entry has it. Logout flips the registered flag to "false".

The device store (AsyncStorage) is a class holding a `map<string, string>`.
Each read or write takes a boolean that says whether it fails, because the
cause of a failure lies outside the app. Each screen is a class whose
fields are the component's state and whose methods are its handlers.
Alerts and navigation are returned as `UiEvent` values. The chat request's
result is a `ServerOutcome` parameter: `Replied(history)` or
`Failed(message)`.

The record is stored as JSON text. `JSON.stringify` of a string is modelled
exactly for text made of whole characters: quotes and backslashes get a backslash, the five control
characters that have one use their short escape, and the other control
characters become `\u00XX`. A reader of string literals models
`JSON.parse` on strings. Together they give a proved round trip, and on it
rests the end-to-end property: what the wizard stores is exactly what the
profile shows.

The files are:

- `wrappers.dfy`: the `Option` type.
- `ui.dfy`: the `UiEvent` type for alerts and navigation.
- `text.dfy`: `String.prototype.trim` and `Array.prototype.join`.
- `language.dfy`: the entry type of the language tables, and the facts about a table that the screens rely on (distinct codes, non-empty names).
- `json.dfy`: string literals.
- `user_record.dfy`: the stored record and its keys.
- `storage.dfy`: the store.
- `register.dfy`, `chat.dfy` and `profile.dfy`: the three screens.
- `journey.dfy`: registration followed by the profile.

The registration screen modelled here is the one in `app/register.tsx`,
with exactly three steps. The app also contains a longer registration flow
in `app/(auth)/register.tsx`, with user types, feature choices and reporter
verification. That flow is not part of this model.

## Model

| member | source | states |
|---|---|---|
| Storage.KeyValueStore.SetItem | app/register.tsx:57-64 | A successful write sets the key and keeps every other key. A failed write throws (`ok` is false) and leaves the store unchanged. |
| Storage.KeyValueStore.GetItem | app/profile.tsx:45 | A read gives the stored text, `null` (`Absent`) for a missing key, or a thrown error. It changes nothing. |
| JsText.Trim | app/index.tsx:26 | `s.trim()`: the text with its leading and trailing ECMAScript whitespace removed. It is defined as trimming the front, then the end. |
| JsText.IsBlank | app/register.tsx:40 | `!s.trim()`: the trimmed text is empty, hence falsy. The same guard is used at app/register.tsx:46 and app/index.tsx:27. |
| JsText.TrimStartShape | app/register.tsx:40 | Trimming the front keeps a suffix, drops only whitespace, and the result does not start with whitespace. |
| JsText.TrimEndShape | app/register.tsx:40 | Trimming the end keeps a prefix, drops only whitespace, and the result does not end with whitespace. |
| JsText.TrimShape | app/index.tsx:26 | `s.trim()` is a slice of `s` with only whitespace on either side, and it neither starts nor ends with whitespace. |
| JsText.BlankIffAllWhitespace | app/register.tsx:40 | The guard `!s.trim()` holds exactly when `s` is all ECMAScript whitespace, in both directions. |
| JsText.TrimIdempotent | app/index.tsx:26 | Trimming an already trimmed text changes nothing. |
| JsText.Join | app/index.tsx:60 | `parts.join(sep)`: "" for no parts, the single part for one, otherwise the parts with `sep` between neighbours. |
| JsText.JoinLength | app/index.tsx:60 | `parts.join(sep)` has the total length of the parts plus one separator between each pair of neighbours. |
| JsText.JoinConcat | app/index.tsx:60 | Joining two non-empty lists equals joining each and putting one separator between the two results. |
| Json.Quote | app/register.tsx:57-61 | `JSON.stringify` of a string: a quote, the escaped text, and a closing quote. |
| Json.ParseString | app/profile.tsx:47 | `JSON.parse` of a string literal at the front of the text: the decoded text and what follows the closing quote. An escaped surrogate pair decodes to the one character it encodes. An unescaped control character, an unknown escape, a lone surrogate escape or a missing closing quote is a parse error. |
| Json.SurrogatePairOfItsHalves | app/profile.tsx:47 | Every character beyond U+FFFF is the pair of its two UTF-16 surrogates, as `JSON.parse` combines them. |
| Json.CodeUnitOfHex4 | app/profile.tsx:47 | Four lower-case hexadecimal digits of any code unit read back as that code unit. |
| Json.SurrogatePairEscapeReadsBack | app/profile.tsx:47 | Every character beyond U+FFFF, written as a `\u` escape of its high surrogate followed by one of its low surrogate, reads back as that one character, and the two escapes take eleven characters. |
| Json.EscapedPairReadsAsOneCharacter | app/profile.tsx:47 | The literal `"\ud83d\ude00"` parses to the single character U+1F600. |
| Json.EscapeCharReadsBack | app/register.tsx:57-61 | The `JSON.stringify` escape of any single character (short escape, `\u00XX`, or the character itself) parses back to that character and leaves the rest of the text. |
| Json.EscapeReadsBack | app/register.tsx:57-61 | The escaped body of any text, followed by the closing quote, parses back to that text, and what follows the quote is left as it is. |
| Json.QuoteReadsBack | app/profile.tsx:47 | `JSON.parse` inverts `JSON.stringify` on every string literal, whatever text follows it. |
| UserRecords.EncodeUser | app/register.tsx:57-61 | `JSON.stringify({ name, country, preferredLanguage })`: the three members in that order, each key and value quoted, with no spaces. |
| UserRecords.DecodeUser | app/profile.tsx:47 | `JSON.parse` of the stored text as a record with the three members in that order. Any other text is a parse error (`None`). |
| UserRecords.MemberReadsBack | app/register.tsx:57-61 | A `"key":"value"` member reads back as its value. |
| UserRecords.DecodeEncodeUser | app/register.tsx:57-61 | The record text stored under `@user_data` parses back to the very record written, for every name, country and language. |
| Register.Languages | app/register.tsx:19-30 | The picker's ten `{ code, name }` entries, in display order. |
| Register.PickerCodesDistinct | app/register.tsx:19-30 | The picker offers ten languages, and no two share a code. |
| Register.RegisterScreen.constructor | app/register.tsx:33-36 | The screen starts on step 1 with empty name and country and language "en". "en" is a code the picker offers. |
| Register.RegisterScreen.EditName | app/register.tsx:89-98 | The name field is shown on step 1 only. Typing sets the name. The step and the other fields are unchanged. |
| Register.RegisterScreen.EditCountry | app/register.tsx:105-114 | The country field is shown on step 2 only. Typing sets the country. The step and the other fields are unchanged. |
| Register.RegisterScreen.PickLanguage | app/register.tsx:127-140 | The picker is shown on step 3 only, and only codes from the table can be picked. Picking sets the language and nothing else. |
| Register.RegisterScreen.HandleNext | app/register.tsx:38-52 | On step 1, a blank name raises the name alert and keeps step 1; otherwise it moves to step 2. Step 2 is the same with the country. Step 3 changes nothing. The step stays in 1..3 and no field changes. Past step 1 the name is non-blank, and on step 3 the country is too. |
| Register.RegisterScreen.BackToName | app/register.tsx:105-125 | The Back button shown on step 2 goes down one step, to step 1. It leaves name, country and language untouched. |
| Register.RegisterScreen.BackToCountry | app/register.tsx:127-152 | The Back button shown on step 3 goes down one step, to step 2. It leaves name, country and language untouched. |
| Register.RegisterScreen.HandleComplete | app/register.tsx:54-72 | It navigates to "/" only when both writes succeed. A failed first write leaves the store as it was. A failed second write leaves the untrimmed record stored and the flag as it was. Every failure raises the error alert. The button is shown on step 3 only, so the record written always has a non-blank name and country. |
| Chat.BubbleText | app/index.tsx:60 | A bubble's text: the message's parts joined by single spaces. |
| Chat.IsUserBubble | app/index.tsx:61 | A bubble is styled as the user's exactly when its role is "user". |
| Chat.RequestFor | app/index.tsx:26-43 | What a send posts: nothing for a blank input. Otherwise it posts the trimmed text and the shown history followed by the user's message. |
| Chat.PendingHistory | app/index.tsx:31-36 | The history while the request is awaited: the posted history followed by the placeholder, or the old history for a blank input. |
| Chat.Resolved | app/index.tsx:48-52 | The history once the request ends: the service's history on a reply. On a failure it is the shown history followed by the "Error: " message. |
| Chat.ChatScreen.constructor | app/index.tsx:17-23 | The history starts as exactly one "model" greeting, and the input starts empty. |
| Chat.ChatScreen.EditInput | app/index.tsx:87-88 | Typing sets the input. |
| Chat.ChatScreen.Send | app/index.tsx:25-36 | A blank input changes nothing and sends nothing. Otherwise the input is cleared, the history gains the user's message and the placeholder, and the request carries the trimmed text and the history without the placeholder. |
| Chat.ChatScreen.Receive | app/index.tsx:45-53 | A reply replaces the whole history with the service's history. A failure appends the "Error: " message after what is shown. |
| Chat.ChatScreen.SendChat | app/index.tsx:25-54 | `sendChat` as a whole: the result of `Receive` applied to the in-flight history, or no change at all for a blank input. |
| Chat.PendingShowsUserThenPlaceholder | app/index.tsx:30-36 | While the request is awaited, the history is the old one plus exactly two bubbles: a user-styled bubble showing the trimmed text, then the placeholder. |
| Chat.RequestOmitsOwnPlaceholder | app/index.tsx:31-43 | The posted history is the shown history without its final placeholder, and it ends with the user's message. |
| Chat.RequestCarriesPlaceholderIff | app/index.tsx:31-43 | A posted history holds a placeholder exactly when the history it was sent from already held one. |
| Chat.FailureKeepsPlaceholder | app/index.tsx:49-53 | On failure the history is old + user message + placeholder + error. The placeholder is not removed, although the comment above the branch says it is. |
| Chat.NextRequestAfterFailureCarriesPlaceholder | app/index.tsx:49-53 | As a consequence, the next message after a failure posts a history that contains the stale placeholder. |
| Chat.BubbleTextOfParts | app/index.tsx:58-61 | A bubble shows its parts in order, one space apart. Its length is the parts' total length plus one per gap. |
| Profile.Languages | app/profile.tsx:173-184 | The display table's ten `{ code, name }` entries. |
| Profile.FindLanguage | app/profile.tsx:115 | `find` gives nothing exactly when no entry has the code. Otherwise it gives an entry with that code, and no earlier entry has that code. |
| Profile.StoredUser | app/profile.tsx:45-47 | What a successful read sets `userData` to: the parsed record when `@user_data` holds non-empty text that parses. It is nothing for a missing key, empty text or a parse error. |
| Profile.LabelIn | app/profile.tsx:115 | `table.find(l => l.code === code)?.name`, falling back to `code` when that is falsy: the first matching entry's name if that name is non-empty, otherwise the code. |
| Profile.LanguageLabel | app/profile.tsx:114-116 | The language line of the user section: the record's code looked up in the display table, or nothing without a record. |
| Profile.ViewOf | app/profile.tsx:112-116 | The user section: the record's name, its country and its language label, all empty without a record. |
| Profile.ProfileScreen.constructor | app/profile.tsx:19-22 | The screen starts with no record, loading, and both switches on. |
| Profile.ProfileScreen.LoadUserData | app/profile.tsx:42-57 | Loading always ends. The record is replaced only by a successful read of present, non-empty text that parses. A missing key, empty text, a parse error or a read error leave it as it was. |
| Profile.ProfileScreen.View | app/profile.tsx:88-116 | The user section is shown exactly when loading has ended. |
| Profile.ProfileScreen.HandleLogout | app/profile.tsx:59-86 | Cancel changes nothing. Confirming writes "false" to the registered flag only, keeps the record, and navigates to "/register". A failed write raises the error alert and changes nothing. |
| Profile.TableCodesDistinct | app/profile.tsx:173-184 | The display table lists ten languages, and no two share a code. |
| Profile.TableEntriesNamed | app/profile.tsx:173-184 | Every entry of the display table has a non-empty name. |
| Profile.FindsEntryOfItsCode | app/profile.tsx:115 | In a table without repeated codes, looking up an entry's code finds that entry. |
| Profile.LabelOfKnownCode | app/profile.tsx:115 | In such a table, a code is shown by its entry's name whenever that name is non-empty. |
| Profile.LabelOfUnknownCode | app/profile.tsx:115 | A code that no entry has is shown as the raw code. |
| Profile.LanguageLabelOfKnownCode | app/profile.tsx:114-116 | A record whose code is in the display table shows that entry's name. |
| Profile.LanguageLabelOfUnknownCode | app/profile.tsx:114-116 | A record whose code is not in the display table shows the raw code. |
| Profile.FlagWriteKeepsStoredUser | app/profile.tsx:74 | Writing the registered flag, as logout and registration do, does not change which record the profile loads. |
| Profile.StoredUserAfterWrite | app/profile.tsx:45-47 | After non-empty text is written under `@user_data`, the profile loads what that text parses to, whatever else the store holds. |
| Journey.TablesAgree | app/profile.tsx:173-184 | The display table is identical to the picker table in app/register.tsx:19-30. |
| Journey.PickedLanguageHasName | app/profile.tsx:115 | Every language the picker offers is shown on the profile by its name, never by its raw code. |
| Journey.WrittenRecordIsLoaded | app/register.tsx:57-64 | Once the record is written, the profile loads exactly that record, whether or not the flag write that follows succeeds. |
| Journey.ProfileShowsRegistration | app/profile.tsx:112-116 | After registration, the profile shows the name and country as typed and the picked language's name. |
| Journey.FillInWizard | app/register.tsx:38-52 | Typing a non-blank name and country, pressing Next twice and picking a language reaches step 3 holding exactly those values. |
| Journey.CompleteWizard | app/register.tsx:54-67 | Completing the filled-in wizard with both writes succeeding stores the record and the flag "true", and navigates home. |
| Journey.RegisterThenOpenProfile | app/profile.tsx:42-57 | From any prior store contents: after registering and then opening the profile, the app has gone home, the flag reads "true", and the profile shows the typed name and country and the picked language's name. |

## Left out

- Rendering, styles, icons, the status bar and keyboard handling are left out. Alerts and navigation appear only as `UiEvent` results.
- The chat request (`fetch` and `res.json()`) is network I/O. Its result is the `ServerOutcome` parameter. The URL and headers are not modelled.
- A reply whose `history` is missing or is not a list is outside the model, because `Replied` always carries a list of messages.
- `console.log` and `console.error` calls are left out, because they have no effect on state.
- Chat.ChatScreen.SendChat: it runs the two halves of `sendChat` back to back. A second send while a request is awaited is modelled by calling `Send` again. It reads the pending history, placeholder included, and so posts the first request's placeholder. What is not modelled is the order in which the two replies arrive. The reply that lands last replaces the whole history.
- UserRecords.DecodeUser: it accepts exactly the layout `JSON.stringify` produces for the record. `JSON.parse` also accepts whitespace, other member orders, extra members and values that are not records, and stores them in `userData`. Those inputs read as a parse error here, so the record is then left as it was. For instance, the longer registration flow in app/(auth)/register.tsx writes `{ userType, displayName, preferredLanguage, features, registeredAt }` under the same `@user_data` key. `JSON.parse` accepts it, so the profile would show that record's language label with empty name and country. The model instead leaves `userData` as it was.
- Json.ParseString: a `\u` escape naming a surrogate that is not part of a high-then-low pair is refused. `JSON.parse` accepts it and yields a string holding an unpaired surrogate. `JSON.stringify` writes an unpaired surrogate in its input as such an escape. Text holding one cannot be represented here (see the next line).
- Text is a sequence of Unicode characters, not of UTF-16 code units, so text with an unpaired surrogate is outside the model. `trim` and `join` are unaffected. Json.QuoteReadsBack and UserRecords.DecodeEncodeUser are proved for text made of whole characters.
- Storage.KeyValueStore.SetItem: a failed write leaves the whole store unchanged. A platform failure that writes partially is not modelled.
- AsyncStorage's asynchrony is not modelled. Each await completes before the next statement, with no concurrent writer.
- The dark-mode and notification switches are not modelled beyond their initial values. They are local booleans with no effect on the modelled logic.
- The mock appointments list and its date formatting are left out, because they are static data and locale formatting.
- The news and not-found screens are not part of this model.
- The longer registration flow in `app/(auth)/register.tsx` is not part of this model, and neither is the chat tab in `app/(tabs)/chat.tsx`.
