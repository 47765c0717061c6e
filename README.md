# Klovy Chat application form: a Dafny model

This project models the two halves of the Klovy Chat job-application form.

- **The route.** `POST /api/applications` reads a multipart body. It checks
  the Cloudflare Turnstile token, then the required fields, the e-mail
  pattern and the 10 MiB file limit, then the mail password and the SMTP
  connection. It then composes a localized mail with the attachments and
  sends it. Each step can end the request with its own message and status.
  Anything thrown ends in the catch-all server error.
- **The page.** The browser form holds the values, the per-field errors, the
  thank-you flag and the language. The language is remembered in local
  storage.

The outside services of the route are replies handed in with the request:

- Turnstile's verdict, or a failure to reach it.
- The SMTP `verify` and `sendMail` answers.
- The environment variables `EMAIL_PASSWORD` and `RECRUITMENT_EMAIL`.

A run of the route records the calls it makes to those services. So "no mail
is sent" is a statement about the recorded calls.

Modules:

- `Strings` holds the JavaScript string semantics the code relies on. That
  is the `\s` class and `trim`, ASCII lower-casing, decimal rendering of
  `file${i}`, and `replace(/\n/g, '<br>')` against `split`/`join`.
- `EmailPattern` holds the pattern `^[^\s@]+@[^\s@]+\.[^\s@]+$` and a proof
  that it accepts exactly the well-shaped addresses.
- `Multipart` holds the body: named text and file parts, and `FormData.get`.
  It also holds the route's probing of `file1`, `file2`, … up to the first
  missing name, with a proof that the probing ends, and the body as `fetch`
  sends it (`Sent`): the HTML multipart/form-data encoding keeps the parts,
  their names and order and the files' bytes, but turns every line break of
  a string value into CR LF (`Wire`).
- `Route` holds the route:
  - `Submit` states the pipeline as one function.
  - `Post` follows the handler's structure: early returns, the probing
    `while` loop and the size loop. It is proved to compute `Submit`. Both
    choose the translation table with the corrected `SelectTable` (see
    "Left out" and "Findings").
  - Lemmas state the order of the checks, what a delivered mail carries, and
    that a mail is only sent after every check passed.
- `Page` holds the form. It has a pure specification per handler, and the
  class `ApplicationForm` whose methods update the state as the
  specifications say. Every method keeps the form's limits: at most ten
  files, none over 10 MiB, and a rationale of at most 1000 characters.
- `Protocol` joins the two halves:
  - the route reads back what the page encodes, as sent: the files and the
    texts, with the texts' line breaks as CR LF;
  - as written, the page's body never passes the route;
  - with the token added, a complete form is delivered.

## Model

| member | source | states |
|---|---|---|
| `Strings.Trim` | app/page.tsx:245 | `trim` leaves the empty string exactly when the text is blank (only ECMAScript whitespace) |
| `Strings.TrimStartSpec` | app/page.tsx:245 | what is dropped from the front is blank; what is kept is a suffix that starts with a non-whitespace character, empty exactly when the text is blank |
| `Strings.TrimEndSpec` | app/page.tsx:245 | what is dropped from the back is blank; what is kept is a prefix that ends with a non-whitespace character, empty exactly when the text is blank |
| `Strings.TrimsToEmpty` | app/page.tsx:245 | `!value.trim()` holds exactly when the value is blank, which is when `Trim` gives the empty string |
| `Strings.Lower` | app/page.tsx:117 | lower-casing keeps the length and lower-cases each character in place |
| `Strings.ParseDecimalOfDecimal` | app/page.tsx:330 | reading the decimal rendering of an index gives the index back |
| `Strings.DecimalInjective` | app/api/applications/route.ts:80 | distinct indexes render as distinct digit strings |
| `Strings.ReplaceNewlines` | app/api/applications/route.ts:199 | with a replacement that has no line feed, the result has no line feed |
| `Strings.Lines` | app/api/applications/route.ts:199 | splitting on line feeds gives at least one piece, no piece holds a line feed, and joining the pieces with a line feed gives the text back |
| `Strings.JoinedLines` | app/api/applications/route.ts:199 | replacing every line feed equals splitting into lines and joining them with the replacement |
| `EmailPattern.MatchesPattern` | app/api/applications/route.ts:97 | the regular expression as three plain runs split by `@` and `.`; stated by `PatternIffShape` |
| `EmailPattern.PatternIffShape` | app/api/applications/route.ts:97 | the pattern accepts a string exactly when it has no whitespace, one `@` after a non-empty local part, and an inner `.` in the domain |
| `EmailPattern.MatchEnsuresShape` | app/api/applications/route.ts:97 | a match yields the well-shaped description with the `@` at the same place |
| `EmailPattern.ShapeEnsuresMatch` | app/api/applications/route.ts:97 | the only `@` and any inner `.` of the domain split the address into the three runs the pattern needs |
| `EmailPattern.BlankNeverMatches` | app/page.tsx:249-253 | a blank address never matches, so "required" and "invalid" never both apply |
| `Multipart.Get` | app/api/applications/route.ts:51-57 | `FormData.get`: the value of the first part with the name, or nothing; stated by `GetFindsFirst`, `GetAt`, `GetMissing` and `GetAppend` |
| `Multipart.GetFindsFirst` | app/api/applications/route.ts:51-57 | `get` finds a value exactly when the name occurs, and it finds the first part with that name |
| `Multipart.GetAt` | app/api/applications/route.ts:51-57 | a part whose name no earlier part has is what `get` returns |
| `Multipart.GetMissing` | app/api/applications/route.ts:51-57 | a name no part has gives `null` |
| `Multipart.GetAppend` | app/api/applications/route.ts:51-57 | lookup in two bodies laid end to end prefers the first |
| `Multipart.FileKeyInjective` | app/api/applications/route.ts:80 | `file${i}` names differ exactly when their indexes differ |
| `Multipart.ProbeShrinks` | app/api/applications/route.ts:79-83 | every successful probe uses up a name of the body, so the loop ends |
| `Multipart.FilesFrom` | app/api/applications/route.ts:79-83 | the files found are the truthy entries under consecutive names, up to the first falsy one |
| `Multipart.Discovered` | app/api/applications/route.ts:78-83 | the files the route finds: the run of probes from `file1`; stated by `FilesFrom`, `GapHidesLater` and `DiscoveredInOrder` |
| `Multipart.ProbeRunUnique` | app/api/applications/route.ts:79-83 | only one list can be what the probing loop collects |
| `Multipart.GapHidesLater` | app/api/applications/route.ts:79-82 | a missing `file{k}` hides every later file: fewer than `k` are found |
| `Multipart.DiscoveredInOrder` | app/api/applications/route.ts:79-83 | the `k`-th file found is the one under `file{k+1}` |
| `Multipart.Wire` | app/page.tsx:333-336 | a string value as sent: every line break (CR, LF or CR LF) becomes CR LF; only the empty text is sent as empty; `WireChar` and `WireAppend` fix it character by character, and `WireNormalises`, `WireKeepsNormalised` and `WireOfPlain` state its shape |
| `Multipart.WireChar` | app/page.tsx:333-336 | a character other than CR and LF is sent as itself; CR, LF and CR LF are each sent as CR LF |
| `Multipart.WireAppend` | app/page.tsx:333-336 | a text is sent piece by piece: cut anywhere but inside a CR LF pair, the sent text is the two pieces sent one after the other |
| `Multipart.WireNormalises` | app/page.tsx:333-336 | a sent value has every LF preceded by a CR and every CR followed by an LF |
| `Multipart.WireKeepsNormalised` | app/page.tsx:333-336 | a value whose line breaks are already CR LF is sent unchanged, so sending twice is sending once |
| `Multipart.SentAsPlain` | app/page.tsx:333-336 | the only value sent as a given text without line breaks is that text |
| `Multipart.WireOfPlain` | app/page.tsx:333-336 | a value is sent as a text without line breaks exactly when it is that text |
| `Multipart.Sent` | app/api/applications/route.ts:47 | the body `formData()` reads back: the parts in order under their names, strings through `Wire`, files byte for byte; stated by `GetSent` and `ProbeSent` |
| `Multipart.GetSent` | app/api/applications/route.ts:51-57 | `get` on the sent body finds a value exactly when it does on the body built, and finds that value as sent |
| `Multipart.ProbeSent` | app/api/applications/route.ts:79-83 | probing `file{i}` in the sent body hits exactly when it does in the body built, with the entry as sent |
| `Route.TableAsWritten` | app/api/applications/route.ts:75 | the lookup as written: `pl` and `en` find their tables, an inherited property name finds no table, anything else falls back to Polish; stated by `InheritedNameSelectsNoTable` |
| `Route.SelectTable` | app/api/applications/route.ts:75 | the corrected lookup: English for `en`, Polish otherwise; `SelectTableAgreesOffPrototype` ties it to `TableAsWritten` |
| `Route.Reject` | app/api/applications/route.ts:59-247 | the message of each failure response: the fixed texts of the token, CAPTCHA and password checks, the selected table's text otherwise, Polish for crashes; stated by `RejectIsWorded` and the ordering lemmas |
| `Route.Status` | app/api/applications/route.ts:59-247 | 200 for a delivery, 400 for the token, CAPTCHA, field, address and size failures, 500 otherwise; stated by `MissingTokenStopsEverything`, `CaptchaRejectionStopsMail`, `IncompleteComesFirst`, `EmailCheckedSecond` and `SizeCheckedThird` (400), `TransmitFailures` and `AnswersInFormLanguage` (500), `TransmitDelivers` (200) |
| `Route.ReadFields` | app/api/applications/route.ts:51-57 | the seven `get` calls, the consent as `=== 'true'` and the language with its `'pl'` default; stated by `LanguageDefaultsToPl` and `Protocol.FieldsRoundTrip` |
| `Route.Validate` | app/api/applications/route.ts:87-116 | the three validation steps in order: missing fields, the address pattern, the file sizes; stated by `IncompleteComesFirst`, `EmailCheckedSecond` and `SizeCheckedThird` |
| `Route.Transmit` | app/api/applications/route.ts:118-232 | the steps after validation: password, SMTP verify, attachments, composition, delivery; stated by `TransmitFailures`, `TransmitSends` and `TransmitDelivers` |
| `Route.ComposeMail` | app/api/applications/route.ts:184-212 | the mail: sender, recipient with its default, subject, the interpolated values and the attachments; stated by `ComposedMailContents` |
| `Route.DateLocale` | app/api/applications/route.ts:167 | the locale of the sent date: `pl-PL` for the language `pl`, `en-GB` for every other; stated by `ComposedMailContents` |
| `Route.Submit` | app/api/applications/route.ts:43-249 | the route as one function of the request, the environment and the services' replies; `Post` is proved to compute it, and the lemmas below state its properties |
| `Route.SelectTableAgreesOffPrototype` | app/api/applications/route.ts:75 | the corrected table choice agrees with the code except on inherited names; `en` is the only way to get English |
| `Route.InheritedNameSelectsNoTable` | app/api/applications/route.ts:75 | as written, `toString` and `__proto__` select no table; the corrected choice gives Polish |
| `Route.LanguageDefaultsToPl` | app/api/applications/route.ts:56 | a missing or empty language reads as `pl` and selects the Polish table |
| `Route.Attach` | app/api/applications/route.ts:172-180 | attachments are built exactly when every found part is a file, one per file in order, with its name and bytes |
| `Route.DiscoverFiles` | app/api/applications/route.ts:78-83 | the probing loop collects exactly the files the route finds (`Discovered`) |
| `Route.CheckSizes` | app/api/applications/route.ts:106-116 | the size loop passes exactly when no file is over 10 MiB; a text part never fails it |
| `Route.Post` | app/api/applications/route.ts:43-249 | the handler with its early returns computes the pipeline `Submit` on every request |
| `Route.TransmitFailures` | app/api/applications/route.ts:118-232 | after validation the only failures are the password, the SMTP transport and crashes, each with its message and the status 500 |
| `Route.TransmitSends` | app/api/applications/route.ts:118-218 | a mail goes out only with a password, a verified connection and string fields; it is the composed mail and the last call |
| `Route.TransmitDelivers` | app/api/applications/route.ts:216-224 | a delivery is the composed mail, answered 200 with the success message of the selected table |
| `Route.RejectIsWorded` | app/api/applications/route.ts:59-247 | every failure response has a non-empty `error` text and the status 400 or 500 |
| `Route.RejectionsCarryTheirMessage` | app/api/applications/route.ts:43-249 | whatever the request, a refusal carries the message the route attaches to its failure, in the Polish or the English table |
| `Route.MissingTokenStopsEverything` | app/api/applications/route.ts:57-61 | no token (absent or empty) gives 400 "Brak tokena CAPTCHA" and no service call |
| `Route.CaptchaRejectionStopsMail` | app/api/applications/route.ts:62-70 | a rejected CAPTCHA gives 400 after exactly one call, the Turnstile check: no SMTP, no mail |
| `Route.IncompleteComesFirst` | app/api/applications/route.ts:88-94 | a missing field, a consent other than `'true'` or no file gives "all fields required" (400), whatever the address and sizes |
| `Route.EmailCheckedSecond` | app/api/applications/route.ts:96-104 | with the fields complete, the address is refused exactly when it is not well shaped, and that refusal is a 400 |
| `Route.SizeCheckedThird` | app/api/applications/route.ts:106-116 | with fields and address valid, the request is refused as too large (400) exactly when a file exceeds 10485760 bytes; exactly 10 MiB passes |
| `Route.AnswersInFormLanguage` | app/api/applications/route.ts:221-247 | past the CAPTCHA, answers use English exactly when the form says `en`; crashes answer 500 in Polish |
| `Route.ComposedMailContents` | app/api/applications/route.ts:167-212 | the mail has the subject line plus the position, the rationale with `<br>` per line feed and no line feed left, the consent as "yes", the language as sent, the date locale `pl-PL` exactly for `pl` and `en-GB` otherwise, and the attachments in order |
| `Route.DeliveredMailCarriesTheApplication` | app/api/applications/route.ts:184-224 | a delivered application made exactly three calls, passed validation, and carries the form's values and every `file{k}` in order |
| `Route.MailOnlyAfterEveryCheck` | app/api/applications/route.ts:217-218 | a mail is sent only after every check passed: CAPTCHA, fields, pattern, sizes, password and SMTP verification |
| `Page.Clear` | app/page.tsx:289-291 | clearing a slot leaves it without a shown error and keeps every other slot |
| `Page.RuleFor` | app/page.tsx:245-269 | every error a rule sets is a translation in the page's language |
| `Page.ErrorsForSlots` | app/page.tsx:242-273 | each slot holds an error exactly when its rule is broken; the address gets "required" when blank and "invalid" otherwise |
| `Page.ErrorsFor` | app/page.tsx:242-273 | the errors `validateForm` sets, one per broken rule; stated by `ErrorsForSlots` and `NoErrorsIffComplete` |
| `Page.NoErrorsIffComplete` | app/page.tsx:271-272 | `validateForm` succeeds exactly for a complete form |
| `Page.CompleteAddressIsWellShaped` | app/page.tsx:251 | the address of a complete form is well shaped and not blank |
| `Page.CollectErrors` | app/page.tsx:243-270 | applying the rules in turn sets exactly the errors of the broken rules |
| `Page.Truncate` | app/page.tsx:283 | `slice(0, n)` keeps the first `n` characters of a longer text and the whole of a shorter one |
| `Page.SlotNamed` | app/page.tsx:288-291 | the error slot a change clears: the field's own slot, none for the rationale, which has no error slot; stated by `ApplicationForm.HandleInputChange` |
| `Page.Apply` | app/page.tsx:275-287 | the form after a change event: the checkbox's `checked`, the rationale cut to 1000 characters, other values as typed; stated by `ApplyKeepsBounds` |
| `Page.ApplyKeepsBounds` | app/page.tsx:275-287 | a change event keeps the form's limits and leaves the files alone; the rationale becomes the first `min(1000, length)` characters typed |
| `Page.Combine` | app/page.tsx:303 | the new file list is a prefix of old-then-new files of length `min(10, total)` and keeps every old file |
| `Page.Without` | app/page.tsx:235 | removing index `i` drops exactly that file when `i` is in range and nothing otherwise |
| `Page.CombineDrawsFrom` | app/page.tsx:294-311 | when no chosen file is over 10 MiB, neither is any file the form keeps |
| `Page.InitialLanguage` | app/page.tsx:112-120 | the language after hydration: the stored one, else `pl` or `en` by the browser's tag; stated by `InitialLanguageChoice` |
| `Page.InitialLanguageChoice` | app/page.tsx:109-125 | a stored language wins; otherwise `pl` exactly when the browser tag starts with p/P then l/L, else `en`; the choice is stable once stored |
| `Page.Encode` | app/page.tsx:320-331 | the page's body: six named parts, then each file under `file{k+1}`; stated by `EncodeSubmission` and the `Protocol` lemmas |
| `Page.EncodeSubmission` | app/page.tsx:320-331 | the body is the six named parts followed by each file under `file{k+1}` |
| `Page.FailureNotice` | app/page.tsx:340-347 | the notice of a failed submission: the server's non-empty error text, else the generic send error, or the exception's message; `Protocol.PageReportsRouteAnswer` states what it shows for every answer of the route |
| `Page.ApplicationForm.constructor` | app/page.tsx:142-154 | the page starts empty, without errors, in Polish, not hydrated |
| `Page.ApplicationForm.Hydrate` | app/page.tsx:109-125 | hydration settles the language by `InitialLanguage` and leaves it stored |
| `Page.ApplicationForm.SetLang` | app/page.tsx:127-136 | the switch shows and stores the chosen language, and nothing else changes |
| `Page.ApplicationForm.ValidateForm` | app/page.tsx:242-273 | the errors become those of the current values, and the result is true exactly for a complete form |
| `Page.ApplicationForm.HandleInputChange` | app/page.tsx:275-292 | the value changes (rationale cut at 1000); a shown error of the same name is cleared; the rationale clears nothing |
| `Page.ApplicationForm.HandleFileChange` | app/page.tsx:294-312 | an oversize choice is refused with its error; otherwise files are combined, with the too-many error or a cleared file error; limits are kept |
| `Page.ApplicationForm.HandleRemoveFile` | app/page.tsx:232-240 | the file at the index is dropped and a shown file error is cleared |
| `Page.ApplicationForm.HandleSubmit` | app/page.tsx:314-351 | a body is posted exactly for a complete form; success shows the thank-you screen, failure leaves only the consent error |
| `Page.ApplicationForm.ResetForm` | app/page.tsx:353-364 | back to the empty form, without errors, off the thank-you screen, same language |
| `Protocol.ReplyOf` | app/page.tsx:338-341 | what the page reads of the route's answer: `response.ok` (status 200) and `result.error`, the route's wording; stated by `PageReportsRouteAnswer` |
| `Protocol.GetFilePart` | app/page.tsx:329-331 | among the file parts, `file{i}` holds the `i`-th file, and nothing past the last |
| `Protocol.NamedValues` | app/page.tsx:321-326 | each named part is found under its name, and the body has no `turnstileToken` |
| `Protocol.ProbeSubmitted` | app/api/applications/route.ts:79-83 | probing the page's body finds the `i`-th file under `file{i}` and stops after the last |
| `Protocol.FilesRoundTrip` | app/page.tsx:329-336 | in the body as sent, the route finds exactly the page's files, in order, byte for byte |
| `Protocol.FieldsRoundTrip` | app/page.tsx:320-336 | the route reads back every value the page sent: each text with its line breaks as CR LF, the consent as the checkbox was, the language (`pl` when empty) and the token |
| `Protocol.ShownClientAlwaysRejected` | app/page.tsx:320-336 | as written, every body the page sends is refused with 400 "Brak tokena CAPTCHA" before any service call, and the page shows that text |
| `Protocol.PageReportsRouteAnswer` | app/page.tsx:338-347 | a delivery reads as a success; every refusal of the route reads as a failure whose notice is the route's own `error` text, never the page's generic send error |
| `Protocol.SentAddressUnchanged` | app/page.tsx:322 | a complete form's address has no line break, so it is sent unchanged |
| `Protocol.SentLanguageSelectsSameTable` | app/page.tsx:326 | the language as sent, with the route's `pl` default, selects the same table as the page's language |
| `Protocol.SentFilesWithinLimit` | app/api/applications/route.ts:78-116 | the route finds the files of a form sent with its token, and none is over 10 MiB when the page kept its limits |
| `Protocol.CompleteFormValidates` | app/api/applications/route.ts:87-116 | the fields read from a complete form and its files within the limit pass all three validation steps |
| `Protocol.SentApplicationIsValid` | app/api/applications/route.ts:47-116 | a complete form within the page's limits, sent with a token, passes every validation step, and the route finds its files |
| `Protocol.SentApplicationDelivered` | app/api/applications/route.ts:118-224 | a valid application sent with a token, with working services and a password, is delivered as the mail the route composes, in the table of the page's language |
| `Protocol.TokenedClientDelivered` | app/api/applications/route.ts:57-224 | with the token added, a complete form within the page's limits is delivered: the subject carries the position as sent, the mail the address as typed, the rationale as sent with `<br>` per line break, and every file in order; the page gets a success reply |

## Left out

- Network I/O. The Turnstile request (URL, secret, form encoding), the
  nodemailer transport (host, port, credentials) and the page's `fetch` are
  not modelled. Their answers are parameters: `Route.Services` and
  `Page.Reply`.
- Multipart parsing. `req.formData()` either yields the ordered parts or
  fails (`Route.Unreadable`). Reading each attachment's bytes is modelled
  as the file's content. The concurrent reads of `Promise.all` are not
  modelled; their order is kept. The encoding itself (boundaries,
  headers) is not modelled; what it changes in string values, the CR LF
  line breaks, is `Multipart.Wire`.
- Protocol.TokenedClientDelivered: its attachment names are the names the
  files had on the page. The encoding writes a file name's CR, LF and `"`
  as `%0D`, `%0A` and `%22`, and the route reads the escaped name;
  `Multipart.Sent` sends names unchanged, so the claim holds for names
  without those characters.
- The sent date. `toLocaleString` is a clock plus locale formatting, so only
  the locale it would use is kept.
- The HTML markup of the mail and `language.toUpperCase()`. The mail body
  keeps the interpolated values and the table of labels. The language is
  kept as sent; only the `toUpperCase` crash on a file part is modelled.
- The `details` text of a thrown `TypeError`. It is the JavaScript engine's
  message, so only its cause is kept (`Route.Crash`).
- Logging and the CSS and scrollbar injection.
- Rendering, the loading screen before hydration, and the `isSubmitting`
  flag. The address input is `type="email"` (app/page.tsx:472-473) in a
  form without `noValidate` (app/page.tsx:436), so the browser itself
  blocks submission for addresses outside HTML's e-mail syntax that the
  pattern accepts, such as `jan@exa_mple.com` or `józef@example.pl`.
  `ApplicationForm.HandleSubmit` states what the handler does once called,
  not whether the rendered page calls it.
- Exceptions from local storage, and the server-side `typeof window`
  guard.
- A stored language other than `pl` or `en`. The page would look up an
  undefined table and fail to render. The model keeps the language text,
  and errors name their table entry by key.
- Character width. Strings are sequences of characters. JavaScript counts
  UTF-16 code units, so `slice(0, 1000)` may cut a text with characters
  outside the Basic Multilingual Plane at a different place.
  `toLowerCase` is reduced to ASCII, which decides the `pl` prefix test the
  same way.
- Route.Submit: chooses the translation table with the corrected
  `SelectTable`, not as route.ts:75 does. As written, a `language` named
  like an `Object.prototype` property (`toString`, `__proto__`, …) selects
  no table. A missing field is then answered 400 with the body `{}`, and a
  mail's subject starts with "undefined". `TableAsWritten` and
  `InheritedNameSelectsNoTable` record that behaviour.
- Route.Post: computes `Route.Submit`, so it uses the same corrected table
  choice.
- Two behaviours a reader might not expect; the model follows the code:
  - A Turnstile request that throws falls into the catch-all. That is 500
    with the server error, not a CAPTCHA failure.
  - The route sets no upper bound on the number of attachments. Only the
    page keeps at most ten.

## Findings

| source | as written | input that shows it | evidently intended | confidence | as-written member | corrected member |
|---|---|---|---|---|---|---|
| app/api/applications/route.ts:75 | `translations[language] \|\| translations.pl` also finds names inherited from `Object.prototype`, which are truthy but are not tables | a body with `language=toString` (or `__proto__`, `constructor`): every `t.*` is `undefined`, so the mail subject starts with "undefined" and the response messages are missing | any language other than `en` falls back to the Polish table | not executed | `Route.InheritedNameSelectsNoTable` | `Route.SelectTableAgreesOffPrototype` |
| app/page.tsx:320-331 | the page's body has no `turnstileToken` part, and route.ts:57-61 refuses any body without one | any complete form submitted from the page: the answer is 400 "Brak tokena CAPTCHA" and no mail is sent | the page appends the Turnstile widget's token, which the route then verifies | not executed | `Protocol.ShownClientAlwaysRejected` | `Protocol.TokenedClientDelivered` |

The route's pipeline `Route.Submit` uses the corrected table choice
`Route.SelectTable`. The page's `ApplicationForm.HandleSubmit` keeps the
encoding as written, `Page.Encode`, because the page has no widget that
could supply a token. The corrected encoding is `Page.EncodeWithToken`, and
the end-to-end lemma `Protocol.TokenedClientDelivered` is proved about it.
