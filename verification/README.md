# A verified model of the social-media analysis portal's core

The portal lets an investigator sign in, submit a piece of social-media content
for a (mock) semantic and threat analysis, look back at their analysis history,
send a contact request, reset a password and browse archived case reports.
This project models, in Dafny, the parts of it that carry logic:

- **the in-memory store** (`MemStorage`): three insertion-ordered id → record
  maps with one id counter each, as the modules `OrderedMap` and `Storage`;
- **the record shapes** of users, analyses and contact requests and their
  insert shapes (`Schema`);
- **the analysis endpoints** (`Analysis`): the request schema, the two report
  generators with every `Math.random()` call turned into an explicit draw, the
  rendered report texts, `POST /api/analyze` and `GET /api/analysis/history`;
- **the contact endpoint** `POST /api/contact` (`Routes`);
- **the request-body checks** the handlers rely on: required strings, minimum
  lengths counted in UTF-16 code units, and issue lists (`Validation`);
- **the sign-in page** (`AuthPage`): the login and sign-up schemas and the
  CAPTCHA gate in front of the login and register requests;
- **the reset-password page** (`ResetPassword`), whose submit handler never
  compares the CAPTCHA;
- **the shared password rule** (`PasswordPolicy`), the regular expression
  modelled as the engine reads it and proved equal to its plain reading;
- **the CAPTCHA generator** of both pages (`Captcha`) and their two alphabets;
- **the archives filter** and its "Clear Filters" button (`Archives`).

Randomness, clocks and failures of the store are parameters. A shuffle
`xs.sort(() => 0.5 - Math.random())` is given as the permutation of indices
it leaves the array in. Each `Math.floor(Math.random() * n)` is given as an
index below `n`. Each `Math.random() > t` test is given as a boolean. The
ISO time strings are opaque strings. A `storageFails` flag says whether the
storage call of a handler throws. The in-memory store itself never throws, so
the handlers' 500 branches are modelled through that flag.

Every operation is paired with a property that relates it to something else:

- the store operations are tied to the store invariant `Storage.Valid`, which
  every reachable store keeps, and to lookups after each update;
- each handler is tied to the store after the request and to the other
  handler (the history after an analysis);
- the report texts are tied to the counts they print, read back through
  `Text.DecimalValue`;
- the password regular expression is tied to a plain statement of the rule;
- the CAPTCHA generator is tied to the set of codes it can produce;
- the archive filter is tied to the "Clear Filters" state and to narrowing
  the filters.

Generic helpers live in `Util` (`Filter`, `Find`, subsequences, permutations)
and `Text` (JavaScript whitespace, `split(/\s+/)`, `toLowerCase`, `includes`,
decimal rendering, multi-line text).

## Model

| member | source | states |
|---|---|---|
| Schema.UserWithId | shared/schema.ts:5-11 | A user is its insert fields plus the id; the insert part reads back unchanged and the id is the one given. |
| Schema.AnalysisWithId | shared/schema.ts:13-22 | An analysis is its insert fields plus the id; the insert part reads back unchanged. |
| Schema.ContactRequestWithId | shared/schema.ts:24-32 | A new contact request carries the given id and insert fields, with `resolved` false. |
| Schema.RecordsAreInsertPlusId | shared/schema.ts:34-57 | Every record is rebuilt exactly from its picked insert fields and its id; a contact request is rebuilt with `resolved` reset to false. |
| OrderedMap.Get | server/storage.ts:44-46 | `Map.get` yields a value exactly when the key is present, and then the value stored under that key. |
| OrderedMap.Set | server/storage.ts:57 | `Map.set` appends a new key at the end, as the entry (k, v). A key already present keeps its position and that entry becomes (k, v); every other key keeps its position and no other entry changes. |
| OrderedMap.SetThenGet | server/storage.ts:57 | After `set`, the key maps to the new value and every other key maps to what it mapped to before. |
| OrderedMap.Values | server/storage.ts:85-87 | `Array.from(map.values())` lists the values in insertion order, one per entry. |
| OrderedMap.GetAtIndex | server/storage.ts:44-46 | When keys are unique and increasing, looking up the key stored at any position yields the value at that position. |
| OrderedMap.ValuesAppend | server/storage.ts:85-87 | Appending an entry appends its value to the value list. |
| Storage.NewMemStorage | server/storage.ts:32-38 | A fresh store satisfies the invariant, all three counters are 1, and every lookup, history and listing is empty. |
| Storage.GetUser | server/storage.ts:44-46 | A user is found exactly when the id is a key of the user map, and it is the record stored under that id. |
| Storage.GetUserByUsername | server/storage.ts:48-52 | Nothing is found exactly when no stored user has the name; otherwise the result is the earliest-inserted user with that name. |
| Storage.CreateUser | server/storage.ts:54-59 | The new user gets the current counter as id and exactly the given fields. Only the user map and its counter change, the counter by one. The new id finds the user and every other id's lookup is unchanged. |
| Storage.CreateAnalysis | server/storage.ts:61-66 | The same for analyses and their own counter. |
| Storage.GetAnalysisById | server/storage.ts:68-70 | An analysis is found exactly when the id is a key of the analysis map, and it is the record stored under it. |
| Storage.GetAnalysesByUserId | server/storage.ts:72-76 | Every result belongs to the user and is stored. Every stored analysis of the user is in the result as often as it is stored, in insertion order (a subsequence of all analyses). |
| Storage.GetContactRequests | server/storage.ts:85-87 | The listing has one record per stored entry, the i-th being the record of the i-th entry in insertion order. |
| Storage.CreateContactRequest | server/storage.ts:78-83 | The new request gets the contact counter as id, the given fields and `resolved` false. Only the contact map and its counter change. |
| Storage.UpdateContactRequest | server/storage.ts:89-98 | An unknown id changes nothing and yields nothing. A known id yields the stored record with `resolved` replaced, stored in place under the same id. No other entry and no other part of the store changes. |
| Storage.LookupById | server/storage.ts:44-46 | On a valid store a lookup by id returns a record whose `id` is that id, and every stored user and analysis is found under its own key. |
| Storage.AppendKeepsTableValid | server/storage.ts:55-57 | The current counter is never a key already in use, and appending under it and bumping the counter keeps the table's invariant. |
| Storage.CreateUserAppends | server/storage.ts:54-59 | On a valid store, creating a user appends exactly one entry keyed by the old counter and keeps the invariant. |
| Storage.CreateAnalysisAppends | server/storage.ts:61-66 | On a valid store, creating an analysis appends exactly one entry keyed by the old counter and keeps the invariant. |
| Storage.CreateContactRequestKeepsValid | server/storage.ts:78-83 | On a valid store, creating a contact request appends exactly one entry keyed by the old counter and keeps the invariant. |
| Storage.CreateContactRequestAppends | server/storage.ts:78-87 | Creating a contact request appends one entry, so the listing grows by the new record at its end, and keeps the invariant. |
| Storage.UpdateKeepsValid | server/storage.ts:89-98 | An update, of a known or unknown id, keeps the store invariant. |
| Storage.UpdateRewritesOneEntry | server/storage.ts:95-96 | An update keeps every position and key; the entry under the id gets only its `resolved` flag replaced and every other entry is untouched. |
| Storage.UpdateContactRequestOnlyFlag | server/storage.ts:95-97 | The listing keeps its length, ids and order. Only the record with the given id changes, and only in its `resolved` flag. |
| Storage.ApplyPreservesValid | server/storage.ts:54-98 | Each mutating store operation keeps the invariant and never lowers a counter. |
| Storage.RunPreservesValid | server/storage.ts:54-98 | Any sequence of store operations keeps the invariant and never lowers a counter (induction over the sequence). |
| Storage.ReachableStoresValid | server/storage.ts:32-98 | Every store reachable from a fresh one satisfies the invariant: ids are unique, increase in insertion order and match the record's `id`. |
| Storage.AnalysesByUserAfterAppend | server/storage.ts:72-76 | Appending an analysis extends exactly its owner's history, at the end, and leaves every other user's history unchanged. |
| Storage.CreateUserAcceptsDuplicate | server/storage.ts:54-59 | The store does not enforce the unique user name: a second user with a taken name is stored, and lookup by name still returns the earlier one. |
| Validation.Utf16Length | server/analysis.ts:6-10 | JavaScript's `length` is at least the number of code points and is zero only for the empty string. |
| Validation.Utf16LengthAppend | server/analysis.ts:6-10 | Appending a character adds one to the length, or two when it lies outside the Basic Multilingual Plane and so takes a surrogate pair. |
| Validation.MinLength | server/analysis.ts:6-10 | `.min(n, message)` reports no issue exactly when the UTF-16 length is at least `n`; otherwise it reports that message on that field. |
| Validation.StringField | shared/schema.ts:51-57 | A required string column reports no issue exactly when the key is present with a string value; every issue is on that key. |
| Validation.MinLengthField | server/analysis.ts:5-11 | A required `z.string().min(n)` field reports no issue exactly when a string of UTF-16 length at least `n` is present. |
| Analysis.ParseAnalysisRequest | server/analysis.ts:5-11 | The body parses exactly when all five fields are strings of length at least 1, and the parsed request carries them. A failed parse reports at least one issue, each on a field that fails. |
| Analysis.Sample | server/analysis.ts:23-25 | Taking the first `count` entries of a shuffled list yields `min(count, size)` entries of the list, pairwise distinct when the list's entries are. |
| Analysis.PerformSemanticAnalysis | server/analysis.ts:14-29 | Content length is the UTF-16 length and the word count is the number of whitespace runs plus one. The unique-word count lies between 1 and the word count. Each label comes from its vocabulary, and one to three distinct entities are chosen. |
| Analysis.SemanticReportStatesCounts | server/analysis.ts:30-46 | The rendered report has a line stating the content length and a line stating the word count, and the printed number reads back to the length. |
| Analysis.SemanticTextStatesCounts | server/analysis.ts:27-33 | Any text equal to the rendered semantic report has a line giving the UTF-16 length and a line giving the number of whitespace runs plus one. |
| Analysis.RecommendationByLevel | server/analysis.ts:79-84 | The four levels map to "Routine monitoring", "Enhanced monitoring", "Escalate for review" and "Immediate action required", and no two levels share a recommendation. |
| Analysis.PerformThreatAnalysis | server/analysis.ts:50-70 | The level is one of the four. At most two distinct indicators are chosen, all from the list. The recommendation is the one the level dictates, the timestamp is the one given. |
| Analysis.ThreatIgnoresContent | server/analysis.ts:50-70 | The threat report does not depend on the content: two contents with the same draws give the same report. |
| Analysis.IndicatorSection | server/analysis.ts:74-77 | The indicator block is the "No specific threat indicators detected." text exactly when no indicator was chosen. |
| Analysis.ThreatReportStatesLevel | server/analysis.ts:71-87 | The rendered threat report has a line stating the drawn level, a line stating that level's recommendation and a line stating the given timestamp. |
| Analysis.NoIndicatorsIffDrawZero | server/analysis.ts:66-77 | The report says no indicators were detected exactly when the draw `Math.floor(Math.random() * 3)` was 0. |
| Analysis.AnalyzeRoute | server/analysis.ts:92-133 | No session gives 401 "Unauthorized" and an invalid body gives 400 with the issues; neither changes the store. The status is 200 exactly when signed in with a valid body and no failing store write. A 500 carries the fixed message and changes nothing. The store changes only on a 200 with a user. |
| Analysis.AnalyzeStoresWhatItReturns | server/analysis.ts:100-124 | With a user, a successful analysis appends exactly one record, under the old counter, holding the user, the request's fields, the clock reading and the very texts returned. Nothing else changes and the invariant holds. |
| Analysis.AnalyzeOkBody | server/analysis.ts:100-124 | A signed-in request whose body parses and whose store write does not fail is answered 200, and the response body is exactly the semantic report and the threat report rendered for that content, with the given draws and the first clock reading. |
| Analysis.AnalyzeReportsContentLength | server/analysis.ts:105-124 | The semantic text returned to a signed-in request whose body parses and whose store write does not fail has a line stating the submitted content's length. |
| Analysis.AnalyzeReportsThreatLevel | server/analysis.ts:71-124 | The threat text returned to a signed-in request whose body parses and whose store write does not fail has a line stating the drawn level, a line with that level's recommendation and a line with the first clock reading. |
| Analysis.HistoryRoute | server/analysis.ts:136-148 | No session or no user gives the respective 401. The status is 200 exactly when a user is signed in and the lookup succeeds, with exactly that user's analyses in insertion order, each as often as it is stored. A 500 carries the fixed message. |
| Analysis.HistoryAfterAnalyze | server/analysis.ts:100-148 | After a successful analysis the caller's history is the old history plus the new record at its end; every other user's history is unchanged. |
| Routes.ParseContactRequest | shared/schema.ts:51-57 | The body parses exactly when name, email, type, message and createdAt are all strings (possibly empty), and the parsed request carries them. A failure lists at least one issue, each on a failing field. |
| Routes.ContactRoute | server/routes.ts:17-33 | A missing or non-string field gives 400, leaves the store unchanged and reports the issues of parsing the body with `createdAt` set to the server's time; a failing store gives 500 with the fixed message. Otherwise 201 reports `success: true` with the id the store assigned, and that id then finds a record with the sent fields, the server's time and `resolved` false. |
| Routes.ClientTimestampIgnored | server/routes.ts:19-22 | A `createdAt` sent by the client has no effect: the server's timestamp always overrides it. |
| Routes.ExtraKeysIgnored | server/routes.ts:19-22 | A key outside the five picked fields, such as `id` or `resolved`, has no effect on the outcome. |
| Routes.CreatedRequestIsListed | server/routes.ts:24-25 | After a 201 the store is still valid and the listing grows by one record, at the end, unresolved, with the server's time and the id the response reported. |
| PasswordPolicy.PasswordIssues | client/src/pages/auth-page.tsx:35-38 | The length message is reported exactly when the UTF-16 length is below 12, and the pattern message exactly when the regular expression does not match. |
| PasswordPolicy.SpecialCharsAsWritten | client/src/pages/auth-page.tsx:35-38 | A character is special exactly when it is one of `@$!%*?&`. |
| PasswordPolicy.PolicyCharacterized | client/src/pages/auth-page.tsx:35-38 | The password passes both checks exactly when it has at least 12 characters, at least one lower-case letter, one upper-case letter, one digit and one of `@$!%*?&`, and no other character. |
| Captcha.RefreshCaptcha | client/src/pages/auth-page.tsx:109-116 | The code has six characters and the i-th one is the alphabet character at the i-th draw. |
| Captcha.AlphabetsAsWritten | client/src/pages/reset-password.tsx:47 | The two alphabets are the literal strings the pages use: 36 characters on the sign-in page, 62 with the lower-case letters on the reset page. |
| Captcha.EveryCodeReachable | client/src/pages/auth-page.tsx:109-116 | Every six-character code over the alphabet is produced by some sequence of draws. |
| Captcha.AuthAlphabetCharacterized | client/src/pages/auth-page.tsx:110 | A character is in the sign-in alphabet exactly when it is an upper-case ASCII letter or a digit. |
| Captcha.ResetAlphabetCharacterized | client/src/pages/reset-password.tsx:47 | A character is in the reset alphabet exactly when it is an ASCII letter of either case or a digit. |
| Captcha.InitialCodeReachable | client/src/pages/auth-page.tsx:53 | The code shown before the first refresh, "XA7B9C", is one the generator could draw on the sign-in page, and lies in the reset alphabet too. |
| Captcha.AuthCodesHaveNoLowerCase | client/src/pages/auth-page.tsx:109-116 | No code the sign-in page generates contains a lower-case letter. |
| AuthPage.LoginIssues | client/src/pages/auth-page.tsx:25-30 | The login form has no issue exactly when all four fields are non-empty; every issue is on one of them. |
| AuthPage.SignupFieldIssues | client/src/pages/auth-page.tsx:32-41 | The field checks pass exactly when each field does; the e-mail message appears exactly when the address is invalid, and every issue on the confirmation says it is required. |
| AuthPage.SignupIssues | client/src/pages/auth-page.tsx:32-45 | The sign-up form has no issue exactly when the user name is non-empty, the e-mail is valid and the password is strong. The confirmation must equal the password, and the organisation code and CAPTCHA must be non-empty. The mismatch message is reported exactly when the two passwords differ. |
| AuthPage.SubmitLogin | client/src/pages/auth-page.tsx:77-91 | Login is requested exactly when the form is complete and the typed CAPTCHA equals the displayed code, and then with the user name and password only. An incomplete form shows the schema's issues. |
| AuthPage.SubmitSignup | client/src/pages/auth-page.tsx:93-107 | Registration is requested exactly when the form passes the schema and the typed CAPTCHA equals the displayed code, and then with the user name and password only. A valid form with a wrong code gets the "Invalid CAPTCHA" outcome. |
| AuthPage.LoginIgnoresOrgCode | client/src/pages/auth-page.tsx:77-91 | Any two non-empty organisation codes give the same outcome: the code is never checked. |
| AuthPage.SignupSendsOnlyCredentials | client/src/pages/auth-page.tsx:103-106 | Two accepted sign-up forms with the same user name and password send the same request, whatever their e-mail and organisation code. |
| AuthPage.CaptchaIsCaseSensitive | client/src/pages/auth-page.tsx:78 | While a sign-in code is displayed, typing any code that contains a lower-case letter never requests a login. |
| AuthPage.LowerCasedCodeRefused | client/src/pages/auth-page.tsx:78 | Typing the displayed code in lower case is refused whenever the code contains an upper-case letter. |
| ResetPassword.ResetIssues | client/src/pages/reset-password.tsx:11-24 | The reset form has no issue exactly when the e-mail is present and valid, the organisation code is present and non-empty and the current password is non-empty. The new password must be strong, its confirmation equal to it, and the CAPTCHA non-empty. |
| ResetPassword.MismatchReported | client/src/pages/reset-password.tsx:21-24 | "Passwords don't match" is reported exactly when the e-mail and organisation code are both present and the two new-password entries differ; an absent field stops the match check. |
| ResetPassword.SubmitReset | client/src/pages/reset-password.tsx:41-44 | The values are logged exactly when the form passes the schema, unchanged; otherwise the schema's issues are shown. |
| ResetPassword.CaptchaNeverCompared | client/src/pages/reset-password.tsx:41-44 | The outcome is the same whatever code is displayed. |
| ResetPassword.AnyTypedCodeAccepted | client/src/pages/reset-password.tsx:41-44 | Replacing the typed code of an accepted form by any non-empty string, right or wrong, is still accepted. |
| Archives.FilteredArchives | client/src/pages/archives-page.tsx:38-51 | The result holds exactly the items that match the search, the day and both field filters, in list order; a matching item appears as often as in the list and a non-matching one not at all. |
| Archives.FilteringTwiceChangesNothing | client/src/pages/archives-page.tsx:38-51 | Filtering the shown items again with the same state shows the same items. |
| Archives.ClearedShowsEverything | client/src/pages/archives-page.tsx:86-92 | After "Clear Filters" every item is shown, in order. |
| Archives.SearchIgnoresCase | client/src/pages/archives-page.tsx:39-42 | Lower-casing the search query changes nothing. |
| Archives.NarrowingHidesOnly | client/src/pages/archives-page.tsx:38-51 | A state whose query and field filters contain the old ones, and which keeps any chosen day, shows a subsequence of what the old state showed. |
| Archives.EveryStateNarrowsCleared | client/src/pages/archives-page.tsx:86-92 | Every filter state narrows the cleared one, so clearing can only reveal items. |
| Text.SplitCountsRuns | server/analysis.ts:27 | `split(/\s+/)` yields one more piece than the input has maximal runs of whitespace. |
| Text.SplitLowerSameCount | server/analysis.ts:27-28 | Lower-casing does not change the number of pieces, so the unique-word count is taken over as many words as the word count. |
| Text.DistinctCountBounds | server/analysis.ts:28 | The size of the set of pieces is at most their number, and at least 1 when there is a piece. |
| Text.DecimalRoundTrip | server/analysis.ts:32-34 | Printing a count in decimal and reading it back gives the count. |
| Text.ContainsTransitive | client/src/pages/archives-page.tsx:40-48 | If `b` occurs in `a` and `c` in `b`, then `c` occurs in `a`. |
| Text.LowerIdempotent | client/src/pages/archives-page.tsx:40-42 | Lower-casing twice is lower-casing once. |
| Util.Filter | server/storage.ts:73-75 | `filter` keeps only elements that satisfy the test, every one of them, as a subsequence of the input. |
| Util.FilterCounts | server/storage.ts:73-75 | `filter` keeps each satisfying element as many times as it occurs, and no other element. |
| Util.Find | server/storage.ts:49-51 | `find` yields nothing exactly when no element satisfies the test, and otherwise the first element that does. |
| Util.FilterAppend | server/storage.ts:73-75 | Appending an element grows the filtered list by that element exactly when it satisfies the test. |
| Util.FindAppend | server/storage.ts:49-51 | Appending after a match does not change which element `find` returns. |
| Util.FilterMonotone | client/src/pages/archives-page.tsx:38-51 | A stricter test keeps a subsequence of what a weaker test keeps. |

## Left out

- The session store (`memorystore`), Passport and the sign-in and register endpoints are not part of this model. The session a handler sees is a parameter.
- `Math.random()` and the clock are parameters: each draw is given, and each `new Date().toISOString()` is an opaque string.
- The store never throws, so the 500 branches of the handlers are reached through an explicit `storageFails` input.
- `error.message` of a validation failure is the issue list itself, not its JSON text. The messages of type errors ("Required", "Expected string") stand for the library's.
- The `z.string().email()` check is the input `emailValid`; the library's e-mail pattern is not modelled.
- The day filter of the archives takes the already formatted `yyyy-MM-dd` string; `date-fns` formatting is not modelled.
- Analysis.PerformSemanticAnalysis: `toLowerCase` is modelled for ASCII letters only; other scripts' case mappings are not modelled.
- Analysis.AnalyzeReportsContentLength: states only the length line of a successful response; the word-count line of that response follows from Analysis.AnalyzeOkBody together with Analysis.SemanticTextStatesCounts.
- Archives.SearchIgnoresCase: the archive search (client/src/pages/archives-page.tsx:40-42) uses the same ASCII-only `toLowerCase`, so case-insensitive matching is modelled for ASCII letters only.
- Text.SplitCountsRuns: the count of pieces is proved; which characters count as whitespace follows the ECMAScript `\s` class, but the pieces' contents are only used through their number and their set.
- Storage.CreateUser: ids are unbounded integers; the source's numbers would lose precision beyond 2^53, which is not modelled.
- React rendering, toasts, routing, the mock archive list and the pages without logic (forgot-password, contact, help, documentation) are left out.
- Code versus comment: the comment at server/analysis.ts:66 says 0 to 3 indicators are selected, but `Math.floor(Math.random() * 3)` selects 0 to 2; the model follows the code.
- Code versus intent: the contact columns are `notNull`, which reads as "required", but the insert schema derived from them accepts empty strings; the model follows the code.
- Differences between pages: the reset page draws its CAPTCHA from 62 characters including lower case, unlike the sign-in page's 36; the model keeps both alphabets.
