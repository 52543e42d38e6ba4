# Independent-professional platform: the rules under the pages

This project models, in Dafny, the logic that sits under the pages of a Next.js site for
barbers and cosmetologists. The site teaches self-employment and sells one unlock.

The model covers these parts:

- **Income structure.** The onboarding answers (role, collection method, income structure,
  entity status) resolve to one of the pipelines A, B or HYBRID. Module `Pipeline`.
- **Income-pipeline page.** The page turns a saved profile into a preview and picks the
  one diagram it draws. Module `IncomePipeline`.
- **Calculators.** Net income after expenses, the quarterly estimated-tax illustration
  with its five brackets, and the default expense lists per role. Module `Calculators`.
- **Session cookie.** The cookie carries `userId.timestamp.signature`. `setSession`
  writes it, `clearSession` empties it and `getSessionUserId` splits and checks it.
  Module `Auth`.
- **Passwordless login.** Six-digit one-time codes that expire after ten minutes; only
  the latest code for an e-mail counts. Module `AuthActions`.
- **Checkout.** The success page reconciles a Stripe checkout into a user row and an
  "active" entitlement. Module `Checkout`.
- **Current user and unlock.** `CurrentUser` looks up the current user and holds the
  unlock predicate. `MeRoute` models the `/api/me` answer.
- **Early entitlement store.** An in-memory, e-mail-keyed store. Module
  `BackupEntitlementStore`.
- **Checklist progress.** Per user and checklist, with toggle and reset. Module
  `Checklist`.
- **Saving the profile.** The signed-in user's profile is upserted. Module
  `SaveProfileAction`.
- **Local preview profile.** Anonymous visitors keep their answers in one localStorage
  slot. Module `PreviewProfileStore`.
- **Usage log.** Decides refund eligibility. Module `TrackUsage`.

Shared modules hold what the server code needs:

- `Wrappers`: the optional value.
- `Text`: the JavaScript string built-ins the server code calls.
- `Profile`: the answer types of `types/profile.ts`.
- `Store`: the database tables as fields of a `Database` class, plus the upsert,
  find-unique and find-latest queries over them.

Stateful parts are classes whose methods update fields:

- the cookie jar `Auth.SessionCookie`;
- the database `Store.Database`;
- the localStorage slot `PreviewProfileStore.PreviewStorage`;
- the in-memory map `BackupEntitlementStore.EntitlementStore`;
- the page state `IncomePipeline.IncomePipelinePage`.

Each method states its whole new state in terms of pure functions, and the lemmas prove
what the site relies on about those functions.

How the outside world is represented:

- The server's HMAC is an arbitrary function whose results contain no '.'.
- The SHA-256 code hash is an arbitrary function passed in.
- `Math.random()` is a real `r` in [0, 1).
- `Date.now()` is a natural number of milliseconds.
- The Stripe checkout session is a function from session id to session.
- A failing database insert is a boolean input.
- JavaScript numbers are exact reals.

## Model

| member | source | states |
|---|---|---|
| Pipeline.ResolveIncomeStructure | lib/pipeline.ts:9-21 | the resolution is never empty, and it is a valid structure for any well-typed profile |
| Pipeline.ExplicitStructureWins | lib/pipeline.ts:10 | an explicit (truthy) income structure is returned unchanged whatever the collection method |
| Pipeline.InferFromCollectionMethod | lib/pipeline.ts:11-20 | the switch always yields a valid structure; A exactly for SHOP, B exactly for DIRECT |
| Pipeline.InferenceTable | lib/pipeline.ts:11-17 | without an explicit structure SHOP gives A, DIRECT gives B and BOTH gives HYBRID |
| Pipeline.DefaultIsHybrid | lib/pipeline.ts:18-19 | with no structure and no recognised collection method the answer is HYBRID |
| Pipeline.ResolveReadsOnlyStructureAndMethod | lib/pipeline.ts:9-21 | two profiles that agree on structure and collection method resolve alike; role, entity status and time stamp are ignored |
| Pipeline.ResolveIdempotent | lib/pipeline.ts:10 | storing the resolved structure as the explicit answer resolves to the same structure |
| Pipeline.RoleLabel | lib/pipeline.ts:23-27 | "Barber" exactly for barber, "Cosmetologist" exactly for cosmetologist, the generic label exactly for anything else |
| Calculators.TotalOfConcat | lib/calculators.ts:28 | the reduce total of two concatenated expense lists is the sum of their totals |
| Calculators.TotalExpenses | lib/calculators.ts:28 | the reduce total from 0; non-negative amounts have a non-negative total |
| Calculators.TotalOfZeros | lib/calculators.ts:28 | a list of zero amounts totals 0 |
| Calculators.CalculateNetIncome | lib/calculators.ts:27-37 | gross income and expenses are echoed; net income is never negative; it is gross minus total when that is not negative, and 0 otherwise |
| Calculators.Round | lib/calculators.ts:90-94 | Math.round gives the integer within half of its argument, halves rounding up |
| Calculators.IncomeTax | lib/calculators.ts:69-81 | on a non-negative base the tax lies between 10 % and 32 % of the base; below 0 it is 10 % of the base |
| Calculators.IncomeTaxIsMarginal | lib/calculators.ts:71-81 | the if-chain with constants 1160, 5426, 17168.5 and 39110.5 equals the bracket-by-bracket schedule at 10/12/22/24/32 % |
| Calculators.IncomeTaxContinuousAtEdges | lib/calculators.ts:71-81 | just above each edge 11600, 47150, 100525 and 191950 the tax grows by the next rate times the excess: no jump |
| Calculators.IncomeTaxMonotone | lib/calculators.ts:71-81 | more taxable income never means less income tax |
| Calculators.SelfEmploymentTax | lib/calculators.ts:63-64 | 15.3 % of 92.35 % is 14.12955 % of the income, never more than a non-negative income |
| Calculators.TaxableIncome | lib/calculators.ts:68 | income less half the self-employment tax is 92.935225 % of the income |
| Calculators.TaxableIncomeNonNegative | lib/calculators.ts:63-68 | for non-negative income, income less half the self-employment tax lies between 0 and the income |
| Calculators.EffectiveRatePercent | lib/calculators.ts:85-86 | non-positive income gives rate 0 with no division; a non-negative tax gives a non-negative rate |
| Calculators.RoundToTenth | lib/calculators.ts:94 | the result is the nearest tenth: above x - 0.05 and at most x + 0.05; 0 stays 0 and non-negative values stay non-negative |
| Calculators.RoundOfSum | lib/calculators.ts:90-92 | rounding two addends separately differs from rounding their sum by at most 1 |
| Calculators.RoundOfQuarter | lib/calculators.ts:84-93 | four rounded quarters lie within 2 of the rounded whole |
| Calculators.CalculateQuarterlyEstimate | lib/calculators.ts:57-96 | the annual net income is echoed in the result |
| Calculators.QuarterlyRoundingArtefacts | lib/calculators.ts:83-95 | each field is rounded on its own: the reported total is within 1 of the sum of the reported parts, four reported quarters within 2 of the total |
| Calculators.QuarterlyZeroIncome | lib/calculators.ts:60-95 | zero income reports 0 in every field |
| Calculators.QuarterlyRateGuard | lib/calculators.ts:85-86 | a non-positive income reports an effective rate of 0 |
| Calculators.QuarterlyNonNegative | lib/calculators.ts:57-96 | a non-negative income never reports a negative amount or rate |
| Calculators.GetDefaultExpenses | lib/calculators.ts:102-145 | ten categories for barber and cosmetologist, eight for any other role; all amounts 0; no label repeats |
| Calculators.DefaultExpensesCostNothing | lib/calculators.ts:102-145 | with a default list the total is 0 and the net income is the gross clamped at 0 |
| Auth.SessionToken | lib/auth.ts:12-14 | the token starts with the user id and holds exactly two dots more than the user id |
| Auth.VerifySessionToken | lib/auth.ts:31-44 | an identity is only ever read from a non-empty cookie with exactly two dots, and it contains no dot |
| Auth.VerifyThreeParts | lib/auth.ts:36-43 | for three dot-free parts the answer is the user id exactly when the signature is the HMAC of `userId.ts` |
| Auth.RoundTrip | lib/auth.ts:12-43 | the token written for a dot-free user id verifies to that user id |
| Auth.DottedUserIdNeverValidates | lib/auth.ts:12-37 | a user id containing '.' yields a token that never verifies |
| Auth.AnyTimestampAccepted | lib/auth.ts:39-43 | a correctly signed token verifies whatever its timestamp |
| Auth.SessionCookie.GetSessionUserId | lib/auth.ts:31-44 | no user for an absent or emptied cookie; a user id read from the cookie contains no dot |
| Auth.SessionCookie.SetSession | lib/auth.ts:11-24 | the cookie becomes the new token, replacing any earlier one; it reads back as the user id exactly when that id has no dot |
| Auth.SessionCookie.ClearSession | lib/auth.ts:26-29 | the cookie becomes "" and reads back as no user |
| AuthActions.NormaliseEmail | app/actions/authActions.ts:16 | trimming then lower-casing gives an address no longer than the input with no capitals left |
| AuthActions.NormaliseEmailIsTrimmed | app/actions/authActions.ts:16 | a normalised e-mail has no whitespace at either end |
| AuthActions.NormaliseEmailIdempotent | app/actions/authActions.ts:37 | trimming and lower-casing twice is doing it once, on both login paths |
| AuthActions.CodeNumber | app/actions/authActions.ts:12 | every draw in [0, 1) gives an integer from 100000 to 999999 |
| AuthActions.RandomCode | app/actions/authActions.ts:11-13 | the code is six decimal digits denoting a number from 100000 to 999999 |
| AuthActions.RandomCodeIsTrimmed | app/actions/authActions.ts:38 | trimming the code typed back leaves it intact |
| AuthActions.RequestLoginCode | app/actions/authActions.ts:15-34 | the user table is upserted by the normalised e-mail and exactly one code record is appended, hashed, expiring 600000 ms after now |
| AuthActions.LoginCodeUser | app/actions/authActions.ts:36-51 | a successful verification names the owner of the e-mail and rests on a stored, unexpired code with the submitted code's hash |
| AuthActions.NoCodeFails | app/actions/authActions.ts:40-45 | no code for the normalised e-mail: verification fails |
| AuthActions.ExpiredCodeFails | app/actions/authActions.ts:46 | a latest code with `expiresAt < now` fails even with the right code |
| AuthActions.OnlyLatestCodeCounts | app/actions/authActions.ts:40-47 | when the latest code's hash differs, verification fails whatever older codes match |
| AuthActions.RequestThenVerify | app/actions/authActions.ts:15-53 | request, then verify with the returned code up to and including the expiry, signs in the owner of the e-mail, provided every earlier code for the e-mail was created strictly before the request |
| AuthActions.VerifyLoginCode | app/actions/authActions.ts:36-54 | true exactly when a user is decided, and then the cookie carries that user's token and reads back as that user's id; on false the cookie is untouched; the code is not consumed |
| Store.Lookup | lib/currentUser.ts:8-14 | a keyed find-unique gives the row exactly when the key is present |
| Store.FindUserById | lib/currentUser.ts:8-9 | the user found has the id asked for and is in the table; none exactly when no user has it |
| Store.FindUserByEmail | app/actions/authActions.ts:49 | the user found has the e-mail asked for and is in the table; none exactly when no user has it |
| Store.UpsertUserByEmail | app/actions/authActions.ts:22-26 | afterwards a user has the e-mail; the old table is a prefix and at most one user is added; the unique constraints are kept |
| Store.UpsertExistingUser | app/checkout/success/page.tsx:27-31 | an e-mail that already has a user leaves the table unchanged |
| Store.UpsertUserIdempotent | app/checkout/success/page.tsx:27-31 | upserting an e-mail twice is upserting it once |
| Store.UpsertKeepsOtherUsers | app/actions/authActions.ts:22-26 | lookups of every other e-mail are unchanged by an upsert |
| Store.LatestCode | app/actions/authActions.ts:40-43 | none exactly when no code has the e-mail; otherwise a stored code for it whose creation time no other code for it exceeds |
| Store.LatestCodeAfterAppend | app/actions/authActions.ts:40-43 | a code appended strictly after the others for its e-mail becomes the latest |
| Checkout.CheckoutEmail | app/checkout/success/page.tsx:17 | the address is lower-case, and usable exactly when the details address or the customer e-mail is; when the details address is falsy it is the lower-cased customer e-mail, or none |
| Checkout.DetailsEmailPreferred | app/checkout/success/page.tsx:17 | a truthy customer-details address is the one used |
| Checkout.CheckoutEmailNotTrimmed | app/checkout/success/page.tsx:17 | an address with leading whitespace is kept as it is by checkout, while login trims it to a different address |
| Checkout.Reconcile | app/checkout/success/page.tsx:27-46 | users only grow, by at most one, keeping the constraints; the e-mail's user is found; that user's entitlement is "active" with the session id; every other entitlement is unchanged |
| Checkout.ReconcileExistingUser | app/checkout/success/page.tsx:27-31 | an existing customer keeps their user row and id |
| Checkout.ReconcileIdempotent | app/checkout/success/page.tsx:27-46 | reconciling the same checkout twice equals reconciling once at the later time |
| Checkout.SuccessPage | app/checkout/success/page.tsx:12-46 | no session id: redirect, nothing written; no usable e-mail: reported, nothing written; otherwise the tables become those of the reconciliation |
| CurrentUser.GetCurrentUser | lib/currentUser.ts:4-15 | no user without a truthy session id or a user with that id; otherwise that user with the entitlement and profile stored under the id |
| CurrentUser.IsUnlocked | lib/currentUser.ts:17-19 | an unlocked user exists and has an entitlement |
| CurrentUser.IsUnlockedCases | lib/currentUser.ts:17-19 | no user or no entitlement is locked; otherwise unlocked exactly when the status is "active", so "ACTIVE" is locked |
| CurrentUser.UnlockedAfterCheckout | lib/currentUser.ts:17-19 | after checkout the reconciled user, once signed in, is current and unlocked |
| MeRoute.MeGetAsWritten | app/api/me/route.ts:4-17 | no current user gives `{ user: null }`; the profile is passed through; unlocked exactly when there is an entitlement with status "ACTIVE", so never for "active" |
| MeRoute.CheckoutPurchaseReportedLocked | app/api/me/route.ts:13 | a user unlocked through checkout is reported locked by the route as written |
| MeRoute.MeGet | app/api/me/route.ts:4-17 | no current user gives `{ user: null }`; the profile is passed through; `unlocked` agrees with `isUnlocked` |
| MeRoute.CheckoutPurchaseReportedUnlocked | app/api/me/route.ts:13 | with the corrected comparison a user unlocked through checkout is reported unlocked |
| BackupEntitlementStore.EntitlementStore.constructor | lib/backupentitlementStore.ts:10 | the store starts empty |
| BackupEntitlementStore.EntitlementStore.HasEntitlement | lib/backupentitlementStore.ts:20-23 | true exactly for a non-empty e-mail present as a key; reads the store without changing it |
| BackupEntitlementStore.EntitlementStore.GrantEntitlement | lib/backupentitlementStore.ts:12-18 | the record for the e-mail is replaced by an "ACTIVE" one filed under it; every other key keeps its answer; the grant is then visible |
| Checklist.RemoveAll | app/actions/checklistActions.ts:68 | the filtered list holds exactly the other ids and no occurrence of the removed one |
| Checklist.RemoveAllAppend | app/actions/checklistActions.ts:68 | filtering a concatenation filters each part |
| Checklist.RemoveAllAbsent | app/actions/checklistActions.ts:68 | filtering out an absent id changes nothing |
| Checklist.RemoveAllNoDuplicates | app/actions/checklistActions.ts:68 | filtering keeps a list free of duplicates |
| Checklist.Toggled | app/actions/checklistActions.ts:66-71 | the toggle flips membership of the step id and keeps every other id's membership |
| Checklist.ToggleKeepsOthersInOrder | app/actions/checklistActions.ts:66-71 | with the step id filtered out, the list is as before: other ids keep their order |
| Checklist.ToggleKeepsNoDuplicates | app/actions/checklistActions.ts:66-71 | toggling keeps a list free of duplicates |
| Checklist.ToggleTwice | app/actions/checklistActions.ts:66-71 | toggling twice restores the set of ids, and the very list when the id was absent |
| Checklist.GetChecklistProgress | app/actions/checklistActions.ts:11-33 | [] when signed out, without a row or for unparsable text; otherwise the stored list |
| Checklist.ToggleChecklistStep | app/actions/checklistActions.ts:38-92 | signed out: not ok, [] and nothing written; signed in: the toggled list is stored, returned and read back |
| Checklist.ResetChecklistProgress | app/actions/checklistActions.ts:97-113 | signed out: not ok and nothing written; signed in: only that (user, checklist) row is deleted, and progress reads back as [] |
| SaveProfileAction.UpsertProfile | app/actions/saveProfile.ts:11-26 | a created row holds the four answers; an updated row takes every given answer and keeps its other columns |
| SaveProfileAction.UpsertProfileIdempotent | app/actions/saveProfile.ts:11-26 | saving the same preview twice leaves the row of the first save |
| SaveProfileAction.CompletePreviewOverwrites | app/actions/saveProfile.ts:13-25 | a preview answering all four questions determines the row whatever was stored |
| SaveProfileAction.SaveProfile | app/actions/saveProfile.ts:7-29 | signed out: the error and nothing written; signed in: only that user's row changes, to the upsert of the old one |
| PreviewProfileStore.SafeParse | lib/previewProfile.ts:7-16 | a serialised profile object gives that profile; a missing or empty slot, unparsable text or a non-object gives {} |
| PreviewProfileStore.Merge | lib/previewProfile.ts:26-30 | answers in the partial win, all other current answers are kept, the time stamp is now |
| PreviewProfileStore.SuccessiveSetsAccumulate | lib/previewProfile.ts:25-31 | setting one partial then another equals setting once the first overridden by the second |
| PreviewProfileStore.MergeIdempotent | lib/previewProfile.ts:25-31 | setting the same answers twice equals setting them once at the later time |
| PreviewProfileStore.PreviewStorage.GetPreviewProfile | lib/previewProfile.ts:7-21 | {} on the server and for a missing, empty, unparsable or non-object slot; otherwise the stored profile |
| PreviewProfileStore.PreviewStorage.SetPreviewProfile | lib/previewProfile.ts:23-33 | on the server the partial is returned and nothing stored; in the browser the merge is stored, returned and read back |
| PreviewProfileStore.PreviewStorage.ClearPreviewProfile | lib/previewProfile.ts:35-38 | the slot is removed in the browser, left alone on the server; get then gives {} |
| TrackUsage.UsageCount | app/actions/trackUsage.ts:41-47 | a count never exceeds the log's length |
| TrackUsage.UsageCountIsNumberOfEvents | app/actions/trackUsage.ts:41-47 | the count is the number of logged events with that user id |
| TrackUsage.UsageCountAppend | app/actions/trackUsage.ts:21-28 | appending an event raises its user's count by one and no other count |
| TrackUsage.HasConsumedContent | app/actions/trackUsage.ts:53-59 | consumed exactly when the user has at least `threshold` events in the log, the threshold being 3 unless given |
| TrackUsage.ConsumedStaysConsumed | app/actions/trackUsage.ts:53-59 | the log only grows, so content once consumed stays consumed |
| TrackUsage.TrackUsage | app/actions/trackUsage.ts:8-35 | signed out or on a failing insert: not ok and the log unchanged; otherwise exactly one event is appended, with its metadata or null, and only that user's count rises, by one |
| IncomePipeline.MapDbProfileToPreview | app/tools/income-pipeline/page.tsx:388-401 | no saved profile gives {}; otherwise each column is copied unvalidated, null becoming absent, with no time stamp |
| IncomePipeline.NoSavedProfileIsHybrid | app/tools/income-pipeline/page.tsx:394 | without a saved profile the page resolves to HYBRID |
| IncomePipeline.SavedPreviewRoundTrip | app/tools/income-pipeline/page.tsx:388-401 | a first save of a preview reads back as that preview without its time stamp, and resolves to the same structure |
| IncomePipeline.StructureLabel | app/tools/income-pipeline/page.tsx:403-412 | a heading exactly for A, B and HYBRID |
| IncomePipeline.StructureLabelInjective | app/tools/income-pipeline/page.tsx:403-412 | different structures get different headings |
| IncomePipeline.DiagramsShown | app/tools/income-pipeline/page.tsx:527-529 | each diagram is drawn exactly when the structure is its own |
| IncomePipeline.ExactlyOneDiagram | app/tools/income-pipeline/page.tsx:527-529 | exactly one diagram for each valid structure, none for any other string |
| IncomePipeline.ResolvedProfileDrawsOneDiagram | app/tools/income-pipeline/page.tsx:451-454 | a well-typed profile always gets exactly one diagram |
| IncomePipeline.IncomePipelinePage.constructor | app/tools/income-pipeline/page.tsx:419-421 | the page starts with {}, locked and loading |
| IncomePipeline.IncomePipelinePage.LoadEffect | app/tools/income-pipeline/page.tsx:423-449 | loading ends; a saved profile from `/api/me` replaces the preview entirely, otherwise the preview is shown; the page unlocks exactly when the response says so |

## Left out

- JavaScript numbers: the calculators use exact reals. IEEE-754 rounding, and `Math.round` at binary halves, are not modelled. `Math.round(x)` is `floor(x + 0.5)`.
- `formatCurrency`: a display wrapper over `Intl.NumberFormat`.
- Calculators.CalculateQuarterlyEstimate: its own contract only echoes the income. Its properties are the lemmas `QuarterlyRoundingArtefacts`, `QuarterlyZeroIncome`, `QuarterlyRateGuard` and `QuarterlyNonNegative`.
- HMAC-SHA256 of the session signature: an arbitrary function. The property used is that its hex output contains no '.'.
- SHA-256 of login codes: an arbitrary function.
- Secret handling, cookie attributes (httpOnly, sameSite, secure, path, max-age) and cookie expiry are not modelled. The max-age of `clearSession` is not modelled either; only the emptied value is.
- `Math.random()`, `Date.now()` and `new Date()` are parameters. Times are integers of milliseconds.
- Stripe: `stripe.checkout.sessions.retrieve` is an input function, and its failures are not modelled. Checkout-session creation is not part of this model.
- Prisma: tables are in-memory sequences and maps. The model covers only the queries the server actions issue, namely find-unique, upsert, find-first by creation time, create, delete-many and count.
- Store.LatestCode: codes for one e-mail with equal creation times are left unordered by the database, while the model returns the later insertion. No lemma relies on that choice: `Store.LatestCodeAfterAppend` and `AuthActions.RequestThenVerify` require earlier codes to be strictly older.
- Prisma cuid generation: user ids are "c" followed by the row number. Only uniqueness and the absence of '.' are relied on.
- Database failures are not modelled, except the one `trackUsage` catches.
- Foreign keys and cascades are not modelled, and neither is concurrency between requests (for example two reloads of the success page at once).
- Text.ToLower: only ASCII letters are lower-cased. The full Unicode case mapping of `toLowerCase` is not modelled.
- JSON: the stored checklist text is valid JSON of a string list, or text that does not parse. Valid JSON of another shape, which the source casts unchecked, is not modelled.
- The localStorage text is one of "", unparsable, a non-object, or a serialised profile object. An object holding keys other than the profile's is not modelled. A JSON array is an object to the guard of lib/previewProfile.ts:11, so it is returned as the profile; the model does not represent arrays in the slot.
- Usage metadata is a map from strings to strings. The source's `Record<string, unknown>` and its serialisation are abstracted.
- A partial preview with a key explicitly set to `undefined`: the spread would erase the current answer. The model treats such a key as absent.
- `trackUsage` does not await `getSessionUserId()` (app/actions/trackUsage.ts:13). As written, the sign-in guard never fires, because a promise is truthy, and the insert is handed the unawaited promise instead of a string; what the database layer does with it is not modelled. The model follows the evident intent: the awaited, optional user id.
- `verifyLoginCode` does not await `setSession` (app/actions/authActions.ts:52). The model sets the cookie before returning.
- Redirects, `NextResponse` plumbing, environment variables and all page markup are left out. The only exception is the diagram choice and the load effect of the income-pipeline page.
- React state updates and `useTransition`: the load effect runs as one sequential step, and the optimistic checklist toggle on the pages is not modelled.

## Findings

| source | as written | input that shows it | evidently intended | confidence | as-written member | corrected member |
|---|---|---|---|---|---|---|
| app/api/me/route.ts:13 | `unlocked` is true only for entitlement status "ACTIVE" | any user after a completed checkout, whose entitlement the success page writes with status "active" (app/checkout/success/page.tsx:36) | compare with "active", as `isUnlocked` does (lib/currentUser.ts:18) | high; not executed | MeRoute.MeGetAsWritten, MeRoute.CheckoutPurchaseReportedLocked | MeRoute.MeGet, MeRoute.CheckoutPurchaseReportedUnlocked |
