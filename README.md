# News reader client state, modelled in Dafny

This project models the client-side state of a React news reader that lets a
signed-in user save articles. It covers:

- **The session and saved-article store** (`Session.CurrentUserStore`). It holds
  `isLoggedIn`, `currentUser`, `authLoading`, `savedArticles`, `keywords` and
  the token slot in browser storage. Its operations are start-up token
  reconciliation, sign-in, sign-up, sign-out, save and delete. Each backend
  call is a function parameter, so the contracts say which arguments each call
  receives and what its outcome does to the state.
- **The keyword merge** (`Keywords`). It flattens the articles' tags, drops
  empty ones and removes repeats with the `indexOf(k) === index` filter. It is
  proved equal to the walk that appends each keyword not yet present.
- **The async-call wrapper** (`ApiCall`): one `isLoading`/`apiError` pair around
  one awaited call.
- **The dialog state** (`Modal`).
- **The form state** (`Form`): a values map, an errors map and the registry of
  mounted inputs. The browser's constraint validation is a function parameter.
- **The sign-up dialog's rules** (`RegisterModal`).
- **A news card's click, tooltip, class and tag decisions** (`NewsCard`).
- **Date strings** (`Decimal`, `FormatDate`): `YYYY-MM-DD` with a proved round
  trip, plus the guard branches of the display formatter.
- **The dialog focus trap** (`FocusTrap`).
- **The device test helpers** (`Viewport`): viewport classes and screenshot
  file names.
- **The test configuration lookup** (`TestConfig`).

Each operation is one atomic step, with all of its network outcomes fixed in
advance.

The model follows what the code does, including these details:

- `deleteArticle` does not recompute the keyword index. It reverses the list
  left after the removal.
- `saveArticle` has no token check and no duplicate check. It sends whatever
  storage holds, possibly nothing.
- `login` does not close any dialog.
- A delete whose url is not in the list fails with a TypeError when it reads
  `._id`. There is no dedicated "not found" error.
- After the user is fetched, a failed saved-article load during start-up still
  removes the token and sets `isLoggedIn` to false, but `currentUser` keeps the
  fetched user.

## Model

| member | source | states |
|---|---|---|
| `Entities.Reversed` | src/contexts/CurrentUserContextProvider.jsx:41 | `reverse()` keeps the length and puts entry `k` at position `len-1-k` |
| `Entities.ReversedSameEntries` | src/contexts/CurrentUserContextProvider.jsx:65 | reversing keeps every saved article with its multiplicity |
| `Keywords.NonEmpty` | src/contexts/CurrentUserContextProvider.jsx:18 | `filter(Boolean)` keeps exactly the non-empty keywords |
| `Keywords.NonEmptyConcat` | src/contexts/CurrentUserContextProvider.jsx:18 | the filter works piece by piece (filtering a concatenation concatenates the filtered parts) and keeps a single keyword iff it is non-empty, so the kept keywords stay in their order |
| `Keywords.ArticleKeywordsMembers` | src/contexts/CurrentUserContextProvider.jsx:15-18 | a batch keyword is exactly a non-empty tag of some article in the batch; absent tag lists add nothing |
| `Keywords.IndexOf` | src/contexts/CurrentUserContextProvider.jsx:23 | `indexOf` is -1 exactly when the keyword is absent; otherwise it is the first position that holds it |
| `Keywords.KeepFirstFacts` | src/contexts/CurrentUserContextProvider.jsx:22-24 | on every prefix, the `indexOf === index` filter keeps each keyword of the prefix exactly once |
| `Keywords.DedupFacts` | src/contexts/CurrentUserContextProvider.jsx:22-24 | the filtered list has no repeats and the same members as its input |
| `Keywords.DedupIsAbsorb` | src/contexts/CurrentUserContextProvider.jsx:22-24 | the filter equals the independent append-if-absent walk, so it keeps first-seen order |
| `Keywords.AbsorbNoDuplicates` | src/contexts/CurrentUserContextProvider.jsx:21-24 | the append-if-absent walk over a list without repeats returns that list; through `DedupIsAbsorb` this is the `indexOf` filter leaving such a list unchanged |
| `Keywords.Without` | src/contexts/CurrentUserContextProvider.jsx:21-24 | the batch keywords not already indexed are exactly those in the batch and not in the index |
| `Keywords.WithoutConcat` | src/contexts/CurrentUserContextProvider.jsx:21-24 | dropping the indexed keywords works piece by piece and keeps a single keyword iff it is not indexed, so the batch order survives |
| `Keywords.MergeMembers` | src/contexts/CurrentUserContextProvider.jsx:14-25 | after a merge the index has no repeats; a keyword is in it iff it was before or is a non-empty tag of the batch |
| `Keywords.MergeIsAbsorb` | src/contexts/CurrentUserContextProvider.jsx:20-24 | merging into an index without repeats appends each new keyword once, in batch order |
| `Keywords.MergeKeepsPrefix` | src/contexts/CurrentUserContextProvider.jsx:20-24 | merging into an index without repeats gives the old index followed by the batch's new keywords, de-duplicated in first-seen order |
| `Keywords.MergeNoEmpty` | src/contexts/CurrentUserContextProvider.jsx:15-24 | a merge never introduces the empty keyword |
| `Session.FindByUrl` | src/contexts/CurrentUserContextProvider.jsx:92-94 | `find` gives no entry iff no entry has the url; a found entry is in the list and has the url |
| `Session.FindByUrlIsFirst` | src/contexts/CurrentUserContextProvider.jsx:92-94 | the found entry is the earliest one with that url |
| `Session.WithoutId` | src/contexts/CurrentUserContextProvider.jsx:97-99 | the filter keeps exactly the entries whose `_id` differs, and never grows the list |
| `Session.WithoutIdConcat` | src/contexts/CurrentUserContextProvider.jsx:97-99 | the filter works piece by piece: filtering a concatenation concatenates the filtered parts, so the kept entries stay in their old relative order |
| `Session.WithoutIdSingle` | src/contexts/CurrentUserContextProvider.jsx:97-99 | a single entry is kept iff its `_id` differs from the deleted one |
| `Session.WithoutIdShrinks` | src/contexts/CurrentUserContextProvider.jsx:97-99 | removing a present entry's `_id` removes at least one entry |
| `Session.CurrentUserStore.constructor` | src/contexts/CurrentUserContextProvider.jsx:8-12 | starts anonymous, with an empty user, `authLoading` true, no articles, no keywords and the stored token |
| `Session.CurrentUserStore.ExtractAndSetKeywords` | src/contexts/CurrentUserContextProvider.jsx:14-26 | only `keywords` changes: it becomes the merge, keeps the old index as a prefix, and keeps it free of repeats and of "" |
| `Session.CurrentUserStore.CheckAuth` | src/contexts/CurrentUserContextProvider.jsx:28-50 | no token: only `authLoading` changes; a failure removes the token and signs out; success stores the user and the reversed server list and merges its keywords; `authLoading` ends false |
| `Session.CurrentUserStore.Login` | src/contexts/CurrentUserContextProvider.jsx:52-68 | a rejected or token-less sign-in changes nothing and fails ("No token received" for the latter); otherwise the token is persisted, then each later step's success or failure is stated; `authLoading` is untouched |
| `Session.CurrentUserStore.Register` | src/contexts/CurrentUserContextProvider.jsx:70-72 | returns the sign-up endpoint's outcome for the form values and changes no state |
| `Session.CurrentUserStore.Logout` | src/contexts/CurrentUserContextProvider.jsx:74-80 | removes the token, signs out, empties the user, the articles and the keywords |
| `Session.CurrentUserStore.SaveArticle` | src/contexts/CurrentUserContextProvider.jsx:82-88 | sends the article with whatever token is stored; on success the server's article goes in front and its keywords are merged, and it is returned; on failure nothing changes |
| `Session.CurrentUserStore.DeleteArticle` | src/contexts/CurrentUserContextProvider.jsx:90-101 | unknown url: fails reading `_id` and changes nothing; else the backend gets the found `_id`; on success the list becomes the reverse of the entries with another `_id` and is shorter; keywords never change |
| `ApiCall.ApiCallState.constructor` | src/hooks/useApiCall.js:4-5 | starts not loading and without an error |
| `ApiCall.ApiCallState.Begin` | src/hooks/useApiCall.js:8-9 | on start, loading is set and the error is cleared |
| `ApiCall.ApiCallState.Settle` | src/hooks/useApiCall.js:11-20 | the outcome is passed on unchanged; a rejection is recorded as the error; loading ends false |
| `ApiCall.ApiCallState.Execute` | src/hooks/useApiCall.js:7-21 | returns the action applied to `args`; on success the error is null; on failure the error is that same failure, raised again; loading ends false |
| `ApiCall.ApiCallState.SetApiError` | src/hooks/useApiCall.js:27 | the exposed setter replaces only the error |
| `Modal.ModalState.constructor` | src/hooks/useModal.js:4-5 | no dialog named and not open |
| `Modal.ModalState.Open` | src/hooks/useModal.js:7-10 | the named dialog replaces any open one and is open; a non-empty name keeps "open iff named" |
| `Modal.ModalState.Close` | src/hooks/useModal.js:12-15 | from any state, back to the initial state, so it is idempotent and undoes `Open` |
| `Form.MessageFor` | src/hooks/useForm.js:12-13 | the registered input's validation message, or "" when none is registered |
| `Form.FormState.constructor` | src/hooks/useForm.js:4-6 | values are the given map; errors and the input registry are empty |
| `Form.FormState.HandleChange` | src/hooks/useForm.js:8-15 | sets the field's value and its error, last write wins; other entries unchanged; both key sets only grow |
| `Form.FormState.RegisterInput` | src/hooks/useForm.js:17-19 | records a mounted element under the name; a null call leaves the registry unchanged |
| `Form.FormState.SetValues` | src/hooks/useForm.js:21 | the exposed setter replaces only the values |
| `Form.FormState.SetErrors` | src/hooks/useForm.js:5 | the hook's own errors setter replaces only the errors |
| `RegisterModal.BlankFields` | src/components/RegisterModal.jsx:20-24 | the three register fields, all empty |
| `RegisterModal.Or` | src/components/RegisterModal.jsx:59 | the JavaScript or-operator gives a truthy value iff either operand is truthy |
| `RegisterModal.SubmitDisabled` | src/components/RegisterModal.jsx:58-60 | the `submitDisabled` value is truthy iff some field error is non-empty, and then it is one of those errors (the dialog component does not forward it to the button, so this is the predicate only) |
| `RegisterModal.FieldErrorClass` | src/components/RegisterModal.jsx:75 | the email and password error classes are active iff the field's error is non-empty, else "" |
| `RegisterModal.UsernameIndicators` | src/components/RegisterModal.jsx:113-122 | the message prefers the server error and the class prefers the native error; each case of both is stated as an iff |
| `RegisterModal.SubmitPayload` | src/components/RegisterModal.jsx:42-45 | the register handler receives the values map with the same keys and entries |
| `RegisterModal.ResetOnOpenAsWritten` | src/components/RegisterModal.jsx:26-40 | as written, on open: values are blanked, then the call to `setErrors` throws and the errors are unchanged |
| `RegisterModal.StaleErrorBlocksSubmit` | src/components/RegisterModal.jsx:34-38 | after the as-written reset throws, a stale email error keeps the submit-disabled predicate truthy |
| `RegisterModal.ResetOnOpen` | src/components/RegisterModal.jsx:26-40 | on open, values and errors are both blanked and the submit-disabled predicate is falsy; closed, nothing changes |
| `NewsCard.ClickDispatch` | src/components/NewsCard.jsx:24-42 | signed out, a click does nothing; signed in, it deletes exactly the card's url if saved, else saves the card's seven fields unchanged |
| `NewsCard.TooltipRules` | src/components/NewsCard.jsx:45-53 | a tooltip shows iff hovered and the signed-in and saved flags agree; the sign-in text iff both are false, the remove text iff both are true |
| `NewsCard.ButtonClassRules` | src/components/NewsCard.jsx:44-59 | the delete modifier iff saved on a `saved` card; the checked modifier iff saved on a `search-result` card; else the base class |
| `NewsCard.KeywordTagRules` | src/components/NewsCard.jsx:63-65 | the tag shows iff the card is `saved` and has a tag list, and it shows the first tag |
| `NewsCard.CardHover.constructor` | src/components/NewsCard.jsx:22 | the card starts un-hovered |
| `NewsCard.CardHover.MouseEnter` | src/components/NewsCard.jsx:69 | entering sets the hover flag |
| `NewsCard.CardHover.MouseLeave` | src/components/NewsCard.jsx:70 | leaving clears it |
| `Decimal.NatToString` | src/utils/formatDate.js:3-4 | `String(n)` is a non-empty run of digits |
| `Decimal.NatToStringRoundTrip` | src/utils/formatDate.js:3-4 | reading back `String(n)` gives `n` |
| `Decimal.LeadingZero` | src/utils/formatDate.js:3-4 | a padding zero does not change the value read back |
| `Decimal.NatToStringLength` | src/utils/formatDate.js:3-4 | numbers below 10 print one digit; numbers from 10 to 99 print two |
| `FormatDate.PadStart` | src/utils/formatDate.js:3-4 | `padStart` leaves long strings alone; otherwise it fills on the left up to the width and keeps the string as the suffix |
| `FormatDate.SplitAfter` | src/utils/formatDate.js:5 | a part without `-` splits off at the first `-` |
| `FormatDate.TwoDigitsFacts` | src/utils/formatDate.js:3-4 | a padded value from 1 to 99 is two digits and reads back as itself |
| `FormatDate.FormatParts` | src/utils/formatDate.js:1-6 | for a real date, the month and day fields are two characters each and read back as the month number (index plus one) and the day |
| `FormatDate.FormatRoundTrip` | src/utils/formatDate.js:1-6 | for a non-negative year the output splits on `-` into three parts that read back as year, month index plus one and day |
| `FormatDate.FormatDisplayDate` | src/utils/formatDate.js:8-23 | "" for an absent or empty input; "Invalid Date" when parsing throws or gives NaN; else the locale formatter's text |
| `FocusTrap.WrapTarget` | src/hooks/useFocusTrap.js:27-43 | only Tab is handled; Shift+Tab on the first element goes to the last, Tab on the last goes to the first, nothing else moves |
| `FocusTrap.FocusTrapState.constructor` | src/hooks/useFocusTrap.js:4-5 | nothing is remembered and no handler is listening |
| `FocusTrap.FocusTrapState.Activate` | src/hooks/useFocusTrap.js:7-26 | inactive or without a container: nothing; else the active element is remembered; zero focusables: no handler; else the handler is installed over the first and last elements and focusing the first is scheduled |
| `FocusTrap.FocusTrapState.FireFocusTimer` | src/hooks/useFocusTrap.js:23-25 | the delayed focus moves to the first element if one was scheduled; cleanup does not cancel it; the remembered element and the wrap ends are untouched |
| `FocusTrap.OpenThenClose` | src/hooks/useFocusTrap.js:7-53 | opening a dialog over a focused element puts focus on the dialog's first focusable element once the timer fires, and closing it puts focus back on that element |
| `FocusTrap.FocusTrapState.KeyDown` | src/hooks/useFocusTrap.js:27-45 | with the handler installed, focus moves and the default is prevented exactly as the wrap rule says; otherwise the trap does nothing |
| `FocusTrap.FocusTrapState.Cleanup` | src/hooks/useFocusTrap.js:47-51 | removes the handler and gives focus back to the remembered element, if any |
| `Viewport.ExactlyOneClass` | tests/helpers/mobile-tablet-helpers.ts:53-69 | each width is exactly one of mobile (<768), tablet (768 to 1023) or desktop (>=1024); the height never matters |
| `Viewport.DeviceType` | tests/helpers/mobile-tablet-helpers.ts:335-340 | "mobile", "tablet" or "desktop" iff the matching class holds |
| `Viewport.DeviceScreenshotName` | tests/helpers/mobile-tablet-helpers.ts:332-342 | no file without a viewport; else the name starts with the device type and `-`, ends with `-`, the given name and `.png`, and has the width, `x` and the height in decimal between them |
| `Viewport.Lower` | tests/helpers/mobile-tablet-helpers.ts:593 | each ASCII capital becomes its small letter and every other character stays; so the length, the whitespace and the dashes are kept |
| `Viewport.LowerConcat` | tests/helpers/mobile-tablet-helpers.ts:593 | lower-casing works piece by piece |
| `Viewport.DropSpaces` | tests/helpers/mobile-tablet-helpers.ts:594 | leaves the suffix of the input that follows its leading whitespace run: the dropped prefix is all whitespace and what remains does not start with whitespace |
| `Viewport.DashSpacesCons` | tests/helpers/mobile-tablet-helpers.ts:594 | one step of the replacement: a whitespace character turns its whole run into one `-`; any other character is kept |
| `Viewport.DropSpacesRun` | tests/helpers/mobile-tablet-helpers.ts:594 | a whitespace run in front of a non-whitespace start is dropped whole |
| `Viewport.DashSpaces` | tests/helpers/mobile-tablet-helpers.ts:594 | replacing whitespace runs with `-` leaves no whitespace, is never longer, and adds only dashes |
| `Viewport.DashSpacesRun` | tests/helpers/mobile-tablet-helpers.ts:594 | in place: text without whitespace is kept, the whitespace run after it becomes exactly one `-`, and the rest is replaced the same way |
| `Viewport.DashSpacesKeepsLetters` | tests/helpers/mobile-tablet-helpers.ts:594 | the replacement keeps every character other than whitespace and dashes, in order |
| `Viewport.DashSpacesNoSpace` | tests/helpers/mobile-tablet-helpers.ts:594 | a name without whitespace is left unchanged |
| `Viewport.DeviceSlugRun` | tests/helpers/mobile-tablet-helpers.ts:592-594 | the device part of the file name is the lower-cased text before the first whitespace run, one `-` for that run, then the rest of the name treated the same way |
| `Viewport.DeviceSlugFacts` | tests/helpers/mobile-tablet-helpers.ts:592-594 | the device part of the file name has no whitespace and no ASCII capital, and keeps the name's other characters in order |
| `TestConfig.OrEmpty` | tests/config/test-config.ts:22-24 | an unset or empty variable gives "", else its value |
| `TestConfig.Environments` | tests/config/test-config.ts:18-45 | the table has exactly the `staging` and `development` entries |
| `TestConfig.EnvironmentName` | tests/config/test-config.ts:48 | `NODE_ENV` when it is set and non-empty, else "development" |
| `TestConfig.GetTestConfigOutcomes` | tests/config/test-config.ts:47-68 | an unknown name fails with that name; `staging` fails iff a credential is missing; `development` always succeeds without a check; a success is the table entry unchanged |

## Left out

- The backend and news-search calls are not modelled. Sign-in, identity, saved articles, save, delete and sign-up appear only as function parameters that give each call's outcome.
- Overlapping promise continuations, React's batching of state updates and stale closures are not modelled. Each operation is one atomic step.
- The raw `setSavedArticles` and `setKeywords` setters that the context also exposes are not modelled. The store's invariant (no repeated or empty keyword) assumes only the modelled operations write the index.
- The effect that runs start-up reconciliation on mount is not modelled. It is a React lifecycle trigger; `CheckAuth` is the operation it runs.
- `extractAndSetKeywords` merges into the latest index through a functional update. The model merges into the index held when the operation runs, which is the same under the atomic-step reading.
- `formatDisplayDate`'s `Date` parsing and its en-US locale formatting are not modelled. They are library behaviour, so they appear as parameters. Only the guard branches are modelled.
- The date fields (`getFullYear`, `getMonth`, `getDate`) are inputs. Time zones and the calendar are not modelled.
- `FormatDate.FormatRoundTrip`: proved only for non-negative years. For a negative year `String` adds a leading `-`, so splitting gives four parts.
- The browser's constraint validation (required, length limits, email format) is not modelled. It appears as the parameter `validationMessage`, the message an element reports.
- The DOM side of the focus trap is not modelled: the selector query, listener registration and the 50 ms timer's delay. Only the wrap rule, the remembered element and the scheduled focus are modelled.
- `Viewport.Lower`: lower-cases ASCII letters only. Full Unicode lower-casing (which can change a string's length) is not modelled.
- `TestConfig.GetTestConfigOutcomes`: a lookup through the object prototype chain is not modelled. With `NODE_ENV=constructor`, for example, JavaScript finds an inherited property instead of failing.
- The browser's default Tab move inside the dialog is not modelled. When the trap does not intervene, `KeyDown` leaves focus where it was, while the browser moves it to the next element.
- React's handling of an error thrown from an effect is not modelled. The model stops at the thrown TypeError and the state it leaves; unmounting of the tree or an error boundary are outside it.
- Logging to `console.error` (src/hooks/useApiCall.js:16, src/utils/formatDate.js:14 and 20) is not modelled. It has no effect on state.
- `Array.prototype.reverse` (src/contexts/CurrentUserContextProvider.jsx:41, 65 and 100) reverses the response array in place; the model treats it as a value, so aliasing of that array is not modelled.
- The timeouts, page automation, pixel measurements and the Playwright test files are not modelled. They are browser automation.
- The presentational components, routing and the context's default values are not modelled. They are markup only.
- The sign-up dialog's `aria-describedby` ids are not modelled. They are markup only.

## Findings

| source | as written | input that shows it | evidently intended | confidence | as-written member | corrected member |
|---|---|---|---|---|---|---|
| src/components/RegisterModal.jsx:19-38 | the reset effect calls `setErrors`, but the form hook (src/hooks/useForm.js:21) does not return it; after the values are blanked the call throws a TypeError and the errors keep their old messages, so the submit-disabled predicate stays truthy | open the sign-up dialog (`modalIsOpen` true) while an email error from an earlier visit is stored | blank the values and the errors of all three fields on open, so the submit-disabled predicate no longer holds on account of the stale error | high; not executed | `RegisterModal.ResetOnOpenAsWritten`, `RegisterModal.StaleErrorBlocksSubmit` | `RegisterModal.ResetOnOpen` |
