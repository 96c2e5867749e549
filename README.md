# CODE.AI mock wallet ledger — a Dafny model

CODE.AI is a React front end with a mock crypto wallet. A user connects a
wallet, pastes code for the Fibonacci challenge, earns 2.00 "crypto points"
when the code passes a fixed textual test, and claims the points into
"mock coins" by signing a message in the wallet. The model covers:

- the wallet store (`src/store/useWalletStore.ts`): the state, its four actions
  and its display helpers;
- the profile page (`src/pages/Profile.tsx`): the acceptance test for a
  submission, the submit and claim handlers and the guards on their buttons;
- the small derivations on the other pages: the dashboard's quick actions and
  activity feed, the collection modal's search filter and fixed figures, the
  login rule, and the chatbot's machine-learning keyword test.

Layout:

| file | module | contents |
|---|---|---|
| `text.dfy` | `Text` | the JavaScript string operations the pages use: `includes`, ASCII case folding, `trim`, and `toFixed` over integers |
| `wallet_store.dfy` | `WalletStore` | the store as pure transitions on a `WalletState` snapshot, the `Store` class whose methods are proved equal to them, and the helpers |
| `toasts.dfy` | `Toasts` | the toast record |
| `profile.dfy` | `Profile` | the acceptance test, the guards, the `ProfilePage` class, and a session model with the ledger invariant |
| `dashboard.dfy` | `Dashboard` | quick actions, activity feed and page choice |
| `collection_modal.dfy` | `CollectionModal` | the history, the filter and the summary figures |
| `login.dfy` | `Login` | the credential rule and the `LoginForm` class |
| `chatbot_section.dfy` | `ChatbotSection` | the keyword test, the explanation and the `ChatbotPanel` class |

Modelling decisions:

- Money is an integer count of thousandths: coins start at 2500 (2.500) and a
  solve adds 2000 (2.00). `toFixed(2)` and `toFixed(3)` are modelled as exact
  decimal rounding of these integers, half away from zero.
- Each `async` handler is split at its `await` into `Handle…`, which runs up to
  the delay or the signing request, and `Resume…`, which runs after it. The
  values the handler's closure captured are kept in fields: `submittedCode`,
  `claimedPoints`, `submittedEmail`, `requestedCode`.
- The outcome of the wallet's signing request is an input: `Signed`, or
  `SignError(code, message)`. Clock values, `Date.now()` ids and the 64
  `Math.random()` draws of the hash are parameters too.
- `/for|while/` and `/0.*1|fibonacci/i` become string predicates. `.` does not
  match `\n`, `\r`, U+2028 or U+2029. The model folds ASCII letters only for
  the `/i` flag, which is exact here because the patterns use ASCII letters only.
- `Profile.Step` and `Profile.Run` model a session. Each step is one user action
  run to completion: an account change, a submit click, or a claim click, each
  allowed only when the rendered page would allow it. `Profile.Ledger` is the
  invariant such a session keeps. `Profile.SubmitMatchesStep` and
  `Profile.ClaimMatchesStep` prove that a click on the page followed by the rest
  of its handler changes the store exactly as the step does.
- `formatEth`'s prefix is two characters, U+00CE and U+017E ("Îž"). This looks
  like a double-encoded "Ξ", but the model keeps the characters the code has.

Points of the code's behaviour that are easy to misread, all kept as written:

- `attempts` counts passes only: the submit handler calls `solveFibonacci` only
  when the test passes (src/pages/Profile.tsx:64-66; `Profile.SubmissionEffect`,
  `Profile.Ledger`).
- `solveFibonacci` has no guard of its own, so every call credits again
  (src/store/useWalletStore.ts:49-60; `WalletStore.Solved`,
  `Profile.CyclesAreExact`). Only the disabled textarea and button stop a second
  solve (`Profile.ProfilePage.ClickSubmit`).
- `handleClaimReward` has no zero-points check; only the claim button is
  disabled at 0 points (src/pages/Profile.tsx:84-93 and 282; `Profile.ClaimEnabled`).
- `claimReward` takes the amount as an argument and credits all of it, even
  beyond the points held (src/store/useWalletStore.ts:62-65; `WalletStore.Claimed`).
- The pages test `!connectedAddress`, so an empty address string counts as not
  connected (src/pages/Dashboard.tsx:18, src/pages/Profile.tsx:27;
  `WalletStore.Connected`).

## Model

| member | source | states |
|---|---|---|
| `WalletStore.Store.constructor` | src/store/useWalletStore.ts:35-45 | the store starts with no address, 2.500 coins, 0 points, an unsolved challenge with no attempts and no time, and an empty log |
| `WalletStore.InitialValid` | src/store/useWalletStore.ts:35-45 | the initial state has non-negative balances |
| `WalletStore.WithAddress` | src/store/useWalletStore.ts:47 | setting the address changes only the address and keeps the balances valid |
| `WalletStore.Solved` | src/store/useWalletStore.ts:49-60 | a solve marks the challenge solved, adds exactly one attempt, records the time and adds exactly 2.00 points; address, coins and log are unchanged; with no guard, this holds on every call |
| `WalletStore.Claimed` | src/store/useWalletStore.ts:62-65 | a claim credits the whole amount to coins and never leaves points negative; the balances' sum is conserved when the amount is at most the points, and an amount beyond the points adds the excess |
| `WalletStore.WithId` | src/store/useWalletStore.ts:67-72 | the stored record is the draft with the generated id |
| `WalletStore.Prepended` | src/store/useWalletStore.ts:67-75 | adding a transaction puts the new record first and keeps the old log, in order, behind it; balances and challenge are unchanged |
| `WalletStore.AddressFromAccounts` | src/components/WalletConnection.tsx:40-46 | an account change yields the first account, or no address exactly when the list is empty |
| `WalletStore.Store.SetConnectedAddress` | src/store/useWalletStore.ts:47 | the new store state is `WithAddress` of the old, and valid balances stay valid |
| `WalletStore.Store.SolveFibonacci` | src/store/useWalletStore.ts:49-60 | the new store state is `Solved` of the old, and valid balances stay valid |
| `WalletStore.Store.ClaimReward` | src/store/useWalletStore.ts:62-65 | the new store state is `Claimed` of the old, and for a non-negative amount valid balances stay valid |
| `WalletStore.Store.AddTransaction` | src/store/useWalletStore.ts:67-75 | the new store state is `Prepended` of the old, and valid balances stay valid |
| `WalletStore.FormatAddress` | src/store/useWalletStore.ts:79-82 | "" stays ""; otherwise the result is the first six characters, "...", and the last four (the whole string for shorter ones) |
| `WalletStore.FormatLongAddress` | src/store/useWalletStore.ts:79-82 | an address of ten or more characters is shown in exactly 13 characters, built from both of its ends |
| `WalletStore.HexDigitFor` | src/store/useWalletStore.ts:88 | a random draw in [0, 1) always picks a character of `0123456789abcdef` |
| `WalletStore.GenerateMockTxHash` | src/store/useWalletStore.ts:84-91 | the hash is "0x" followed by 64 hex digits, 66 characters in all, digit `i` picked by draw `i` |
| `WalletStore.FormatPoints` | src/store/useWalletStore.ts:93-95 | the text is a "-" exactly for negative points, the integer digits with no leading zero, the point and two decimals; it reads back within half a hundredth of the points, and exactly when the thousandths digit is 0 |
| `WalletStore.FormatEth` | src/store/useWalletStore.ts:97-99 | the text is the prefix, a "-" exactly for a negative amount, the integer digits with no leading zero, the point and three decimals, and it reads back as exactly the amount |
| `Text.Contains` | src/pages/Profile.tsx:61 | substring search is true exactly when the pattern occurs at some position |
| `Text.TrimEmptyIffBlank` | src/pages/Profile.tsx:46 | `trim()` gives "" exactly when every character is white space or a line terminator |
| `Text.LowerOfUpper` | src/components/CollectionModal.tsx:76-77 | folding the upper-cased text gives the same as folding the text |
| `Text.ToFixedMeaning` | src/store/useWalletStore.ts:93-99 | `toFixed(d)` yields a "-" exactly for negative values, then the integer part as digits with no leading zero, the point and `d` digits, which read back as the value rounded to `d` decimals |
| `Profile.ScanZeroThenOne` | src/pages/Profile.tsx:62 | the one-pass scan finds a '0' followed later by a '1' with no line break between them |
| `Profile.AcceptsMeaning` | src/pages/Profile.tsx:60-64 | a submission passes exactly when it contains "for" or "while", and it has a '0' followed on the same line by a '1' or contains "fibonacci" in any case |
| `Profile.AcceptedIsNotBlank` | src/pages/Profile.tsx:45-64 | a passing submission always gets past the empty-input check |
| `Profile.PlaceholderAccepted` | src/pages/Profile.tsx:237-240 | the textarea's own placeholder code passes the test |
| `Profile.ZeroAndOneOnSeparateLines` | src/pages/Profile.tsx:62 | a '0' and a '1' on different lines do not satisfy the sequence test |
| `Profile.SubmissionEffect` | src/pages/Profile.tsx:64-78 | a pass solves exactly once (+1 attempt, +2.00 points); a failure leaves the store exactly as it was |
| `Profile.ClaimEffect` | src/pages/Profile.tsx:97-136 | on a signature the claim is logged first with the pre-claim points, then points drop to 0 and coins rise by them; on any signing error the store is unchanged |
| `Profile.ClaimToast` | src/pages/Profile.tsx:117-136 | the toast is destructive exactly on an error; code 4001 gives "Claim cancelled"; another error shows its message when it has one |
| `Profile.ProfilePage.constructor` | src/pages/Profile.tsx:21-24 | the page starts with empty input, no submission or claim running, and no pass |
| `Profile.ProfilePage.EditCode` | src/pages/Profile.tsx:234-242 | the textarea takes input only while it is rendered (connected address) and enabled (challenge unsolved); no other field changes |
| `Profile.ProfilePage.HandleCodeSubmit` | src/pages/Profile.tsx:45-55 | blank input raises the no-code toast and touches nothing else, the captured code included; other input starts the submission; the store is unchanged either way |
| `Profile.ProfilePage.ResumeCodeSubmit` | src/pages/Profile.tsx:60-80 | the store becomes `SubmissionEffect` of the captured code, the pass or fail toast is raised and the submission ends |
| `Profile.ProfilePage.ClickSubmit` | src/pages/Profile.tsx:248 | a click on the hidden or disabled button (no address or an empty one, solved, or a submission running) changes nothing; on a live button the submission starts exactly when the input is not blank, a blank input raises the no-code toast, and a started submission has captured the input as it was at the click; the input, the claim fields, the pass flag and the store never change |
| `Profile.ProfilePage.HandleClaimReward` | src/pages/Profile.tsx:84-93 | without a wallet only the not-found toast is raised; otherwise the claim starts with the current points captured; the store is unchanged either way |
| `Profile.ProfilePage.ResumeClaimReward` | src/pages/Profile.tsx:97-138 | the store becomes `ClaimEffect` of the captured points, the hash has the mock shape on a signature, the matching toast is raised and the claim ends |
| `Profile.ProfilePage.ClickClaim` | src/pages/Profile.tsx:266-282 | a click while the page or the claim section is hidden (no or empty address, unsolved), the points are 0 or a claim is running changes nothing; on a live button the claim starts exactly when a wallet is present, with points to move, and without one the not-found toast is raised; the input, the submission fields, the pass flag and the store never change |
| `Profile.SubmitMatchesStep` | src/pages/Profile.tsx:45-81 | a submit click run to the end of its handler changes the store exactly as the session step with the input at the click does, and starts exactly when the button is live and the input not blank |
| `Profile.ClaimMatchesStep` | src/pages/Profile.tsx:83-139 | a claim click run to the end of its handler changes the store exactly as the session step with the generated hash does, and starts exactly when the button is live and a wallet is present |
| `Profile.InitialLedger` | src/store/useWalletStore.ts:35-45 | the initial state satisfies the ledger invariant |
| `Profile.StepKeepsLedger` | src/pages/Profile.tsx:45-139 | every user action the page allows keeps the ledger invariant |
| `Profile.RunKeepsLedger` | src/pages/Profile.tsx:45-139 | any sequence of such actions keeps the ledger invariant |
| `Profile.SessionTotals` | src/pages/Profile.tsx:45-139 | from a fresh store, for any sequence of actions on one mount of the page with no two handlers overlapping (each action being what `SubmitMatchesStep` and `ClaimMatchesStep` tie to the page), coins plus points equal 2.500 plus the one reward if solved, there is at most one attempt and at most one logged claim |
| `Profile.StepExtendsLog` | src/store/useWalletStore.ts:67-75 | an action only ever adds at the front of the log and never un-solves the challenge |
| `Profile.RunExtendsLog` | src/store/useWalletStore.ts:67-75 | over a session the old log stays the tail of the new one and a solved challenge stays solved |
| `Profile.HappyPath` | src/pages/Profile.tsx:97-120 | connect, pass and sign: 4.500 coins, 0 points and one completed claim of 2.00 |
| `Profile.DeclinedClaim` | src/pages/Profile.tsx:122-136 | a signing error after a solve leaves 2.00 points, 2.500 coins and an empty log |
| `Profile.CyclesAreExact` | src/store/useWalletStore.ts:49-65 | driven straight on the store, every solve-then-claim round adds exactly 2.000 coins and one attempt |
| `Profile.RemountPaysTwice` | src/pages/Profile.tsx:22-23 | two mounts of the page over one store, each with its own `isClaiming`, can both claim: two claims of 2.00 are logged and the coins reach 6.500 |
| `Dashboard.QuickActions` | src/pages/Dashboard.tsx:36-49 | two actions; the Fibonacci one is disabled exactly when solved, the claim one exactly at 0 points |
| `Dashboard.ActivityFeed` | src/pages/Dashboard.tsx:51-57 | the two fixed entries, and a third "Completed Fibonacci Challenge" entry carrying the solve time exactly when solved |
| `Dashboard.Face` | src/pages/Dashboard.tsx:140-143 | a quick-action button shows 'Completed' in the ghost variant exactly when its action is disabled, and 'Start' otherwise |
| `Dashboard.Render` | src/pages/Dashboard.tsx:18-57 | without an address, or with an empty one, only the connect prompt is shown; otherwise the board with the formatted points, actions and feed |
| `CollectionModal.Filter` | src/components/CollectionModal.tsx:75-78 | an item is kept exactly when its folded activity or type contains the folded term, with every copy of it kept; the result is an order-preserving subsequence of the history |
| `CollectionModal.EmptyTermKeepsAll` | src/components/CollectionModal.tsx:75-78 | an empty search keeps every item |
| `CollectionModal.EmptySearchShowsAllSix` | src/components/CollectionModal.tsx:14-78 | an empty search shows all six records |
| `CollectionModal.UpperCaseTermSameResult` | src/components/CollectionModal.tsx:76-77 | a term and its upper-cased form give the same list |
| `CollectionModal.StatsAgreeWithHistory` | src/components/CollectionModal.tsx:14-70 | the fixed figures agree with the records: five completed, one pending, 14.8 credits |
| `Login.CheckCredentials` | src/pages/Login.tsx:19-46 | missing information exactly when a field is empty; accepted exactly when both are filled, the email has '@' and the password has six or more characters; rejected otherwise |
| `Login.LoginForm.constructor` | src/pages/Login.tsx:10-12 | the form starts empty and not loading |
| `Login.LoginForm.HandleLogin` | src/pages/Login.tsx:19-28 | an empty field raises the missing-information toast without loading or navigating; otherwise loading starts with the credentials captured |
| `Login.LoginForm.ResumeLogin` | src/pages/Login.tsx:34-48 | accepted credentials navigate to /dashboard with the success toast; rejected ones raise the failure toast and do not navigate; loading ends either way |
| `Login.SubmitAndWait` | src/pages/Login.tsx:16-49 | a whole submission ends idle, at /dashboard exactly on accepted credentials, with the toast of its verdict |
| `ChatbotSection.MentionsAny` | src/components/ChatbotSection.tsx:27 | true exactly when some keyword occurs in the code, ignoring case |
| `ChatbotSection.MainMentionsAI` | src/components/ChatbotSection.tsx:27 | "ai" matches inside a word such as "main" |
| `ChatbotSection.ContainsHasFirstChar` | src/components/ChatbotSection.tsx:27 | a keyword can only match where its first character occurs |
| `ChatbotSection.PlainLoopIsGeneral` | src/components/ChatbotSection.tsx:27 | a plain loop with no keyword is classified as general programming |
| `ChatbotSection.Explain` | src/components/ChatbotSection.tsx:29-34 | the workflow is 'ML Workflow' and the neural diagram is present exactly for ML code, 'Standard Workflow' and absent otherwise; the results text is the same constant for every input |
| `ChatbotSection.ExplanationDependsOnlyOnClass` | src/components/ChatbotSection.tsx:29-34 | two inputs with the same classification get the same explanation |
| `ChatbotSection.ChatbotPanel.constructor` | src/components/ChatbotSection.tsx:15-17 | the panel starts with no code, no explanation and not loading |
| `ChatbotSection.ChatbotPanel.HandleExplainCode` | src/components/ChatbotSection.tsx:20-22 | blank code leaves the explanation and loading flag as they were; other code starts loading with the code captured |
| `ChatbotSection.ChatbotPanel.ResumeExplainCode` | src/components/ChatbotSection.tsx:27-36 | the explanation of the captured code is stored and loading ends |

## Left out

- Rendering, styling and animation, the 3D character scene and the stats
  section: they are presentation and floating-point animation.
- The wallet extension's account requests and listeners: only the account-change
  rule is modelled (`WalletStore.AddressFromAccounts`, `Profile.Step`).
- The signing request's message text and any signature semantics: the request
  is an input that settles to `Signed` or `SignError`.
- The backend (routes, controllers, database model, language-model and contract
  calls): it is network and database plumbing that the modelled pages do not call.
- Delays, clock readings, `Math.random()` and `toLocaleString`: these are
  parameters, or left out where they only feed display text.
- `Profile.SessionTotals`: it covers one mount of the page whose handlers never
  overlap. `isSubmitting` and `isClaiming` belong to a mount, so leaving the
  page while a claim's signing prompt is open and coming back gives a fresh,
  live claim button over the same points; signing both pays the reward twice
  (`Profile.RemountPaysTwice`). A remount during the submission delay likewise
  lets a second passing submission solve again.
- Concurrency: the model interleaves a handler only at its `await`, by calling
  `Handle…` and `Resume…` separately. `Profile.Step` runs each action to
  completion.
- `WalletStore.FormatPoints`: JavaScript numbers are binary floating point, and
  `toFixed` rounds the binary value, switching to exponent notation from 1e21.
  The model rounds exact thousandths, half away from zero.
- `WalletStore.FormatEth`: the same floating-point caveat applies.
- `WalletStore.FormatAddress`: JavaScript `slice` counts UTF-16 code units; the
  model counts characters. The two agree on the ASCII addresses a wallet
  returns.
- `Login.CheckCredentials`: `password.length` counts UTF-16 code units; the model
  counts characters.
- `CollectionModal.Filter`: `toLowerCase` folds all of Unicode; the model folds
  ASCII letters only. The two agree on ASCII search terms.
- The timestamp display in the dashboard feed and the "test passed" banner on
  the profile page: display only. `testPassed` is still kept as a field.
- The login page's "Forgot your password?" and "Sign up" buttons: they only
  raise a "coming soon" toast and touch no state.
