/** The profile page: the Fibonacci submission, the signed claim, and the
    button guards that decide when either can run.

    Both handlers are `async`: each is modelled as the part that runs on the
    click (`HandleCodeSubmit`, `HandleClaimReward`) and the continuation that runs
    once the awaited promise settles (`ResumeCodeSubmit`, `ResumeClaimReward`).
    Values the handler's closure captured at click time are kept in
    `submittedCode` and `claimedPoints`. */
module Profile {
  import opened Text
  import opened WalletStore
  import opened Toasts

  // ---------------------------------------------------------------------------
  // The acceptance predicate

  /** `/for|while/`, case-sensitive. */
  predicate HasLoop(code: string) {
    Contains(code, "for") || Contains(code, "while")
  }

  /** No line terminator in `code[lo..hi]` (`.` does not match one). */
  ghost predicate LineClear(code: string, lo: int, hi: int)
    requires 0 <= lo <= hi <= |code|
  {
    forall k :: lo <= k < hi ==> !IsLineTerminator(code[k])
  }

  /** `/0.*1/` matches at `i`..`j`. */
  ghost predicate ZeroThenOneAt(code: string, i: int, j: int) {
    0 <= i < j < |code| && code[i] == '0' && code[j] == '1' && LineClear(code, i + 1, j)
  }

  ghost predicate HasZeroThenOne(code: string) {
    exists i, j :: ZeroThenOneAt(code, i, j)
  }

  /** A '1' occurs before the first line terminator. */
  ghost predicate OneOnFirstLine(code: string) {
    exists j :: 0 <= j < |code| && code[j] == '1' && LineClear(code, 0, j)
  }

  /** A left-to-right scan for `/0.*1/`: `armed` records that a '0' has been seen
      on the current line. */
  function ScanZeroThenOne(code: string, armed: bool): (b: bool)
    ensures b <==> HasZeroThenOne(code) || (armed && OneOnFirstLine(code))
    decreases |code|
  {
    if code == [] then
      false
    else if armed && code[0] == '1' then
      assert LineClear(code, 0, 0);
      true
    else
      var c := code[0];
      var armed' := if c == '0' then true else if IsLineTerminator(c) then false else armed;
      var r := ScanZeroThenOne(code[1..], armed');
      ZeroThenOneCons(code);
      OneOnFirstLineCons(code);
      r
  }

  lemma ZeroThenOneCons(code: string)
    requires code != []
    ensures HasZeroThenOne(code) <==>
      HasZeroThenOne(code[1..]) || (code[0] == '0' && OneOnFirstLine(code[1..]))
  {
    var rest := code[1..];
    if i, j :| ZeroThenOneAt(code, i, j) {
      if i == 0 {
        assert rest[j - 1] == '1' && LineClear(rest, 0, j - 1) by {
          forall k | 0 <= k < j - 1 ensures !IsLineTerminator(rest[k]) {
            assert rest[k] == code[k + 1];
          }
        }
      } else {
        assert ZeroThenOneAt(rest, i - 1, j - 1) by {
          forall k | i <= k < j - 1 ensures !IsLineTerminator(rest[k]) {
            assert rest[k] == code[k + 1];
          }
        }
      }
    }
    if i, j :| ZeroThenOneAt(rest, i, j) {
      assert ZeroThenOneAt(code, i + 1, j + 1) by {
        forall k | i + 2 <= k < j + 1 ensures !IsLineTerminator(code[k]) {
          assert code[k] == rest[k - 1];
        }
      }
    }
    if code[0] == '0' && OneOnFirstLine(rest) {
      var j :| 0 <= j < |rest| && rest[j] == '1' && LineClear(rest, 0, j);
      assert ZeroThenOneAt(code, 0, j + 1) by {
        forall k | 1 <= k < j + 1 ensures !IsLineTerminator(code[k]) {
          assert code[k] == rest[k - 1];
        }
      }
    }
  }

  lemma OneOnFirstLineCons(code: string)
    requires code != []
    ensures OneOnFirstLine(code) <==>
      code[0] == '1' || (!IsLineTerminator(code[0]) && OneOnFirstLine(code[1..]))
  {
    var rest := code[1..];
    if code[0] == '1' {
      assert LineClear(code, 0, 0);
    }
    if j :| 0 <= j < |code| && code[j] == '1' && LineClear(code, 0, j) {
      if j > 0 {
        assert !IsLineTerminator(code[0]);
        assert rest[j - 1] == '1' && LineClear(rest, 0, j - 1) by {
          forall k | 0 <= k < j - 1 ensures !IsLineTerminator(rest[k]) {
            assert rest[k] == code[k + 1];
          }
        }
      }
    }
    if !IsLineTerminator(code[0]) && OneOnFirstLine(rest) {
      var j :| 0 <= j < |rest| && rest[j] == '1' && LineClear(rest, 0, j);
      assert code[j + 1] == '1' && LineClear(code, 0, j + 1) by {
        forall k | 0 <= k < j + 1 ensures !IsLineTerminator(code[k]) {
          if k > 0 { assert code[k] == rest[k - 1]; }
        }
      }
    }
  }

  /** `/0.*1|fibonacci/i`. */
  predicate HasSequence(code: string) {
    ScanZeroThenOne(code, false) || ContainsIgnoringCase(code, "fibonacci")
  }

  /** `hasLoop && hasSequence`: the test a submission must pass. */
  predicate Accepts(code: string) {
    HasLoop(code) && HasSequence(code)
  }

  /** The acceptance test in terms of what occurs in the text. */
  lemma AcceptsMeaning(code: string)
    ensures Accepts(code) <==>
      (Contains(code, "for") || Contains(code, "while")) &&
      (HasZeroThenOne(code) || ContainsIgnoringCase(code, "fibonacci"))
  {
  }

  /** An accepted submission is never blank, so it always gets past the empty-input check. */
  lemma AcceptedIsNotBlank(code: string)
    requires Accepts(code)
    ensures !IsBlank(code)
  {
    if Contains(code, "for") {
      var i :| OccursAt(code, "for", i);
      assert code[i] == code[i..i + 3][0] == 'f';
    } else {
      var i :| OccursAt(code, "while", i);
      assert code[i] == code[i..i + 5][0] == 'w';
    }
  }

  /** The placeholder of the submission textarea, as the JSX attribute is written,
      with its line breaks. The JSX transform folds each line break and the
      indentation after it to one space, so the page shows the four lines as one. */
  const Placeholder: string :=
    "// Paste your code that generates " + "sequence from 0 to 10\n" +
    "for (let i = 0; i <= 10; i++) {\n" + "  console.log(i);\n" + "}"

  /** The placeholder's code passes: "= 0" and the "1" of "10" share a line. */
  lemma PlaceholderAccepted()
    ensures Accepts(Placeholder)
  {
    var code := Placeholder;
    var header := "// Paste your code that generates " + "sequence from 0 to 10\n";
    var line := "for (let i = 0; i <= 10; i++) {\n";
    assert |header| == 56;
    assert code[56..59] == line[..3] == "for";
    assert OccursAt(code, "for", 56);
    assert code[56 + 13] == '0' && code[56 + 21] == '1';
    assert LineClear(code, 56 + 14, 56 + 21) by {
      forall k | 56 + 14 <= k < 56 + 21 ensures !IsLineTerminator(code[k]) {
        assert code[k] == line[k - 56];
      }
    }
    assert ZeroThenOneAt(code, 56 + 13, 56 + 21);
  }

  /** `.` stops at a line break: a '0' and a '1' on different lines do not count. */
  lemma ZeroAndOneOnSeparateLines()
    ensures !Accepts("for 0\n1")
  {
    var code := "for 0\n1";
    assert !HasZeroThenOne(code) by {
      forall i, j | 0 <= i < j < |code| && code[i] == '0' && code[j] == '1'
        ensures !LineClear(code, i + 1, j)
      {
        assert i == 4 && j == 6;
        assert IsLineTerminator(code[5]);
      }
    }
    assert !OneOnFirstLine(code) by {
      forall j | 0 <= j < |code| && code[j] == '1' ensures !LineClear(code, 0, j) {
        assert IsLineTerminator(code[5]);
      }
    }
    assert !Contains(Lower(code), Lower("fibonacci"));
  }

  // ---------------------------------------------------------------------------
  // The guards the page renders

  /** The submit button (and textarea) is live: the page is shown, the challenge is
      unsolved and no submission is running. */
  predicate SubmitEnabled(s: WalletState, isSubmitting: bool) {
    Connected(s) && !s.fibonacci.solved && !isSubmitting
  }

  /** The claim button is live: the claim section is rendered (solved), there are
      points, and no claim is running. */
  predicate ClaimEnabled(s: WalletState, isClaiming: bool) {
    Connected(s) && s.fibonacci.solved && s.cryptoPoints != 0 && !isClaiming
  }

  // ---------------------------------------------------------------------------
  // What each handler does to the store

  /** The store after a submission that got past the empty-input check. */
  function SubmissionEffect(s: WalletState, code: string, now: string): (t: WalletState)
    ensures t.fibonacci.attempts == s.fibonacci.attempts + (if Accepts(code) then 1 else 0)
    ensures t.cryptoPoints == s.cryptoPoints + (if Accepts(code) then SolveReward else 0)
    ensures t.fibonacci.solved == (s.fibonacci.solved || Accepts(code))
    ensures !Accepts(code) ==> t == s
    ensures t.mockCoins == s.mockCoins && t.transactions == s.transactions
    ensures t.connectedAddress == s.connectedAddress
  {
    if Accepts(code) then Solved(s, now) else s
  }

  /** What the wallet's `personal_sign` request settles to. */
  datatype SignResult = Signed | SignError(code: int, message: string)

  /** The error code a wallet uses when the user rejects the request. */
  const UserRejected: int := 4001

  function ClaimDraft(amount: int, txHash: string, timestamp: int): TransactionDraft {
    TransactionDraft(Claim, amount, timestamp, txHash, Completed)
  }

  /** The store after the signing request settles: on a signature, log the claim,
      then move `amount` from points to coins; on any error, nothing. */
  function ClaimEffect(s: WalletState, amount: int, sign: SignResult, txHash: string,
                       timestamp: int, id: string): (t: WalletState)
    ensures sign.SignError? ==> t == s
    ensures sign.Signed? ==>
      t.transactions == [Transaction(id, Claim, amount, timestamp, txHash, Completed)] + s.transactions
    ensures sign.Signed? && amount == s.cryptoPoints ==>
      t.cryptoPoints == 0 && t.mockCoins == s.mockCoins + amount
    ensures amount == s.cryptoPoints ==> t.mockCoins + t.cryptoPoints == s.mockCoins + s.cryptoPoints
    ensures t.fibonacci == s.fibonacci && t.connectedAddress == s.connectedAddress
  {
    match sign
    case Signed => Claimed(Prepended(s, ClaimDraft(amount, txHash, timestamp), id), amount)
    case SignError(_, _) => s
  }

  // ---------------------------------------------------------------------------
  // Toasts

  const NoCodeToast: Toast :=
    Toast("No code provided", "Please paste your code before submitting.", true)
  const TestPassedToast: Toast :=
    Toast("Test Passed! \U{2705}",
          "Your code successfully generates the sequence from 0 to 10. $2 claimed!", false)
  const TestFailedToast: Toast :=
    Toast("Test Failed \U{274C}", "Your code doesn't properly generate the sequence from 0 to 10.", true)
  const MetaMaskNotFoundToast: Toast :=
    Toast("MetaMask not found", "Please install MetaMask to claim rewards.", true)
  const ClaimCancelledToast: Toast := Toast("Claim cancelled", "No points moved.", true)

  /** `slice(0, n)`. */
  function Prefix(s: string, n: nat): string {
    s[..Min(n, |s|)]
  }

  /** The toast a settled claim raises. */
  function ClaimToast(sign: SignResult, points: int, txHash: string): (t: Toast)
    ensures t.destructive <==> sign.SignError?
    ensures sign.SignError? && sign.code == UserRejected ==> t == ClaimCancelledToast
    ensures sign.SignError? && sign.code != UserRejected && sign.message != "" ==>
      t.description == sign.message
  {
    match sign
    case Signed =>
      Toast("Reward Claimed!",
            "Successfully claimed " + FormatPoints(points) + " points. TX: " + Prefix(txHash, 10) + "...",
            false)
    case SignError(code, message) =>
      if code == UserRejected then ClaimCancelledToast
      else Toast("Claim failed", if message == "" then "Failed to claim reward" else message, true)
  }

  // ---------------------------------------------------------------------------
  // The page

  class ProfilePage {
    const store: Store
    var codeInput: string
    var isSubmitting: bool
    var isClaiming: bool
    var testPassed: bool
    var toast: Option<Toast>
    var submittedCode: string
    var claimedPoints: int

    constructor (store: Store)
      ensures this.store == store
      ensures codeInput == "" && !isSubmitting && !isClaiming && !testPassed && toast == None
    {
      this.store := store;
      codeInput := "";
      isSubmitting := false;
      isClaiming := false;
      testPassed := false;
      toast := None;
      submittedCode := "";
      claimedPoints := 0;
    }

    /** The textarea's `onChange`. The textarea is rendered only with a connected
        address and is disabled once the challenge is solved; then it takes no input. */
    method EditCode(text: string)
      modifies this
      ensures codeInput == if Connected(store.State()) && !store.fibonacci.solved then text else old(codeInput)
      ensures isSubmitting == old(isSubmitting) && isClaiming == old(isClaiming)
      ensures testPassed == old(testPassed) && toast == old(toast)
      ensures submittedCode == old(submittedCode) && claimedPoints == old(claimedPoints)
    {
      if Connected(store.State()) && !store.fibonacci.solved {
        codeInput := text;
      }
    }

    /** `handleCodeSubmit` up to its `await`: a blank input toasts and returns. */
    method HandleCodeSubmit() returns (suspended: bool)
      modifies this
      ensures suspended <==> !IsBlank(old(codeInput))
      ensures !suspended ==>
        toast == Some(NoCodeToast) && isSubmitting == old(isSubmitting)
        && submittedCode == old(submittedCode)
      ensures suspended ==> isSubmitting && submittedCode == old(codeInput) && toast == old(toast)
      ensures codeInput == old(codeInput) && isClaiming == old(isClaiming)
      ensures testPassed == old(testPassed) && claimedPoints == old(claimedPoints)
      ensures store.State() == old(store.State())
    {
      TrimEmptyIffBlank(codeInput);
      if Trim(codeInput) == "" {
        toast := Some(NoCodeToast);
        return false;
      }
      isSubmitting := true;
      submittedCode := codeInput;
      return true;
    }

    /** The rest of `handleCodeSubmit`, after the validation delay; `now` is the
        time `solveFibonacci` reads. */
    method ResumeCodeSubmit(now: string)
      requires isSubmitting
      modifies this, store
      ensures store.State() == SubmissionEffect(old(store.State()), submittedCode, now)
      ensures testPassed == (old(testPassed) || Accepts(submittedCode))
      ensures toast == Some(if Accepts(submittedCode) then TestPassedToast else TestFailedToast)
      ensures !isSubmitting
      ensures codeInput == old(codeInput) && submittedCode == old(submittedCode)
      ensures isClaiming == old(isClaiming) && claimedPoints == old(claimedPoints)
    {
      if Accepts(submittedCode) {
        testPassed := true;
        store.SolveFibonacci(now);
        toast := Some(TestPassedToast);
      } else {
        toast := Some(TestFailedToast);
      }
      isSubmitting := false;
    }

    /** A click on the submit button: nothing happens while it is disabled. */
    method ClickSubmit() returns (suspended: bool)
      modifies this
      ensures !SubmitEnabled(old(store.State()), old(isSubmitting)) ==>
        !suspended && unchanged(this)
      ensures SubmitEnabled(old(store.State()), old(isSubmitting)) ==>
        (suspended <==> !IsBlank(old(codeInput)))
      ensures SubmitEnabled(old(store.State()), old(isSubmitting)) && IsBlank(old(codeInput)) ==>
        toast == Some(NoCodeToast) && isSubmitting == old(isSubmitting)
        && submittedCode == old(submittedCode)
      ensures suspended ==> isSubmitting && submittedCode == codeInput && !IsBlank(codeInput)
      ensures !suspended ==> isSubmitting == old(isSubmitting) && submittedCode == old(submittedCode)
      ensures codeInput == old(codeInput) && isClaiming == old(isClaiming)
      ensures claimedPoints == old(claimedPoints) && testPassed == old(testPassed)
      ensures store.State() == old(store.State())
    {
      if !SubmitEnabled(store.State(), isSubmitting) {
        return false;
      }
      suspended := HandleCodeSubmit();
    }

    /** `handleClaimReward` up to its `await`: without a wallet it toasts and returns. */
    method HandleClaimReward(ethereum: bool) returns (suspended: bool)
      modifies this
      ensures suspended == ethereum
      ensures !ethereum ==> toast == Some(MetaMaskNotFoundToast)
      ensures !ethereum ==> isClaiming == old(isClaiming) && claimedPoints == old(claimedPoints)
      ensures ethereum ==> isClaiming && claimedPoints == store.cryptoPoints && toast == old(toast)
      ensures codeInput == old(codeInput) && isSubmitting == old(isSubmitting)
      ensures testPassed == old(testPassed) && submittedCode == old(submittedCode)
      ensures store.State() == old(store.State())
    {
      if !ethereum {
        toast := Some(MetaMaskNotFoundToast);
        return false;
      }
      isClaiming := true;
      claimedPoints := store.cryptoPoints;
      return true;
    }

    /** The rest of `handleClaimReward` once the signing request settles. On a
        signature the 64 `Math.random()` draws make the hash, `timestamp` is
        `Date.now()` and `id` the id `addTransaction` generates. */
    method ResumeClaimReward(sign: SignResult, random: seq<real>, timestamp: int, id: string)
      returns (txHash: string)
      requires isClaiming
      requires |random| == 64 && forall i :: 0 <= i < 64 ==> IsRandomDraw(random[i])
      modifies this, store
      ensures sign.Signed? ==> IsMockTxHash(txHash)
      ensures store.State() ==
        ClaimEffect(old(store.State()), claimedPoints, sign, txHash, timestamp, id)
      ensures toast == Some(ClaimToast(sign, claimedPoints, txHash))
      ensures !isClaiming
      ensures codeInput == old(codeInput) && isSubmitting == old(isSubmitting)
      ensures testPassed == old(testPassed) && submittedCode == old(submittedCode)
      ensures claimedPoints == old(claimedPoints)
    {
      match sign {
        case Signed =>
          txHash := GenerateMockTxHash(random);
          store.AddTransaction(ClaimDraft(claimedPoints, txHash, timestamp), id);
          store.ClaimReward(claimedPoints);
        case SignError(_, _) =>
          txHash := "";
      }
      toast := Some(ClaimToast(sign, claimedPoints, txHash));
      isClaiming := false;
    }

    /** A click on the claim button: nothing happens while it is disabled or hidden. */
    method ClickClaim(ethereum: bool) returns (suspended: bool)
      modifies this
      ensures !ClaimEnabled(old(store.State()), old(isClaiming)) ==> !suspended && unchanged(this)
      ensures ClaimEnabled(old(store.State()), old(isClaiming)) ==> suspended == ethereum
      ensures ClaimEnabled(old(store.State()), old(isClaiming)) && !ethereum ==>
        toast == Some(MetaMaskNotFoundToast) && isClaiming == old(isClaiming)
        && claimedPoints == old(claimedPoints)
      ensures suspended ==> isClaiming && claimedPoints == store.cryptoPoints && claimedPoints != 0
      ensures !suspended ==> isClaiming == old(isClaiming) && claimedPoints == old(claimedPoints)
      ensures codeInput == old(codeInput) && isSubmitting == old(isSubmitting)
      ensures testPassed == old(testPassed) && submittedCode == old(submittedCode)
      ensures store.State() == old(store.State())
    {
      if !ClaimEnabled(store.State(), isClaiming) {
        return false;
      }
      suspended := HandleClaimReward(ethereum);
    }
  }

  // ---------------------------------------------------------------------------
  // The page's handlers against the session steps

  /** A submit click, followed by the rest of the handler when it suspended, does
      to the store exactly what the session step for the clicked input does. */
  method SubmitMatchesStep(page: ProfilePage, now: string) returns (started: bool)
    requires !page.isSubmitting
    modifies page, page.store
    ensures page.store.State() == Step(old(page.store.State()), SubmitCode(old(page.codeInput), now))
    ensures started <==> SubmitEnabled(old(page.store.State()), false) && !IsBlank(old(page.codeInput))
    ensures !page.isSubmitting && page.codeInput == old(page.codeInput)
  {
    started := page.ClickSubmit();
    if started {
      page.ResumeCodeSubmit(now);
    }
  }

  /** A claim click, followed by the rest of the handler once the signing request
      settles, does to the store exactly what the session step does with the hash
      the handler generated. */
  method ClaimMatchesStep(page: ProfilePage, ethereum: bool, sign: SignResult, random: seq<real>,
                          timestamp: int, id: string) returns (started: bool, txHash: string)
    requires !page.isClaiming
    requires |random| == 64 && forall i :: 0 <= i < 64 ==> IsRandomDraw(random[i])
    modifies page, page.store
    ensures page.store.State() ==
      Step(old(page.store.State()), ClaimReward(ethereum, sign, txHash, timestamp, id))
    ensures started <==> ClaimEnabled(old(page.store.State()), false) && ethereum
    ensures started && sign.Signed? ==> IsMockTxHash(txHash)
    ensures !page.isClaiming
  {
    txHash := "";
    started := page.ClickClaim(ethereum);
    if started {
      txHash := page.ResumeClaimReward(sign, random, timestamp, id);
    }
  }

  // ---------------------------------------------------------------------------
  // Two mounts of the page over one store

  /** `isClaiming` belongs to one mount of the page. If the user leaves the page
      while the signing prompt is open and comes back, the new mount's claim
      button is live over the same points, and signing both requests pays the
      reward twice: two claims are logged and the coins reach 6.500. */
  method RemountPaysTwice(address: string, now: string, random: seq<real>, timestamp: int)
    returns (store: Store)
    requires address != ""
    requires |random| == 64 && forall i :: 0 <= i < 64 ==> IsRandomDraw(random[i])
    ensures |store.transactions| == 2
    ensures store.transactions[0].amount == SolveReward && store.transactions[1].amount == SolveReward
    ensures store.mockCoins == InitialCoins + 2 * SolveReward && store.cryptoPoints == 0
  {
    store := new Store();
    store.SetConnectedAddress(Some(address));
    store.SolveFibonacci(now);
    var first := new ProfilePage(store);
    var started := first.ClickClaim(true);
    var second := new ProfilePage(store);
    started := second.ClickClaim(true);
    var hash1 := first.ResumeClaimReward(Signed, random, timestamp, "1");
    var hash2 := second.ResumeClaimReward(Signed, random, timestamp, "2");
  }

  // ---------------------------------------------------------------------------
  // A session: the page's handlers run one after another, each through its button

  datatype Event =
    | AccountsChanged(accounts: seq<string>)
    | SubmitCode(code: string, now: string)
    | ClaimReward(ethereum: bool, sign: SignResult, txHash: string, timestamp: int, id: string)

  /** One user action, run to completion, as the rendered page allows it. */
  function Step(s: WalletState, e: Event): WalletState {
    match e
    case AccountsChanged(accounts) => WithAddress(s, AddressFromAccounts(accounts))
    case SubmitCode(code, now) =>
      if SubmitEnabled(s, false) && !IsBlank(code) then SubmissionEffect(s, code, now) else s
    case ClaimReward(ethereum, sign, txHash, timestamp, id) =>
      if ClaimEnabled(s, false) && ethereum
      then ClaimEffect(s, s.cryptoPoints, sign, txHash, timestamp, id)
      else s
  }

  function Run(s: WalletState, events: seq<Event>): WalletState
    decreases |events|
  {
    if events == [] then s else Run(Step(s, events[0]), events[1..])
  }

  function TotalClaimed(txs: seq<Transaction>): int {
    if txs == [] then 0 else txs[0].amount + TotalClaimed(txs[1..])
  }

  /** The ledger as a session through this page keeps it: balances never negative,
      `attempts` counts the one successful solve, every claimed point arrived in the
      coins, the points still held plus those claimed are the one reward, at most
      one claim is logged and it empties the points. */
  predicate Ledger(s: WalletState) {
    && BalancesValid(s)
    && s.fibonacci.attempts == (if s.fibonacci.solved then 1 else 0)
    && s.mockCoins == InitialCoins + TotalClaimed(s.transactions)
    && s.cryptoPoints + TotalClaimed(s.transactions) == (if s.fibonacci.solved then SolveReward else 0)
    && |s.transactions| <= (if s.fibonacci.solved then 1 else 0)
    && (s.transactions != [] ==> s.cryptoPoints == 0)
    && forall i :: 0 <= i < |s.transactions| ==> s.transactions[i].amount > 0
  }

  lemma InitialLedger()
    ensures Ledger(Initial)
  {
  }

  lemma StepKeepsLedger(s: WalletState, e: Event)
    requires Ledger(s)
    ensures Ledger(Step(s, e))
  {
    match e
    case AccountsChanged(accounts) =>
    case SubmitCode(code, now) =>
    case ClaimReward(ethereum, sign, txHash, timestamp, id) =>
      if ClaimEnabled(s, false) && ethereum && sign.Signed? {
        var t := Step(s, e);
        assert s.transactions == [];
        assert t.transactions[1..] == [];
        assert TotalClaimed(t.transactions) == s.cryptoPoints;
      }
  }

  lemma {:induction false} RunKeepsLedger(s: WalletState, events: seq<Event>)
    requires Ledger(s)
    ensures Ledger(Run(s, events))
    decreases |events|
  {
    if events != [] {
      StepKeepsLedger(s, events[0]);
      RunKeepsLedger(Step(s, events[0]), events[1..]);
    }
  }

  /** Whatever the user does from a fresh store: value is neither created nor lost
      beyond the one reward, the reward is paid at most once, and at most one claim
      is logged. */
  lemma SessionTotals(events: seq<Event>)
    ensures var t := Run(Initial, events);
      && Ledger(t)
      && t.mockCoins + t.cryptoPoints == InitialCoins + (if t.fibonacci.solved then SolveReward else 0)
      && t.fibonacci.attempts <= 1
      && |t.transactions| <= 1
  {
    InitialLedger();
    RunKeepsLedger(Initial, events);
  }

  /** `old` is what remains of `log` once some entries are dropped from its front. */
  predicate IsTailOf(earlier: seq<Transaction>, log: seq<Transaction>) {
    |earlier| <= |log| && log[|log| - |earlier|..] == earlier
  }

  lemma TailOfTail(a: seq<Transaction>, b: seq<Transaction>, c: seq<Transaction>)
    requires IsTailOf(a, b) && IsTailOf(b, c)
    ensures IsTailOf(a, c)
  {
    assert c[|c| - |a|..] == c[|c| - |b|..][|b| - |a|..];
  }

  /** A step never rewrites the log or un-solves the challenge. */
  lemma StepExtendsLog(s: WalletState, e: Event)
    ensures var t := Step(s, e);
      && IsTailOf(s.transactions, t.transactions)
      && (s.fibonacci.solved ==> t.fibonacci.solved)
  {
    var t := Step(s, e);
    if |t.transactions| != |s.transactions| {
      assert e.ClaimReward? && e.sign.Signed?;
      assert t.transactions[1..] == s.transactions;
    }
  }

  /** Over a whole session the log only grows at the front and a solved challenge stays solved. */
  lemma {:induction false} RunExtendsLog(s: WalletState, events: seq<Event>)
    ensures var t := Run(s, events);
      && IsTailOf(s.transactions, t.transactions)
      && (s.fibonacci.solved ==> t.fibonacci.solved)
    decreases |events|
  {
    if events != [] {
      var m := Step(s, events[0]);
      StepExtendsLog(s, events[0]);
      RunExtendsLog(m, events[1..]);
      TailOfTail(s.transactions, m.transactions, Run(m, events[1..]).transactions);
    }
  }

  /** Connect, pass the test, sign the claim: 2.00 points end up as coins
      (2.500 + 2.000 = 4.500) and one completed claim of 2.00 is logged. */
  lemma HappyPath(address: string, code: string, now: string, txHash: string, timestamp: int, id: string)
    requires address != ""
    requires Accepts(code)
    ensures var t := Run(Initial, [AccountsChanged([address]), SubmitCode(code, now),
                                   ClaimReward(true, Signed, txHash, timestamp, id)]);
      && t.fibonacci == Challenge(true, 1, Some(now))
      && t.cryptoPoints == 0 && t.mockCoins == 4500
      && t.transactions == [Transaction(id, Claim, 2000, timestamp, txHash, Completed)]
  {
    AcceptedIsNotBlank(code);
    var s1 := Step(Initial, AccountsChanged([address]));
    var s2 := Step(s1, SubmitCode(code, now));
    assert s2.cryptoPoints == 2000;
    var claim := ClaimReward(true, Signed, txHash, timestamp, id);
    var s3 := Step(s2, claim);
    RunThree(Initial, AccountsChanged([address]), SubmitCode(code, now), claim);
  }

  /** A declined signature (or any signing error) after a solve leaves the points
      unclaimed and the log empty. */
  lemma DeclinedClaim(address: string, code: string, now: string, err: int, message: string,
                      txHash: string, timestamp: int, id: string)
    requires address != ""
    requires Accepts(code)
    ensures var t := Run(Initial, [AccountsChanged([address]), SubmitCode(code, now),
                                   ClaimReward(true, SignError(err, message), txHash, timestamp, id)]);
      && t.cryptoPoints == 2000 && t.mockCoins == 2500 && t.transactions == []
  {
    AcceptedIsNotBlank(code);
    var s1 := Step(Initial, AccountsChanged([address]));
    var s2 := Step(s1, SubmitCode(code, now));
    var claim := ClaimReward(true, SignError(err, message), txHash, timestamp, id);
    var s3 := Step(s2, claim);
    RunThree(Initial, AccountsChanged([address]), SubmitCode(code, now), claim);
  }

  lemma RunThree(s: WalletState, a: Event, b: Event, c: Event)
    ensures Run(s, [a, b, c]) == Step(Step(Step(s, a), b), c)
  {
    var s1 := Step(s, a);
    var s2 := Step(s1, b);
    var s3 := Step(s2, c);
    assert [a, b, c][1..] == [b, c];
    assert [b, c][1..] == [c];
    assert [c][1..] == [];
    assert Run(s2, [c]) == Run(s3, []) == s3;
    assert Run(s1, [b, c]) == Run(s2, [c]);
    assert Run(s, [a, b, c]) == Run(s1, [b, c]);
  }

  // ---------------------------------------------------------------------------
  // Without the page's guards

  /** `n` rounds of `solveFibonacci` followed by `claimReward` of the whole balance,
      straight on the store. */
  function CreditClaimCycles(s: WalletState, n: nat, now: string): WalletState
    decreases n
  {
    if n == 0 then s
    else
      var solved := Solved(s, now);
      CreditClaimCycles(Claimed(solved, solved.cryptoPoints), n - 1, now)
  }

  /** The store's own actions have no guard: each round credits another 2.00 and one
      more attempt, and with whole-balance claims the coins grow by exactly 2.000 per
      round, without drift. */
  lemma {:induction false} CyclesAreExact(s: WalletState, n: nat, now: string)
    requires s.cryptoPoints == 0
    ensures var t := CreditClaimCycles(s, n, now);
      && t.mockCoins == s.mockCoins + n * SolveReward
      && t.cryptoPoints == 0
      && t.fibonacci.attempts == s.fibonacci.attempts + n
    decreases n
  {
    if n > 0 {
      var solved := Solved(s, now);
      CyclesAreExact(Claimed(solved, solved.cryptoPoints), n - 1, now);
    }
  }
}
