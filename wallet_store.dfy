/** The mock wallet store: a connected address, two balances, the Fibonacci
    challenge record and the claim log, with the four store actions and the
    display helpers that go with them.

    Money is held in integer thousandths: `mockCoins` starts at 2.500 (2500) and
    a solve adds 2.00 points (2000), so repeated credits and claims are exact. */
module WalletStore {
  import opened Text

  const InitialCoins: int := 2500
  const SolveReward: int := 2000

  datatype Challenge = Challenge(solved: bool, attempts: nat, lastSolvedAt: Option<string>)

  datatype TxType = Claim
  datatype TxStatus = Completed

  /** A transaction as the caller hands it to `addTransaction`: everything but the id. */
  datatype TransactionDraft = TransactionDraft(
    kind: TxType, amount: int, timestamp: int, txHash: string, status: TxStatus)

  datatype Transaction = Transaction(
    id: string, kind: TxType, amount: int, timestamp: int, txHash: string, status: TxStatus)

  /** A snapshot of the whole store, as components read it. */
  datatype WalletState = WalletState(
    connectedAddress: Option<string>,
    mockCoins: int,
    cryptoPoints: int,
    fibonacci: Challenge,
    transactions: seq<Transaction>)

  const Initial: WalletState :=
    WalletState(None, InitialCoins, 0, Challenge(false, 0, None), [])

  /** Neither balance is negative, and a solved challenge has a recorded attempt and time. */
  predicate BalancesValid(s: WalletState) {
    && s.mockCoins >= 0
    && s.cryptoPoints >= 0
    && (s.fibonacci.solved ==> s.fibonacci.attempts >= 1 && s.fibonacci.lastSolvedAt.Some?)
  }

  /** The pages' `!connectedAddress` test, negated: an address is present and,
      as a JavaScript string, truthy (not empty). */
  predicate Connected(s: WalletState) {
    s.connectedAddress.Some? && s.connectedAddress.value != ""
  }

  lemma InitialValid()
    ensures BalancesValid(Initial)
  {
  }

  // ---------------------------------------------------------------------------
  // The store actions as transitions on snapshots

  /** `setConnectedAddress(address)`. */
  function WithAddress(s: WalletState, address: Option<string>): (t: WalletState)
    ensures t.connectedAddress == address
    ensures t.mockCoins == s.mockCoins && t.cryptoPoints == s.cryptoPoints
    ensures t.fibonacci == s.fibonacci && t.transactions == s.transactions
    ensures BalancesValid(s) ==> BalancesValid(t)
  {
    s.(connectedAddress := address)
  }

  /** `solveFibonacci()` at time `now`: it has no guard, so every call credits again. */
  function Solved(s: WalletState, now: string): (t: WalletState)
    ensures t.fibonacci.solved
    ensures t.fibonacci.attempts == s.fibonacci.attempts + 1
    ensures t.fibonacci.lastSolvedAt == Some(now)
    ensures t.cryptoPoints == s.cryptoPoints + SolveReward
    ensures t.connectedAddress == s.connectedAddress && t.mockCoins == s.mockCoins
    ensures t.transactions == s.transactions
    ensures BalancesValid(s) ==> BalancesValid(t)
  {
    s.(fibonacci := s.fibonacci.(solved := true,
                                 attempts := s.fibonacci.attempts + 1,
                                 lastSolvedAt := Some(now)),
       cryptoPoints := s.cryptoPoints + SolveReward)
  }

  /** `claimReward(amount)`: credit the whole amount to coins, debit points but never below 0. */
  function Claimed(s: WalletState, amount: int): (t: WalletState)
    ensures t.mockCoins == s.mockCoins + amount
    ensures t.cryptoPoints >= 0
    ensures amount <= s.cryptoPoints ==> t.cryptoPoints == s.cryptoPoints - amount
    ensures amount >= s.cryptoPoints ==> t.cryptoPoints == 0
    // conservation holds exactly when the amount is covered by the points
    ensures amount <= s.cryptoPoints ==> t.mockCoins + t.cryptoPoints == s.mockCoins + s.cryptoPoints
    ensures 0 <= s.cryptoPoints < amount ==>
      t.mockCoins + t.cryptoPoints == s.mockCoins + s.cryptoPoints + (amount - s.cryptoPoints)
    ensures t.connectedAddress == s.connectedAddress && t.fibonacci == s.fibonacci
    ensures t.transactions == s.transactions
    ensures amount >= 0 && BalancesValid(s) ==> BalancesValid(t)
  {
    s.(mockCoins := s.mockCoins + amount,
       cryptoPoints := Max(0, s.cryptoPoints - amount))
  }

  /** The record `addTransaction` stores: the draft with the generated id. */
  function WithId(draft: TransactionDraft, id: string): (tx: Transaction)
    ensures tx.id == id && tx.amount == draft.amount && tx.kind == draft.kind
    ensures tx.timestamp == draft.timestamp && tx.txHash == draft.txHash
    ensures tx.status == draft.status
  {
    Transaction(id, draft.kind, draft.amount, draft.timestamp, draft.txHash, draft.status)
  }

  /** `addTransaction(draft)` with generated id `id`: the record goes in front, most recent first. */
  function Prepended(s: WalletState, draft: TransactionDraft, id: string): (t: WalletState)
    ensures |t.transactions| == |s.transactions| + 1
    ensures t.transactions[0] == WithId(draft, id)
    ensures t.transactions[1..] == s.transactions
    ensures t.connectedAddress == s.connectedAddress && t.mockCoins == s.mockCoins
    ensures t.cryptoPoints == s.cryptoPoints && t.fibonacci == s.fibonacci
    ensures BalancesValid(s) ==> BalancesValid(t)
  {
    s.(transactions := [WithId(draft, id)] + s.transactions)
  }

  /** The account-change rule of the wallet connection: the first account, or none. */
  function AddressFromAccounts(accounts: seq<string>): (a: Option<string>)
    ensures a.None? <==> accounts == []
    ensures a.Some? ==> a.value == accounts[0]
  {
    if |accounts| > 0 then Some(accounts[0]) else None
  }

  // ---------------------------------------------------------------------------
  // The store object

  class Store {
    var connectedAddress: Option<string>
    var mockCoins: int
    var cryptoPoints: int
    var fibonacci: Challenge
    var transactions: seq<Transaction>

    function State(): WalletState
      reads this
    {
      WalletState(connectedAddress, mockCoins, cryptoPoints, fibonacci, transactions)
    }

    predicate Valid()
      reads this
    {
      BalancesValid(State())
    }

    constructor ()
      ensures connectedAddress == None
      ensures mockCoins == 2500 && cryptoPoints == 0
      ensures fibonacci == Challenge(false, 0, None)
      ensures transactions == []
      ensures State() == Initial && Valid()
    {
      connectedAddress := None;
      mockCoins := InitialCoins;
      cryptoPoints := 0;
      fibonacci := Challenge(false, 0, None);
      transactions := [];
    }

    method SetConnectedAddress(address: Option<string>)
      modifies this
      ensures State() == WithAddress(old(State()), address)
      ensures old(Valid()) ==> Valid()
    {
      connectedAddress := address;
    }

    /** `now` stands for `new Date().toISOString()` at the moment of the call. */
    method SolveFibonacci(now: string)
      modifies this
      ensures State() == Solved(old(State()), now)
      ensures old(Valid()) ==> Valid()
    {
      fibonacci := fibonacci.(solved := true, attempts := fibonacci.attempts + 1,
                              lastSolvedAt := Some(now));
      cryptoPoints := cryptoPoints + SolveReward;
    }

    method ClaimReward(amount: int)
      modifies this
      ensures State() == Claimed(old(State()), amount)
      ensures amount >= 0 && old(Valid()) ==> Valid()
    {
      mockCoins := mockCoins + amount;
      cryptoPoints := Max(0, cryptoPoints - amount);
    }

    /** `id` stands for `Date.now().toString()`, which need not be unique. */
    method AddTransaction(draft: TransactionDraft, id: string)
      modifies this
      ensures State() == Prepended(old(State()), draft, id)
      ensures old(Valid()) ==> Valid()
    {
      transactions := [WithId(draft, id)] + transactions;
    }
  }

  // ---------------------------------------------------------------------------
  // Display helpers

  /** `formatAddress`: "" stays "", otherwise the first six characters, "...",
      and the last four (`slice(-4)` takes the whole of a shorter string). */
  function FormatAddress(address: string): (r: string)
    ensures address == "" ==> r == ""
    ensures address != "" ==>
      var head, tail := Min(6, |address|), Min(4, |address|);
      && |r| == head + 3 + tail
      && r[..head] == address[..head]
      && r[head..head + 3] == "..."
      && r[head + 3..] == address[|address| - tail..]
  {
    if address == "" then ""
    else address[..Min(6, |address|)] + "..." + address[Max(0, |address| - 4)..]
  }

  /** For an address of at least ten characters the display is 13 characters, and
      it is built from both ends of the address. */
  lemma FormatLongAddress(address: string)
    requires |address| >= 10
    ensures |FormatAddress(address)| == 13
    ensures FormatAddress(address) == address[..6] + "..." + address[|address| - 4..]
  {
  }

  const HexAlphabet: string := "0123456789abcdef"

  /** A value `Math.random()` can return. */
  predicate IsRandomDraw(r: real) { 0.0 <= r < 1.0 }

  /** `chars[Math.floor(r * chars.length)]`. */
  function HexDigitFor(r: real): (c: char)
    requires IsRandomDraw(r)
    ensures c in HexAlphabet
  {
    HexAlphabet[(r * 16.0).Floor]
  }

  /** The shape of every generated hash: "0x" and 64 lower-case hex digits. */
  predicate IsMockTxHash(h: string) {
    |h| == 66 && h[..2] == "0x" && forall i :: 2 <= i < |h| ==> h[i] in HexAlphabet
  }

  /** `generateMockTxHash()`, with its 64 calls to `Math.random()` supplied as `random`. */
  method GenerateMockTxHash(random: seq<real>) returns (hash: string)
    requires |random| == 64 && forall i :: 0 <= i < 64 ==> IsRandomDraw(random[i])
    ensures IsMockTxHash(hash)
    ensures forall i :: 0 <= i < 64 ==> hash[i + 2] == HexDigitFor(random[i])
  {
    hash := "0x";
    for i := 0 to 64
      invariant |hash| == 2 + i && hash[..2] == "0x"
      invariant forall k :: 0 <= k < i ==> hash[k + 2] == HexDigitFor(random[k])
      invariant forall k :: 2 <= k < |hash| ==> hash[k] in HexAlphabet
    {
      hash := hash + [HexDigitFor(random[i])];
    }
  }

  /** `formatPoints(points)`, i.e. `toFixed(2)`: points to the nearest hundredth,
      exact when the thousandths digit is 0. */
  function FormatPoints(points: int): (r: string)
    ensures |r| >= 4 && r[|r| - 3] == '.' && AllDigits(r[|r| - 2..])
    ensures var sg := if points < 0 then 1 else 0;
      && |r| >= 4 + sg && (r[0] == '-' <==> points < 0)
      && AllDigits(r[sg..|r| - 3]) && (|r| - 3 - sg > 1 ==> r[sg] != '0')
    ensures 2 * Abs(10 * FixedValue(r) - points) <= 10
    ensures points % 10 == 0 ==> 10 * FixedValue(r) == points
  {
    var r := ToFixed(points, 2);
    ToFixedMeaning(points, 2);
    var u := RoundedUnits(points, 2);
    assert Pow10(1) == 10;
    SignedNearest(points, u, FixedValue(r));
    NearestMultiple(points, FixedValue(r));
    r
  }

  lemma SignedNearest(v: int, u: nat, f: int)
    requires 2 * Abs(u * 10 - Abs(v)) <= 10
    requires f == (if v < 0 then -1 else 1) * u
    ensures 2 * Abs(10 * f - v) <= 10
  {
  }

  lemma NearestMultiple(v: int, f: int)
    requires 2 * Abs(10 * f - v) <= 10
    ensures v % 10 == 0 ==> 10 * f == v
  {
    if v % 10 == 0 {
      var k := v / 10;
      assert v == 10 * k;
      assert 2 * Abs(10 * (f - k)) <= 10;
    }
  }

  /** The prefix `formatEth` emits. The source file holds the bytes C3 8E C5 BE
      here, which read as the two characters U+00CE U+017E. */
  const EthPrefix: string := "\U{00CE}\U{017E} "

  /** `formatEth(amount)`, i.e. the prefix and `toFixed(3)`: a thousandths amount
      shown exactly, so its digits read back as the amount. */
  function FormatEth(amount: int): (r: string)
    ensures |r| >= 8 && r[..3] == EthPrefix
    ensures var b, sg := r[3..], if amount < 0 then 1 else 0;
      && |b| >= 5 + sg && (b[0] == '-' <==> amount < 0)
      && AllDigits(b[sg..|b| - 4]) && (|b| - 4 - sg > 1 ==> b[sg] != '0')
      && b[|b| - 4] == '.' && AllDigits(b[|b| - 3..])
    ensures FixedValue(r[3..]) == amount
  {
    var body := ToFixed(amount, 3);
    ToFixedMeaning(amount, 3);
    var r := EthPrefix + body;
    assert r[3..] == body;
    r
  }

}
