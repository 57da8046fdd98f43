/** The deployment and the acceptance scenario of FAsset.test.js, replayed on the model: four
    accounts (the deployer and three users), PRECISION 4 so that 10000 basis points are 100%,
    DELEGATION_LIMIT 5, a deployer fee of 1000, and one mutation per index. The scenario is
    followed through a four-account summary of the ledger, advanced by the same arithmetic
    the operations' effect lemmas state. */
module Scenario {
  import opened Errors
  import opened Delegations
  import opened Ledgers
  import opened Invariant
  import opened FAsset

  const Dev: Account := 0
  const Bob: Account := 1
  const Lucy: Account := 2
  const Ed: Account := 3

  const Precision: nat := 4
  const Limit: nat := 5
  const DevFee: nat := 1000
  const Genesis: nat := 1

  /** What the scenario tracks of one account: its balance, its current scaled vote power, the
      basis points it grants each of the four accounts, and a bound on its list's length. */
  datatype Summary = Summary(balance: int, power: int, shares: seq<int>, size: nat)

  /** Entry a of the summary is what the ledger reads for account a at index c. */
  ghost predicate Matches(L: Ledger, c: nat, a: Account, e: Summary)
  {
    && BalanceOf(L, a) == e.balance
    && VotePowerAt(L, a, c) == e.power
    && |e.shares| == 4
    && |DelegatesOf(L, a)| <= e.size
    && Total(DelegatesOf(L, a)) == e.shares[0] + e.shares[1] + e.shares[2] + e.shares[3]
    && forall x :: 0 <= x < 4 ==> SharesTo(DelegatesOf(L, a), x) == e.shares[x]
  }

  /** The ledger has the scenario's configuration, its latest mutation is at c, and the
      summary describes it. */
  ghost predicate Holds(L: Ledger, c: nat, rows: seq<Summary>)
  {
    && Valid(L)
    && L.precision == Precision && L.limit == Limit && L.genesis == Genesis && L.clock == c
    && |rows| == 4
    && forall a :: 0 <= a < 4 ==> Matches(L, c, a, rows[a])
  }

  function SharesTotal(e: Summary): int
    requires |e.shares| == 4
  {
    e.shares[0] + e.shares[1] + e.shares[2] + e.shares[3]
  }

  /** Weight on the summary: the scaled vote power one token of a gives x. */
  function RowWeight(rows: seq<Summary>, a: Account, x: Account): int
    requires a < |rows| && x < 4 && |rows[a].shares| == 4
  {
    (if x == a then 10000 - SharesTotal(rows[a]) else 0) + rows[a].shares[x]
  }

  /** Entry a after `from` transfers amount to `to`. */
  function Transferred(rows: seq<Summary>, from: Account, to: Account, amount: nat, a: Account): Summary
    requires from < |rows| && to < |rows| && a < |rows| && a < 4
    requires |rows[from].shares| == 4 && |rows[to].shares| == 4
  {
    rows[a].(balance := rows[a].balance - (if a == from then amount else 0) + (if a == to then amount else 0),
             power := rows[a].power - amount * RowWeight(rows, from, a) + amount * RowWeight(rows, to, a))
  }

  /** Entry a after `from` grants `to` bp basis points. */
  function Delegated(rows: seq<Summary>, from: Account, to: Account, bp: nat, a: Account): Summary
    requires from < |rows| && a < |rows| && to < 4 && |rows[from].shares| == 4
  {
    var m := rows[from].balance * (bp - rows[from].shares[to]);
    rows[a].(power := rows[a].power + (if a == to then m else 0) - (if a == from then m else 0),
             shares := if a == from then rows[from].shares[to := bp] else rows[a].shares,
             size := if a == from then rows[a].size + 1 else rows[a].size)
  }

  /** Dropping the scale from a scaled vote power, at PRECISION 4. */
  lemma PercentIs(vp: int, p: int)
    requires 0 <= p && p * 10000 <= vp < (p + 1) * 10000
    ensures ToPercent(vp, Precision) == p
  {
    assert Pow10(Precision) == 10000;
  }

  lemma ScaleIs(L: Ledger)
    requires L.precision == Precision
    ensures Scale(L) == 10000
  {
  }

  // ---------------------------------------------------------------------------------------
  // The two kinds of step, on the summary

  /** What TransferNow says about account x after a transfer, gathered in one predicate so
      that the summary arithmetic below is done without the ledger invariant in view. */
  ghost predicate AfterTransfer(L: Ledger, r: Ledger, from: Account, to: Account, amount: nat, idx: nat, x: Account)
  {
    && BalanceOf(r, x) == BalanceOf(L, x) - (if x == from then amount else 0) + (if x == to then amount else 0)
    && DelegatesOf(r, x) == DelegatesOf(L, x)
    && VotePowerAt(r, x, idx) == VotePowerAt(L, x, L.clock) - amount * Weight(L, from, x) + amount * Weight(L, to, x)
  }

  /** What DelegateNow says about account x after a delegation. */
  ghost predicate AfterDelegate(L: Ledger, r: Ledger, from: Account, to: Account, bp: nat, idx: nat, x: Account)
  {
    && BalanceOf(r, x) == BalanceOf(L, x)
    && (x != from ==> DelegatesOf(r, x) == DelegatesOf(L, x))
    && SharesTo(DelegatesOf(r, from), to) == bp
    && (x != to ==> SharesTo(DelegatesOf(r, from), x) == SharesTo(DelegatesOf(L, from), x))
    && Total(DelegatesOf(r, from)) == Total(DelegatesOf(L, from)) - SharesTo(DelegatesOf(L, from), to) + bp
    && |DelegatesOf(r, from)| <= |DelegatesOf(L, from)| + 1
    && VotePowerAt(r, x, idx)
       == VotePowerAt(L, x, L.clock)
          + (if x == to then MovedPower(L, from, to, bp) else 0) - (if x == from then MovedPower(L, from, to, bp) else 0)
  }

  lemma TransferEffects(L: Ledger, from: Account, to: Account, amount: nat, idx: nat, r: Ledger)
    requires Valid(L) && TransferFrom(L, from, to, amount, idx) == Ok(r)
    ensures forall x :: AfterTransfer(L, r, from, to, amount, idx, x)
  {
    forall x ensures AfterTransfer(L, r, from, to, amount, idx, x) {
      TransferNow(L, from, to, amount, idx, r, x);
    }
  }

  lemma DelegateEffects(L: Ledger, from: Account, to: Account, bp: nat, idx: nat, r: Ledger)
    requires Valid(L) && Delegate(L, from, to, bp, idx) == Ok(r)
    ensures forall x :: AfterDelegate(L, r, from, to, bp, idx, x)
  {
    forall x ensures AfterDelegate(L, r, from, to, bp, idx, x) {
      DelegateNow(L, from, to, bp, idx, r, x);
    }
  }

  /** A transfer between two of the four accounts succeeds when the sender holds enough, and
      the summary follows it. */
  lemma TransferStep(L: Ledger, c: nat, rows: seq<Summary>, from: Account, to: Account, amount: nat, idx: nat, next: seq<Summary>)
    requires Holds(L, c, rows) && from < 4 && to < 4 && c <= idx && rows[from].balance >= amount
    requires |next| == 4 && forall a :: 0 <= a < 4 ==> next[a] == Transferred(rows, from, to, amount, a)
    ensures TransferFrom(L, from, to, amount, idx).Ok?
    ensures Holds(TransferFrom(L, from, to, amount, idx).value, idx, next)
  {
    assert Matches(L, c, from, rows[from]) && Matches(L, c, to, rows[to]);
    var r := TransferFrom(L, from, to, amount, idx).value;
    TransferEffects(L, from, to, amount, idx, r);
    forall a | 0 <= a < 4
      ensures Matches(r, idx, a, next[a])
    {
      assert Matches(L, c, a, rows[a]);
      TransferRow(L, c, rows, from, to, amount, idx, r, a);
    }
  }

  lemma TransferRow(L: Ledger, c: nat, rows: seq<Summary>, from: Account, to: Account, amount: nat, idx: nat, r: Ledger, a: Account)
    requires |rows| == 4 && from < 4 && to < 4 && a < 4 && L.precision == Precision && L.clock == c
    requires Matches(L, c, from, rows[from]) && Matches(L, c, to, rows[to]) && Matches(L, c, a, rows[a])
    requires AfterTransfer(L, r, from, to, amount, idx, a)
    ensures Matches(r, idx, a, Transferred(rows, from, to, amount, a))
  {
    ScaleIs(L);
    var w1, w2 := RowWeight(rows, from, a), RowWeight(rows, to, a);
    assert Weight(L, from, a) == w1 && Weight(L, to, a) == w2;
    assert amount * Weight(L, from, a) == amount * w1 && amount * Weight(L, to, a) == amount * w2 by {
      MulCongr(amount, Weight(L, from, a), amount, w1);
      MulCongr(amount, Weight(L, to, a), amount, w2);
    }
  }

  /** A delegation between two of the four accounts succeeds when the delegator's list has
      room and stays within 100%, and the summary follows it. */
  lemma DelegateStep(L: Ledger, c: nat, rows: seq<Summary>, from: Account, to: Account, bp: nat, idx: nat, next: seq<Summary>)
    requires Holds(L, c, rows) && from < 4 && to < 4 && c <= idx
    requires rows[from].size < Limit && SharesTotal(rows[from]) - rows[from].shares[to] + bp <= 10000
    requires |next| == 4 && forall a :: 0 <= a < 4 ==> next[a] == Delegated(rows, from, to, bp, a)
    ensures Delegate(L, from, to, bp, idx).Ok?
    ensures Holds(Delegate(L, from, to, bp, idx).value, idx, next)
  {
    assert Matches(L, c, from, rows[from]);
    ScaleIs(L);
    var r := Delegate(L, from, to, bp, idx).value;
    DelegateEffects(L, from, to, bp, idx, r);
    forall a | 0 <= a < 4
      ensures Matches(r, idx, a, next[a])
    {
      assert Matches(L, c, a, rows[a]);
      DelegateRow(L, c, rows, from, to, bp, idx, r, a);
    }
  }

  lemma DelegateRow(L: Ledger, c: nat, rows: seq<Summary>, from: Account, to: Account, bp: nat, idx: nat, r: Ledger, a: Account)
    requires |rows| == 4 && from < 4 && to < 4 && a < 4 && L.clock == c
    requires Matches(L, c, from, rows[from]) && Matches(L, c, a, rows[a])
    requires forall x :: AfterDelegate(L, r, from, to, bp, idx, x)
    ensures Matches(r, idx, a, Delegated(rows, from, to, bp, a))
  {
    assert AfterDelegate(L, r, from, to, bp, idx, a);
    MulCongr(BalanceOf(L, from), bp - SharesTo(DelegatesOf(L, from), to), rows[from].balance, bp - rows[from].shares[to]);
    forall x | 0 <= x < 4
      ensures SharesTo(DelegatesOf(r, a), x) == Delegated(rows, from, to, bp, a).shares[x]
    {
      assert AfterDelegate(L, r, from, to, bp, idx, x);
    }
  }

  lemma MulCongr(a: int, b: int, a2: int, b2: int)
    requires a == a2 && b == b2
    ensures a * b == a2 * b2
  {
  }

  // ---------------------------------------------------------------------------------------
  // The scenario

  const Zero: seq<int> := [0, 0, 0, 0]

  const Deployed: seq<Summary> :=
    [Summary(1000, 10000000, Zero, 0), Summary(0, 0, Zero, 0), Summary(0, 0, Zero, 0), Summary(0, 0, Zero, 0)]

  const BobFunded: seq<Summary> :=
    [Summary(980, 9800000, Zero, 0), Summary(20, 200000, Zero, 0), Summary(0, 0, Zero, 0), Summary(0, 0, Zero, 0)]

  const LucyFunded: seq<Summary> :=
    [Summary(970, 9700000, Zero, 0), Summary(20, 200000, Zero, 0), Summary(10, 100000, Zero, 0), Summary(0, 0, Zero, 0)]

  const HalfToLucy: seq<Summary> :=
    [Summary(970, 9700000, Zero, 0), Summary(20, 100000, [0, 0, 5000, 0], 1), Summary(10, 200000, Zero, 0), Summary(0, 0, Zero, 0)]

  const QuarterToEd: seq<Summary> :=
    [Summary(970, 9700000, Zero, 0), Summary(20, 50000, [0, 0, 5000, 2500], 2), Summary(10, 200000, Zero, 0), Summary(0, 50000, Zero, 0)]

  const BobTopped: seq<Summary> :=
    [Summary(954, 9540000, Zero, 0), Summary(36, 90000, [0, 0, 5000, 2500], 2), Summary(10, 280000, Zero, 0), Summary(0, 90000, Zero, 0)]

  const LucyToEd: seq<Summary> :=
    [Summary(954, 9540000, Zero, 0), Summary(36, 90000, [0, 0, 5000, 2500], 2), Summary(10, 180000, [0, 0, 0, 10000], 1), Summary(0, 190000, Zero, 0)]

  // Each stage's summary is the previous one advanced by the step's arithmetic.

  lemma BobFundedFollows()
    ensures forall a :: 0 <= a < 4 ==> BobFunded[a] == Transferred(Deployed, Dev, Bob, 20, a)
  {
  }

  lemma LucyFundedFollows()
    ensures forall a :: 0 <= a < 4 ==> LucyFunded[a] == Transferred(BobFunded, Dev, Lucy, 10, a)
  {
  }

  lemma HalfToLucyFollows()
    ensures forall a :: 0 <= a < 4 ==> HalfToLucy[a] == Delegated(LucyFunded, Bob, Lucy, 5000, a)
  {
  }

  lemma QuarterToEdFollows()
    ensures forall a :: 0 <= a < 4 ==> QuarterToEd[a] == Delegated(HalfToLucy, Bob, Ed, 2500, a)
  {
  }

  lemma BobToppedFollows()
    ensures forall a :: 0 <= a < 4 ==> BobTopped[a] == Transferred(QuarterToEd, Dev, Bob, 16, a)
  {
  }

  lemma LucyToEdFollows()
    ensures forall a :: 0 <= a < 4 ==> LucyToEd[a] == Delegated(BobTopped, Lucy, Ed, 10000, a)
  {
  }

  /** Deployment at index 1: the deployer holds the fee, all of it its own vote power. */
  lemma Deployment()
    ensures Holds(Create(Precision, Limit, DevFee, Dev, Genesis), Genesis, Deployed)
    ensures BalanceOf(Create(Precision, Limit, DevFee, Dev, Genesis), Dev) == 1000
  {
    var L := Create(Precision, Limit, DevFee, Dev, Genesis);
    forall a | 0 <= a < 4
      ensures Matches(L, Genesis, a, Deployed[a])
    {
      CreateSpec(Precision, Limit, DevFee, Dev, Genesis, a);
    }
  }

  /** 'transfers tokens to Bob': 20 from the deployer at index 2. */
  lemma TransferToBob(L: Ledger)
    requires Holds(L, 1, Deployed)
    ensures TransferFrom(L, Dev, Bob, 20, 2).Ok?
    ensures Holds(TransferFrom(L, Dev, Bob, 20, 2).value, 2, BobFunded)
    ensures BalanceOf(TransferFrom(L, Dev, Bob, 20, 2).value, Bob) == 20
  {
    BobFundedFollows();
    TransferStep(L, 1, Deployed, Dev, Bob, 20, 2, BobFunded);
    assert Matches(TransferFrom(L, Dev, Bob, 20, 2).value, 2, Bob, BobFunded[Bob]);
  }

  /** 'transfers tokens to Lucy': 10 from the deployer at index 3. */
  lemma TransferToLucy(L: Ledger)
    requires Holds(L, 2, BobFunded)
    ensures TransferFrom(L, Dev, Lucy, 10, 3).Ok?
    ensures Holds(TransferFrom(L, Dev, Lucy, 10, 3).value, 3, LucyFunded)
    ensures BalanceOf(TransferFrom(L, Dev, Lucy, 10, 3).value, Lucy) == 10
  {
    LucyFundedFollows();
    TransferStep(L, 2, BobFunded, Dev, Lucy, 10, 3, LucyFunded);
    assert Matches(TransferFrom(L, Dev, Lucy, 10, 3).value, 3, Lucy, LucyFunded[Lucy]);
  }

  /** The balanceOfAt checks: nothing at index 0, before deployment; the current balances at
      the current index. */
  lemma BalancesAt(L: Ledger)
    requires Holds(L, 3, LucyFunded)
    ensures BalanceOfAt(L, Bob, 0) == 0
    ensures BalanceOfAt(L, Bob, 3) == 20 && BalanceOfAt(L, Lucy, 3) == 10
  {
    BeforeGenesis(L, Bob, 0);
    ReadsAfterClock(L, Bob, 3);
    ReadsAfterClock(L, Lucy, 3);
    assert Matches(L, 3, Bob, LucyFunded[Bob]) && Matches(L, 3, Lucy, LucyFunded[Lucy]);
  }

  /** 'Bob has vote power equal to tokens to start'. */
  lemma BobPowerIsBalance(L: Ledger)
    requires Holds(L, 3, LucyFunded)
    ensures ToPercent(VotePowerAt(L, Bob, 3), L.precision) == 20
  {
    assert Matches(L, 3, Bob, LucyFunded[Bob]);
    assert VotePowerAt(L, Bob, 3) == 200000;
    PercentIs(200000, 20);
  }

  /** 'Bob delegates 50% to lucy': Lucy's vote power is 20 at index 4. */
  lemma BobDelegatesHalfToLucy(L: Ledger)
    requires Holds(L, 3, LucyFunded)
    ensures Delegate(L, Bob, Lucy, 5000, 4).Ok?
    ensures Holds(Delegate(L, Bob, Lucy, 5000, 4).value, 4, HalfToLucy)
    ensures ToPercent(VotePowerAt(Delegate(L, Bob, Lucy, 5000, 4).value, Lucy, 4), Precision) == 20
  {
    HalfToLucyFollows();
    DelegateStep(L, 3, LucyFunded, Bob, Lucy, 5000, 4, HalfToLucy);
    var r := Delegate(L, Bob, Lucy, 5000, 4).value;
    assert Matches(r, 4, Lucy, HalfToLucy[Lucy]);
    assert VotePowerAt(r, Lucy, 4) == 200000;
    PercentIs(200000, 20);
  }

  /** 'Bob delegates 25% to Ed' and 'Bob has 5 vote power left', at index 5. */
  lemma BobDelegatesQuarterToEd(L: Ledger)
    requires Holds(L, 4, HalfToLucy)
    ensures Delegate(L, Bob, Ed, 2500, 5).Ok?
    ensures Holds(Delegate(L, Bob, Ed, 2500, 5).value, 5, QuarterToEd)
    ensures ToPercent(VotePowerAt(Delegate(L, Bob, Ed, 2500, 5).value, Ed, 5), Precision) == 5
    ensures ToPercent(VotePowerAt(Delegate(L, Bob, Ed, 2500, 5).value, Bob, 5), Precision) == 5
  {
    QuarterToEdFollows();
    DelegateStep(L, 4, HalfToLucy, Bob, Ed, 2500, 5, QuarterToEd);
    var r := Delegate(L, Bob, Ed, 2500, 5).value;
    assert Matches(r, 5, Ed, QuarterToEd[Ed]) && Matches(r, 5, Bob, QuarterToEd[Bob]);
    assert VotePowerAt(r, Ed, 5) == 50000 && VotePowerAt(r, Bob, 5) == 50000;
    PercentIs(50000, 5);
  }

  /** 'Bob receives 16 tokens from dev' at index 6, and the vote powers that follow: Lucy 28,
      Bob 9, Ed 9. */
  lemma TopUpBob(L: Ledger)
    requires Holds(L, 5, QuarterToEd)
    ensures TransferFrom(L, Dev, Bob, 16, 6).Ok?
    ensures Holds(TransferFrom(L, Dev, Bob, 16, 6).value, 6, BobTopped)
    ensures BalanceOf(TransferFrom(L, Dev, Bob, 16, 6).value, Bob) == 36
    ensures ToPercent(VotePowerAt(TransferFrom(L, Dev, Bob, 16, 6).value, Lucy, 6), Precision) == 28
    ensures ToPercent(VotePowerAt(TransferFrom(L, Dev, Bob, 16, 6).value, Bob, 6), Precision) == 9
    ensures ToPercent(VotePowerAt(TransferFrom(L, Dev, Bob, 16, 6).value, Ed, 6), Precision) == 9
  {
    BobToppedFollows();
    TransferStep(L, 5, QuarterToEd, Dev, Bob, 16, 6, BobTopped);
    var r := TransferFrom(L, Dev, Bob, 16, 6).value;
    assert Matches(r, 6, Bob, BobTopped[Bob]) && Matches(r, 6, Lucy, BobTopped[Lucy]) && Matches(r, 6, Ed, BobTopped[Ed]);
    assert VotePowerAt(r, Lucy, 6) == 280000 && VotePowerAt(r, Bob, 6) == 90000 && VotePowerAt(r, Ed, 6) == 90000;
    PercentIs(280000, 28);
    PercentIs(90000, 9);
  }

  /** 'Lucy delegates 100% to Ed' at index 7: Lucy is left with the 18 Bob grants her, Ed
      has 19. */
  lemma LucyDelegatesAllToEd(L: Ledger)
    requires Holds(L, 6, BobTopped)
    ensures Delegate(L, Lucy, Ed, 10000, 7).Ok?
    ensures Holds(Delegate(L, Lucy, Ed, 10000, 7).value, 7, LucyToEd)
    ensures ToPercent(VotePowerAt(Delegate(L, Lucy, Ed, 10000, 7).value, Lucy, 7), Precision) == 18
    ensures ToPercent(VotePowerAt(Delegate(L, Lucy, Ed, 10000, 7).value, Ed, 7), Precision) == 19
  {
    LucyToEdFollows();
    DelegateStep(L, 6, BobTopped, Lucy, Ed, 10000, 7, LucyToEd);
    var r := Delegate(L, Lucy, Ed, 10000, 7).value;
    assert Matches(r, 7, Lucy, LucyToEd[Lucy]) && Matches(r, 7, Ed, LucyToEd[Ed]);
    assert VotePowerAt(r, Lucy, 7) == 180000 && VotePowerAt(r, Ed, 7) == 190000;
    PercentIs(180000, 18);
    PercentIs(190000, 19);
  }

  // ---------------------------------------------------------------------------------------
  // The whole run, from deployment on

  /** One mutation of the test: a transfer or a delegation, each at its own index. */
  datatype Step =
    | Send(from: Account, to: Account, amount: nat, idx: nat)
    | Entrust(from: Account, to: Account, bp: nat, idx: nat)

  /** What one step does to a valid ledger. */
  function Perform(L: Ledger, st: Step): (r: Result<Ledger>)
    requires Valid(L)
    ensures r.Ok? ==> Valid(r.value)
  {
    match st
    case Send(from, to, amount, idx) => TransferFrom(L, from, to, amount, idx)
    case Entrust(from, to, bp, idx) => Delegate(L, from, to, bp, idx)
  }

  /** The run of `steps` from L: the ledgers before and after every step, or the first
      refusal. */
  function Play(L: Ledger, steps: seq<Step>): (r: Result<seq<Ledger>>)
    requires Valid(L)
    ensures r.Ok? ==> |r.value| == |steps| + 1 && r.value[0] == L
    ensures r.Ok? ==> forall k :: 0 <= k < |r.value| ==> Valid(r.value[k])
    decreases |steps|
  {
    if |steps| == 0 then Ok([L])
    else
      match Perform(L, steps[0])
      case Err(e) => Err(e)
      case Ok(next) =>
        match Play(next, steps[1..])
        case Err(e) => Err(e)
        case Ok(rest) => Ok([L] + rest)
  }

  /** A run that goes through is the chain of its steps: each entry is the one before it
      after one step. */
  lemma {:induction false} PlayChains(L: Ledger, steps: seq<Step>, k: nat)
    requires Valid(L) && Play(L, steps).Ok? && k < |steps|
    ensures Perform(Play(L, steps).value[k], steps[k]) == Ok(Play(L, steps).value[k + 1])
    decreases |steps|
  {
    var next := Perform(L, steps[0]).value;
    if k > 0 {
      PlayChains(next, steps[1..], k - 1);
    }
  }

  /** The test's mutations in order, one index each, after deployment at index 1. */
  const Script: seq<Step> := [
    Send(Dev, Bob, 20, 2),
    Send(Dev, Lucy, 10, 3),
    Entrust(Bob, Lucy, 5000, 4),
    Entrust(Bob, Ed, 2500, 5),
    Send(Dev, Bob, 16, 6),
    Entrust(Lucy, Ed, 10000, 7)
  ]

  /** The readings the test makes on the ledger after step k of the script. */
  ghost predicate Observed(L: Ledger, k: nat)
  {
    && (k == 1 ==> BalanceOf(L, Bob) == 20)
    && (k == 2 ==> && BalanceOf(L, Lucy) == 10
                   && BalanceOfAt(L, Bob, 0) == 0
                   && BalanceOfAt(L, Bob, 3) == 20 && BalanceOfAt(L, Lucy, 3) == 10
                   && ToPercent(VotePowerAt(L, Bob, 3), Precision) == 20)
    && (k == 3 ==> ToPercent(VotePowerAt(L, Lucy, 4), Precision) == 20)
    && (k == 4 ==> && ToPercent(VotePowerAt(L, Ed, 5), Precision) == 5
                   && ToPercent(VotePowerAt(L, Bob, 5), Precision) == 5)
    && (k == 5 ==> && BalanceOf(L, Bob) == 36
                   && ToPercent(VotePowerAt(L, Lucy, 6), Precision) == 28
                   && ToPercent(VotePowerAt(L, Bob, 6), Precision) == 9
                   && ToPercent(VotePowerAt(L, Ed, 6), Precision) == 9)
    && (k == 6 ==> && ToPercent(VotePowerAt(L, Lucy, 7), Precision) == 18
                   && ToPercent(VotePowerAt(L, Ed, 7), Precision) == 19)
  }

  // The run of the test from each stage on, with the readings the test makes: entry j of the
  // run from stage k is the ledger after step k + j.

  lemma ChainFrom5(L: Ledger)
    requires Holds(L, 6, BobTopped)
    ensures Play(L, Script[5..]).Ok?
    ensures Observed(Play(L, Script[5..]).value[1], 6)
  {
    LucyDelegatesAllToEd(L);
    var next := Delegate(L, Lucy, Ed, 10000, 7).value;
    assert Script[5..][0] == Entrust(Lucy, Ed, 10000, 7);
    assert Script[5..][1..] == Script[6..];
    assert Script[6..] == [];
  }

  lemma ChainFrom4(L: Ledger)
    requires Holds(L, 5, QuarterToEd)
    ensures Play(L, Script[4..]).Ok?
    ensures Observed(Play(L, Script[4..]).value[1], 5)
    ensures Observed(Play(L, Script[4..]).value[2], 6)
  {
    TopUpBob(L);
    var next := TransferFrom(L, Dev, Bob, 16, 6).value;
    assert Script[4..][0] == Send(Dev, Bob, 16, 6);
    assert Script[4..][1..] == Script[5..];
    ChainFrom5(next);
  }

  lemma ChainFrom3(L: Ledger)
    requires Holds(L, 4, HalfToLucy)
    ensures Play(L, Script[3..]).Ok?
    ensures Observed(Play(L, Script[3..]).value[1], 4)
    ensures Observed(Play(L, Script[3..]).value[2], 5)
    ensures Observed(Play(L, Script[3..]).value[3], 6)
  {
    BobDelegatesQuarterToEd(L);
    var next := Delegate(L, Bob, Ed, 2500, 5).value;
    assert Script[3..][0] == Entrust(Bob, Ed, 2500, 5);
    assert Script[3..][1..] == Script[4..];
    ChainFrom4(next);
  }

  lemma ChainFrom2(L: Ledger)
    requires Holds(L, 3, LucyFunded)
    ensures Play(L, Script[2..]).Ok?
    ensures Observed(Play(L, Script[2..]).value[1], 3)
    ensures Observed(Play(L, Script[2..]).value[2], 4)
    ensures Observed(Play(L, Script[2..]).value[3], 5)
    ensures Observed(Play(L, Script[2..]).value[4], 6)
  {
    BobDelegatesHalfToLucy(L);
    var next := Delegate(L, Bob, Lucy, 5000, 4).value;
    assert Script[2..][0] == Entrust(Bob, Lucy, 5000, 4);
    assert Script[2..][1..] == Script[3..];
    ChainFrom3(next);
  }

  lemma ChainFrom1(L: Ledger)
    requires Holds(L, 2, BobFunded)
    ensures Play(L, Script[1..]).Ok?
    ensures Observed(Play(L, Script[1..]).value[1], 2)
    ensures Observed(Play(L, Script[1..]).value[2], 3)
    ensures Observed(Play(L, Script[1..]).value[3], 4)
    ensures Observed(Play(L, Script[1..]).value[4], 5)
    ensures Observed(Play(L, Script[1..]).value[5], 6)
  {
    TransferToLucy(L);
    var next := TransferFrom(L, Dev, Lucy, 10, 3).value;
    BalancesAt(next);
    BobPowerIsBalance(next);
    assert Script[1..][0] == Send(Dev, Lucy, 10, 3);
    assert Script[1..][1..] == Script[2..];
    ChainFrom2(next);
  }

  lemma ChainFrom0(L: Ledger)
    requires Holds(L, 1, Deployed)
    ensures Play(L, Script[0..]).Ok?
    ensures Observed(Play(L, Script[0..]).value[1], 1)
    ensures Observed(Play(L, Script[0..]).value[2], 2)
    ensures Observed(Play(L, Script[0..]).value[3], 3)
    ensures Observed(Play(L, Script[0..]).value[4], 4)
    ensures Observed(Play(L, Script[0..]).value[5], 5)
    ensures Observed(Play(L, Script[0..]).value[6], 6)
  {
    TransferToBob(L);
    var next := TransferFrom(L, Dev, Bob, 20, 2).value;
    assert Script[0..][0] == Send(Dev, Bob, 20, 2);
    assert Script[0..][1..] == Script[1..];
    ChainFrom1(next);
  }

  /** The whole test from deployment: every mutation goes through, and every reading the test
      makes holds of the ledger it is made on (entry k is the ledger after the k-th step). */
  lemma Replay(g: Ledger)
    requires g == Create(Precision, Limit, DevFee, Dev, Genesis)
    ensures Play(g, Script).Ok? && |Play(g, Script).value| == 7 && Play(g, Script).value[0] == g
    ensures BalanceOf(Play(g, Script).value[0], Dev) == 1000
    ensures BalanceOf(Play(g, Script).value[1], Bob) == 20
    ensures BalanceOf(Play(g, Script).value[2], Lucy) == 10
    ensures BalanceOfAt(Play(g, Script).value[2], Bob, 0) == 0
    ensures BalanceOfAt(Play(g, Script).value[2], Bob, 3) == 20 && BalanceOfAt(Play(g, Script).value[2], Lucy, 3) == 10
    ensures ToPercent(VotePowerAt(Play(g, Script).value[2], Bob, 3), Precision) == 20
    ensures ToPercent(VotePowerAt(Play(g, Script).value[3], Lucy, 4), Precision) == 20
    ensures ToPercent(VotePowerAt(Play(g, Script).value[4], Ed, 5), Precision) == 5
    ensures ToPercent(VotePowerAt(Play(g, Script).value[4], Bob, 5), Precision) == 5
    ensures BalanceOf(Play(g, Script).value[5], Bob) == 36
    ensures ToPercent(VotePowerAt(Play(g, Script).value[5], Lucy, 6), Precision) == 28
    ensures ToPercent(VotePowerAt(Play(g, Script).value[5], Bob, 6), Precision) == 9
    ensures ToPercent(VotePowerAt(Play(g, Script).value[5], Ed, 6), Precision) == 9
    ensures ToPercent(VotePowerAt(Play(g, Script).value[6], Lucy, 7), Precision) == 18
    ensures ToPercent(VotePowerAt(Play(g, Script).value[6], Ed, 7), Precision) == 19
  {
    Deployment();
    ChainFrom0(g);
    var run := Play(g, Script).value;
    assert Observed(run[1], 1) && Observed(run[2], 2) && Observed(run[3], 3);
    assert Observed(run[4], 4) && Observed(run[5], 5) && Observed(run[6], 6);
    assert Script[0..] == Script;
  }
}
