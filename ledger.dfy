/**
 * An in-memory double-entry ledger kernel: accounts with per-asset balances,
 * journals of debit/credit postings, and a book that registers accounts and
 * commits balanced journals.
 *
 * Amounts are `Decimal`s in tryout.py; here they are `int`s of one
 * fixed scale. They are only added, subtracted and compared, and the model
 * assumes every amount and running total fits the decimal context's precision.
 */
module Ledger {

  datatype Option<T> = None | Some(value: T)

  /** Why an operation was rejected (each one is an `assert` or a `KeyError` in tryout.py). */
  datatype Error =
    | InvalidType(typeCode: int)            // account type outside the enumeration
    | DuplicateCode(code: Option<string>)   // account code already registered
    | UnknownAccount(code: Option<string>)  // lookup of an unregistered code
    | UnknownAsset(asset: string)           // posting to an asset never enabled
    | ForeignRecord                         // a record handed to an account it does not target
    | Unbalanced                            // debit and credit totals differ for some asset

  datatype Outcome = Pass | Fail(error: Error)

  datatype Result<T> = Success(value: T) | Failure(error: Error)

  /** The currencies enabled on an account registered without a list of its own. */
  const DEFAULT_CURRENCIES: seq<string> := ["EUR"]

  /** The closed enumeration of account types. */
  datatype AccountType = Asset | Liability | Equity | Income | Expense

  /** The integer constant tryout.py uses for each type. */
  function TypeCode(t: AccountType): (n: int)
    ensures 0 <= n < 5
  {
    match t
    case Asset => 0
    case Liability => 1
    case Equity => 2
    case Income => 3
    case Expense => 4
  }

  /** The type with a given integer constant, if there is one. */
  function TypeFromCode(n: int): (r: Option<AccountType>)
    ensures r.Some? <==> 0 <= n < 5
    ensures r.Some? ==> TypeCode(r.value) == n
  {
    if n == 0 then Some(Asset)
    else if n == 1 then Some(Liability)
    else if n == 2 then Some(Equity)
    else if n == 3 then Some(Income)
    else if n == 4 then Some(Expense)
    else None
  }

  /** ASSET and EXPENSE accounts have a debit normal balance: a debit increases them. */
  predicate DebitNormal(t: AccountType) {
    t == Asset || t == Expense
  }

  /** One posting: (account, debit, credit, asset, description). */
  datatype Record = Record(account: Account, debit: int, credit: int, asset: string, description: string)

  /** The accounts a sequence of records targets. */
  function Touched(recs: seq<Record>): set<Account> {
    set r | r in recs :: r.account
  }

  // ---------------------------------------------------------------------------
  // Balances of one account
  // ---------------------------------------------------------------------------

  /** The change a posting makes to its asset's balance on an account of type `t`. */
  function Delta(t: AccountType, r: Record): int {
    if DebitNormal(t) then r.debit - r.credit else r.credit - r.debit
  }

  /**
   * The balance map after `process_record(r)` on an account of type `t`. When the asset
   * is not enabled the program raises before touching the balance, so it stays as it is.
   */
  function Post(t: AccountType, bal: map<string, int>, r: Record): map<string, int> {
    if r.asset in bal then bal[r.asset := bal[r.asset] + Delta(t, r)] else bal
  }

  /** The normal-balance sign rule, and that a posting touches only its own asset. */
  lemma SignRule(t: AccountType, bal: map<string, int>, r: Record)
    requires r.asset in bal
    ensures Post(t, bal, r).Keys == bal.Keys
    ensures DebitNormal(t) ==> Post(t, bal, r)[r.asset] == bal[r.asset] + r.debit - r.credit
    ensures !DebitNormal(t) ==> Post(t, bal, r)[r.asset] == bal[r.asset] + r.credit - r.debit
    ensures forall c :: c in bal && c != r.asset ==> Post(t, bal, r)[c] == bal[c]
  {
  }

  /** The balance map after enabling each currency of `cs` in turn. */
  function EnableAll(bal: map<string, int>, cs: seq<string>): (b: map<string, int>)
    ensures b.Keys == bal.Keys + set c | c in cs
    ensures forall c :: c in cs ==> b[c] == 0
    ensures forall c :: c in bal && c !in cs ==> b[c] == bal[c]
    decreases |cs|
  {
    if cs == [] then bal else EnableAll(bal, cs[..|cs| - 1])[cs[|cs| - 1] := 0]
  }

  /** `currencies or DEFAULT_CURRENCIES`: an omitted or empty list means the default. */
  function Effective(currencies: seq<string>): (cs: seq<string>)
    ensures cs != []
    ensures currencies != [] ==> cs == currencies
    ensures currencies == [] ==> cs == DEFAULT_CURRENCIES
  {
    if currencies == [] then DEFAULT_CURRENCIES else currencies
  }

  /** The balance map of `acct` after the postings of `recs` addressed to it, in order. */
  function Fold(acct: Account, bal: map<string, int>, recs: seq<Record>): (b: map<string, int>)
    ensures b.Keys == bal.Keys
    decreases |recs|
  {
    if recs == [] then bal
    else
      var prev := Fold(acct, bal, recs[..|recs| - 1]);
      var last := recs[|recs| - 1];
      if last.account == acct then Post(acct.kind, prev, last) else prev
  }

  /** The postings of `recs` addressed to `acct`, in order. */
  function Filter(acct: Account, recs: seq<Record>): seq<Record>
    decreases |recs|
  {
    if recs == [] then []
    else
      var prev := Filter(acct, recs[..|recs| - 1]);
      var last := recs[|recs| - 1];
      if last.account == acct then prev + [last] else prev
  }

  /** Signed sum of the postings to `acct` in asset `a`. */
  function SignedSum(acct: Account, recs: seq<Record>, a: string): int
    decreases |recs|
  {
    if recs == [] then 0
    else
      var last := recs[|recs| - 1];
      SignedSum(acct, recs[..|recs| - 1], a)
        + (if last.account == acct && last.asset == a then Delta(acct.kind, last) else 0)
  }

  /** One more record: the fold and the log of `acct` grow by it exactly when it targets `acct`. */
  lemma FoldStep(acct: Account, bal: map<string, int>, recs: seq<Record>, i: nat)
    requires i < |recs|
    ensures Fold(acct, bal, recs[..i + 1])
         == if recs[i].account == acct then Post(acct.kind, Fold(acct, bal, recs[..i]), recs[i]) else Fold(acct, bal, recs[..i])
    ensures Filter(acct, recs[..i + 1])
         == if recs[i].account == acct then Filter(acct, recs[..i]) + [recs[i]] else Filter(acct, recs[..i])
  {
    assert recs[..i + 1][..i] == recs[..i];
  }

  /** Postings addressed to other accounts leave `acct` unchanged. */
  lemma {:induction false} FoldUntouched(acct: Account, bal: map<string, int>, recs: seq<Record>)
    requires acct !in Touched(recs)
    ensures Fold(acct, bal, recs) == bal
    decreases |recs|
  {
    if recs != [] {
      assert recs[|recs| - 1] in recs;
      FoldUntouched(acct, bal, recs[..|recs| - 1]);
    }
  }

  /** Applying two batches in turn is applying their concatenation. */
  lemma {:induction false} FoldConcat(acct: Account, bal: map<string, int>, xs: seq<Record>, ys: seq<Record>)
    ensures Fold(acct, Fold(acct, bal, xs), ys) == Fold(acct, bal, xs + ys)
    decreases |ys|
  {
    if ys == [] {
      assert xs + ys == xs;
    } else {
      assert (xs + ys)[..|xs + ys| - 1] == xs + ys[..|ys| - 1];
      FoldConcat(acct, bal, xs, ys[..|ys| - 1]);
    }
  }

  /** Replay: a balance is its starting value plus the signed sum of its postings. */
  lemma {:induction false} FoldIsSignedSum(acct: Account, bal: map<string, int>, recs: seq<Record>, a: string)
    requires a in bal
    ensures Fold(acct, bal, recs)[a] == bal[a] + SignedSum(acct, recs, a)
    decreases |recs|
  {
    if recs != [] {
      FoldIsSignedSum(acct, bal, recs[..|recs| - 1], a);
    }
  }

  // ---------------------------------------------------------------------------
  // Per-asset totals of a journal
  // ---------------------------------------------------------------------------

  /** The assets a sequence of records mentions. */
  function Assets(recs: seq<Record>): set<string> {
    set r | r in recs :: r.asset
  }

  function DebitTotal(recs: seq<Record>, a: string): int
    decreases |recs|
  {
    if recs == [] then 0
    else
      var last := recs[|recs| - 1];
      DebitTotal(recs[..|recs| - 1], a) + (if last.asset == a then last.debit else 0)
  }

  function CreditTotal(recs: seq<Record>, a: string): int
    decreases |recs|
  {
    if recs == [] then 0
    else
      var last := recs[|recs| - 1];
      CreditTotal(recs[..|recs| - 1], a) + (if last.asset == a then last.credit else 0)
  }

  /** Net debit (debit minus credit) of the postings in asset `a`. */
  function Net(recs: seq<Record>, a: string): int
    decreases |recs|
  {
    if recs == [] then 0
    else
      var last := recs[|recs| - 1];
      Net(recs[..|recs| - 1], a) + (if last.asset == a then last.debit - last.credit else 0)
  }

  /** For every asset that appears, the debits sum to the credits. */
  predicate Balanced(recs: seq<Record>) {
    forall a :: a in Assets(recs) ==> DebitTotal(recs, a) == CreditTotal(recs, a)
  }

  lemma {:induction false} NetIsDifference(recs: seq<Record>, a: string)
    ensures Net(recs, a) == DebitTotal(recs, a) - CreditTotal(recs, a)
    decreases |recs|
  {
    if recs != [] {
      NetIsDifference(recs[..|recs| - 1], a);
    }
  }

  /** An asset that is never mentioned has no postings. */
  lemma {:induction false} TotalsOutside(recs: seq<Record>, a: string)
    requires a !in Assets(recs)
    ensures DebitTotal(recs, a) == 0 && CreditTotal(recs, a) == 0 && Net(recs, a) == 0
    decreases |recs|
  {
    if recs != [] {
      assert recs[|recs| - 1] in recs;
      assert Assets(recs[..|recs| - 1]) <= Assets(recs) by {
        forall r | r in recs[..|recs| - 1] ensures r in recs { }
      }
      TotalsOutside(recs[..|recs| - 1], a);
    }
  }

  /** Extending a prefix of `recs` by one posting adds its asset and its amounts. */
  lemma TotalsStep(recs: seq<Record>, i: nat)
    requires i < |recs|
    ensures Assets(recs[..i + 1]) == Assets(recs[..i]) + {recs[i].asset}
    ensures forall a :: DebitTotal(recs[..i + 1], a) == DebitTotal(recs[..i], a) + (if recs[i].asset == a then recs[i].debit else 0)
    ensures forall a :: CreditTotal(recs[..i + 1], a) == CreditTotal(recs[..i], a) + (if recs[i].asset == a then recs[i].credit else 0)
  {
    assert recs[..i + 1][..i] == recs[..i];
    assert recs[..i + 1] == recs[..i] + [recs[i]];
  }

  /** A balanced journal moves no net value in any asset. */
  lemma BalancedHasZeroNet(recs: seq<Record>, a: string)
    requires Balanced(recs)
    ensures Net(recs, a) == 0
  {
    NetIsDifference(recs, a);
    if a !in Assets(recs) {
      TotalsOutside(recs, a);
    }
  }

  /**
   * The validation pass of `add_journal`: accumulate debit and credit totals per asset
   * (both maps seeded with 0 on first sight of an asset), then compare them asset by asset.
   */
  method ValidateTotals(recs: seq<Record>) returns (ok: bool)
    ensures ok <==> Balanced(recs)
  {
    var deb: map<string, int> := map[];
    var cred: map<string, int> := map[];
    var i := 0;
    while i < |recs|
      invariant 0 <= i <= |recs|
      invariant deb.Keys == Assets(recs[..i]) && cred.Keys == deb.Keys
      invariant forall a :: a in deb ==> deb[a] == DebitTotal(recs[..i], a) && cred[a] == CreditTotal(recs[..i], a)
    {
      var r := recs[i];
      if r.asset !in deb { deb := deb[r.asset := 0]; }
      if r.asset !in cred { cred := cred[r.asset := 0]; }
      deb := deb[r.asset := deb[r.asset] + r.debit];
      cred := cred[r.asset := cred[r.asset] + r.credit];
      TotalsStep(recs, i);
      if r.asset !in Assets(recs[..i]) {
        TotalsOutside(recs[..i], r.asset);
      }
      i := i + 1;
    }
    assert recs[..i] == recs;
    var pending := deb.Keys;
    while pending != {}
      invariant pending <= deb.Keys
      invariant forall a :: a in deb && a !in pending ==> deb[a] == cred[a]
      decreases pending
    {
      var a :| a in pending;
      if deb[a] != cred[a] {
        return false;
      }
      pending := pending - {a};
    }
    return true;
  }

  // ---------------------------------------------------------------------------
  // The accounting equation over a list of accounts
  // ---------------------------------------------------------------------------

  /** What one balance contributes to (debit-normal side) minus (credit-normal side). */
  function Standing(t: AccountType, bal: map<string, int>, a: string): int {
    if a !in bal then 0 else if DebitNormal(t) then bal[a] else -bal[a]
  }

  /** Sum of the balances in `a` of the accounts on one side (debit-normal or not). */
  function SideSum(accts: seq<Account>, bals: seq<map<string, int>>, a: string, debitSide: bool): int
    requires |accts| == |bals|
    decreases |accts|
  {
    if accts == [] then 0
    else
      var n := |accts| - 1;
      SideSum(accts[..n], bals[..n], a, debitSide)
        + (if DebitNormal(accts[n].kind) == debitSide && a in bals[n] then bals[n][a] else 0)
  }

  /** Debit-normal balances minus credit-normal balances in asset `a`. */
  function Position(accts: seq<Account>, bals: seq<map<string, int>>, a: string): int
    requires |accts| == |bals|
    decreases |accts|
  {
    if accts == [] then 0
    else
      var n := |accts| - 1;
      Position(accts[..n], bals[..n], a) + Standing(accts[n].kind, bals[n], a)
  }

  lemma {:induction false} PositionIsSideDifference(accts: seq<Account>, bals: seq<map<string, int>>, a: string)
    requires |accts| == |bals|
    ensures Position(accts, bals, a) == SideSum(accts, bals, a, true) - SideSum(accts, bals, a, false)
    decreases |accts|
  {
    if accts != [] {
      var n := |accts| - 1;
      PositionIsSideDifference(accts[..n], bals[..n], a);
    }
  }

  /** Replacing one account's balance map changes the position by the change in its standing. */
  lemma {:induction false} PositionUpdate(accts: seq<Account>, bals: seq<map<string, int>>, j: nat, nb: map<string, int>, a: string)
    requires |accts| == |bals| && j < |accts|
    ensures Position(accts, bals[j := nb], a)
         == Position(accts, bals, a) - Standing(accts[j].kind, bals[j], a) + Standing(accts[j].kind, nb, a)
    decreases |accts|
  {
    var n := |accts| - 1;
    if j < n {
      assert bals[j := nb][..n] == bals[..n][j := nb];
      PositionUpdate(accts[..n], bals[..n], j, nb, a);
    } else {
      assert bals[j := nb][..n] == bals[..n];
    }
  }

  predicate Distinct(accts: seq<Account>) {
    forall i, j :: 0 <= i < j < |accts| ==> accts[i] != accts[j]
  }

  /** Every account's balance map after applying `recs`. */
  function Folded(accts: seq<Account>, bals: seq<map<string, int>>, recs: seq<Record>): (fs: seq<map<string, int>>)
    requires |accts| == |bals|
    ensures |fs| == |accts|
    ensures forall i :: 0 <= i < |accts| ==> fs[i] == Fold(accts[i], bals[i], recs)
  {
    seq(|accts|, i requires 0 <= i < |accts| => Fold(accts[i], bals[i], recs))
  }

  /**
   * Applying postings that all target listed accounts, in assets enabled on them,
   * moves the position in `a` by exactly the journal's net debit in `a`.
   */
  lemma {:induction false} FoldedPosition(accts: seq<Account>, bals: seq<map<string, int>>, recs: seq<Record>, a: string)
    requires |accts| == |bals| && Distinct(accts)
    requires Touched(recs) <= set x | x in accts
    requires forall i, k :: 0 <= i < |accts| && 0 <= k < |recs| && recs[k].account == accts[i] ==> recs[k].asset in bals[i]
    ensures Position(accts, Folded(accts, bals, recs), a) == Position(accts, bals, a) + Net(recs, a)
    decreases |recs|
  {
    if recs == [] {
      assert Folded(accts, bals, recs) == bals;
    } else {
      var m := |recs| - 1;
      var init, last := recs[..m], recs[m];
      assert Touched(init) <= Touched(recs) by {
        forall r | r in init ensures r in recs { }
      }
      FoldedPosition(accts, bals, init, a);
      assert last in recs;
      assert last.account in Touched(recs);
      assert last.account in accts;
      var j :| 0 <= j < |accts| && accts[j] == last.account;
      var before := Folded(accts, bals, init);
      var nb := Post(accts[j].kind, before[j], last);
      var after := Folded(accts, bals, recs);
      forall i | 0 <= i < |accts| ensures after[i] == before[j := nb][i] {
        assert i != j ==> accts[i] != last.account;
      }
      assert after == before[j := nb];
      PositionUpdate(accts, before, j, nb, a);
      assert last.asset in before[j];
    }
  }

  /** A balanced journal applied to listed accounts in enabled assets leaves every position as it was. */
  lemma CommitPosition(accts: seq<Account>, bals0: seq<map<string, int>>, bals1: seq<map<string, int>>, recs: seq<Record>, a: string)
    requires |accts| == |bals0| == |bals1| && Distinct(accts)
    requires Balanced(recs)
    requires Touched(recs) <= set x | x in accts
    requires forall i, k :: 0 <= i < |accts| && 0 <= k < |recs| && recs[k].account == accts[i] ==> recs[k].asset in bals0[i]
    requires forall i :: 0 <= i < |accts| ==> bals1[i] == Fold(accts[i], bals0[i], recs)
    ensures Position(accts, bals1, a) == Position(accts, bals0, a)
  {
    assert bals1 == Folded(accts, bals0, recs);
    FoldedPosition(accts, bals0, recs, a);
    BalancedHasZeroNet(recs, a);
  }

  // ---------------------------------------------------------------------------
  // Replay over a list of accounts
  // ---------------------------------------------------------------------------

  /** Every posting of `recs` targets one of `accts`. */
  predicate Covers(accts: seq<Account>, recs: seq<Record>) {
    forall r :: r in recs ==> r.account in accts
  }

  /** Each balance map is the corresponding opening map with the postings of `recs` replayed over it. */
  predicate Replayed(accts: seq<Account>, bals: seq<map<string, int>>, opening: seq<map<string, int>>, recs: seq<Record>) {
    |accts| == |bals| == |opening| &&
    forall i :: 0 <= i < |accts| ==> bals[i] == Fold(accts[i], opening[i], recs)
  }

  /** Registering an account nothing has posted to keeps the replay: its opening map is its balance. */
  lemma ReplayedRegister(accts: seq<Account>, bals: seq<map<string, int>>, opening: seq<map<string, int>>,
                         recs: seq<Record>, acct: Account, b: map<string, int>)
    requires Replayed(accts, bals, opening, recs)
    requires Covers(accts, recs) && acct !in accts
    ensures Replayed(accts + [acct], bals + [b], opening + [b], recs)
  {
    assert acct !in Touched(recs);
    FoldUntouched(acct, b, recs);
  }

  /** Covering is kept by adding accounts. */
  lemma CoversGrow(accts: seq<Account>, recs: seq<Record>, acct: Account)
    requires Covers(accts, recs)
    ensures Covers(accts + [acct], recs)
  {
  }

  /** Committing `more` keeps the replay over the longer history. */
  lemma ReplayedCommit(accts: seq<Account>, bals: seq<map<string, int>>, opening: seq<map<string, int>>,
                       recs: seq<Record>, more: seq<Record>, bals1: seq<map<string, int>>)
    requires Replayed(accts, bals, opening, recs) && |bals1| == |accts|
    requires forall i :: 0 <= i < |accts| ==> bals1[i] == Fold(accts[i], bals[i], more)
    ensures Replayed(accts, bals1, opening, recs + more)
  {
    forall i | 0 <= i < |accts| ensures bals1[i] == Fold(accts[i], opening[i], recs + more) {
      FoldConcat(accts[i], opening[i], recs, more);
    }
  }

  // ---------------------------------------------------------------------------
  // The entities
  // ---------------------------------------------------------------------------

  /** A typed ledger node: per-asset balances and an append-only log of applied postings. */
  class Account {
    const name: string
    const kind: AccountType
    const code: Option<string>
    var balance: map<string, int>
    var records: seq<Record>

    constructor (name: string, kind: AccountType := Asset, code: Option<string> := None)
      ensures this.name == name && this.kind == kind && this.code == code
      ensures balance == map[] && records == []
    {
      this.name := name;
      this.kind := kind;
      this.code := code;
      balance := map[];
      records := [];
    }

    /** Sets the balance of `currency` to zero, whether or not it was enabled before. */
    method EnableCurrency(currency: string)
      modifies this
      ensures balance == old(balance)[currency := 0]
      ensures records == old(records)
    {
      balance := balance[currency := 0];
    }

    /**
     * Applies one posting addressed to this account. The record is logged before the
     * balance is looked up, so a posting in a disabled asset is logged and then rejected.
     */
    method ProcessRecord(r: Record) returns (o: Outcome)
      modifies this
      ensures r.account != this ==> o == Fail(ForeignRecord) && balance == old(balance) && records == old(records)
      ensures r.account == this ==> records == old(records) + [r] && balance == Post(kind, old(balance), r)
      ensures r.account == this ==> o == if r.asset in old(balance) then Pass else Fail(UnknownAsset(r.asset))
    {
      if r.account != this {
        return Fail(ForeignRecord);
      }
      records := records + [r];
      if r.asset !in balance {
        return Fail(UnknownAsset(r.asset));
      }
      if DebitNormal(kind) {
        balance := balance[r.asset := balance[r.asset] + (r.debit - r.credit)];
      } else {
        balance := balance[r.asset := balance[r.asset] - (r.debit - r.credit)];
      }
      o := Pass;
    }
  }

  /** `Account(name, type_, code)` with the type given by its integer constant. */
  method NewAccount(name: string, typeCode: int := 0, code: Option<string> := None) returns (r: Result<Account>)
    ensures r.Failure? <==> TypeFromCode(typeCode).None?
    ensures r.Failure? ==> r.error == InvalidType(typeCode)
    ensures r.Success? ==> fresh(r.value) && r.value.kind == TypeFromCode(typeCode).value
    ensures r.Success? ==> r.value.name == name && r.value.code == code
    ensures r.Success? ==> r.value.balance == map[] && r.value.records == []
  {
    var t := TypeFromCode(typeCode);
    if t.None? {
      return Failure(InvalidType(typeCode));
    }
    var acct := new Account(name, t.value, code);
    r := Success(acct);
  }

  /** An ordered, append-only list of postings forming one transaction. */
  class Journal {
    var records: seq<Record>

    constructor ()
      ensures records == []
    {
      records := [];
    }

    /** Appends one posting; nothing is validated here. */
    method AddRecord(account: Account, debit: int, credit: int, asset: string, description: string := "")
      modifies this
      ensures records == old(records) + [Record(account, debit, credit, asset, description)]
    {
      records := records + [Record(account, debit, credit, asset, description)];
    }

    /** The records in insertion order (`__iter__`). */
    method Iterate() returns (s: seq<Record>)
      ensures s == records
    {
      s := records;
    }
  }

  /** The current balance maps of a list of accounts. */
  ghost function BalancesOf(accts: seq<Account>): (bs: seq<map<string, int>>)
    reads accts
    ensures |bs| == |accts|
    ensures forall i :: 0 <= i < |accts| ==> bs[i] == accts[i].balance
    decreases |accts|
  {
    if accts == [] then [] else BalancesOf(accts[..|accts| - 1]) + [accts[|accts| - 1].balance]
  }

  /** The committed postings of a history of journals, oldest first. */
  function Flatten(history: seq<seq<Record>>): seq<Record>
    decreases |history|
  {
    if history == [] then [] else Flatten(history[..|history| - 1]) + history[|history| - 1]
  }

  /** Index of the first record whose asset is not enabled on its account, or `|recs|`. */
  ghost function FirstDisabled(recs: seq<Record>): (k: nat)
    reads Touched(recs)
    ensures k <= |recs|
    ensures forall j :: 0 <= j < k ==> recs[j].asset in recs[j].account.balance
    ensures k < |recs| ==> recs[k].asset !in recs[k].account.balance
    decreases |recs|
  {
    if recs == [] then 0
    else if recs[0].asset !in recs[0].account.balance then 0
    else
      assert Touched(recs[1..]) <= Touched(recs) by {
        forall r | r in recs[1..] ensures r in recs { }
      }
      1 + FirstDisabled(recs[1..])
  }

  /**
   * Index of the first record whose asset is missing from its account's map in `bal0`, or `|recs|`.
   * It is `FirstDisabled` over a fixed snapshot: the invariant of `ApplyFrom`'s loop speaks about
   * the balances before the pass, which the loop itself keeps changing.
   */
  function FirstMissing(recs: seq<Record>, bal0: map<Account, map<string, int>>): (k: nat)
    ensures k <= |recs|
    ensures forall j :: 0 <= j < k ==> recs[j].account in bal0 && recs[j].asset in bal0[recs[j].account]
    ensures k < |recs| ==> !(recs[k].account in bal0 && recs[k].asset in bal0[recs[k].account])
    decreases |recs|
  {
    if recs == [] then 0
    else if !(recs[0].account in bal0 && recs[0].asset in bal0[recs[0].account]) then 0
    else 1 + FirstMissing(recs[1..], bal0)
  }

  /** Over a snapshot of the touched balances, the first missing asset is the first disabled one. */
  lemma FirstMissingIsFirstDisabled(recs: seq<Record>, bal0: map<Account, map<string, int>>)
    requires forall acct :: acct in Touched(recs) ==> acct in bal0 && bal0[acct] == acct.balance
    ensures FirstMissing(recs, bal0) == FirstDisabled(recs)
  {
  }

  /** No two accounts of the list share a code. */
  predicate UniqueCodes(accts: seq<Account>) {
    forall i, j :: 0 <= i < j < |accts| ==> accts[i].code != accts[j].code
  }

  /** The code index of a list of accounts registered in order. */
  function IndexOf(accts: seq<Account>): map<Option<string>, Account>
    decreases |accts|
  {
    if accts == [] then map[] else IndexOf(accts[..|accts| - 1])[accts[|accts| - 1].code := accts[|accts| - 1]]
  }

  /** The index maps each code to a listed account carrying that code. */
  lemma {:induction false} IndexOfSound(accts: seq<Account>, c: Option<string>)
    requires c in IndexOf(accts)
    ensures IndexOf(accts)[c] in accts && IndexOf(accts)[c].code == c
    decreases |accts|
  {
    var n := |accts| - 1;
    if accts[n].code != c {
      IndexOfSound(accts[..n], c);
    }
  }

  /** With unique codes, every listed account is indexed under its own code. */
  lemma {:induction false} IndexOfComplete(accts: seq<Account>, i: nat)
    requires UniqueCodes(accts) && i < |accts|
    ensures accts[i].code in IndexOf(accts) && IndexOf(accts)[accts[i].code] == accts[i]
    decreases |accts|
  {
    var n := |accts| - 1;
    if i < n {
      IndexOfComplete(accts[..n], i);
    }
  }

  /** How `add_journal`'s commit pass ends: on the first record whose asset is not enabled, or `Pass`. */
  ghost function CommitOutcome(recs: seq<Record>): Outcome
    reads Touched(recs)
  {
    var k := FirstDisabled(recs);
    if k < |recs| then Fail(UnknownAsset(recs[k].asset)) else Pass
  }

  /** How many records the commit pass hands to their accounts (the failing one included). */
  ghost function Reached(recs: seq<Record>): (n: nat)
    reads Touched(recs)
    ensures n <= |recs|
  {
    var k := FirstDisabled(recs);
    if k < |recs| then k + 1 else k
  }

  /**
   * The state of the accounts after the first `i` records of `recs`, starting from the
   * balance maps `bal0` and the logs `log0`.
   */
  ghost predicate AppliedUpTo(recs: seq<Record>, i: nat, bal0: map<Account, map<string, int>>, log0: map<Account, seq<Record>>)
    requires i <= |recs|
    reads Touched(recs)
  {
    forall acct :: acct in Touched(recs) ==>
      acct in bal0 && acct in log0 &&
      acct.balance == Fold(acct, bal0[acct], recs[..i]) &&
      acct.records == log0[acct] + Filter(acct, recs[..i])
  }

  /** One step of the commit pass: `recs[i].account.process_record(recs[i])`. */
  method ApplyOne(recs: seq<Record>, i: nat, ghost bal0: map<Account, map<string, int>>, ghost log0: map<Account, seq<Record>>)
    returns (o: Outcome)
    requires i < |recs| && AppliedUpTo(recs, i, bal0, log0)
    modifies Touched(recs)
    ensures AppliedUpTo(recs, i + 1, bal0, log0)
    ensures o == if recs[i].asset in bal0[recs[i].account] then Pass else Fail(UnknownAsset(recs[i].asset))
  {
    var r := recs[i];
    assert r in recs;
    assert r.account.balance.Keys == bal0[r.account].Keys;
    o := r.account.ProcessRecord(r);
    forall acct | acct in Touched(recs)
      ensures acct.balance == Fold(acct, bal0[acct], recs[..i + 1])
      ensures acct.records == log0[acct] + Filter(acct, recs[..i + 1])
    {
      FoldStep(acct, bal0[acct], recs, i);
    }
  }

  /**
   * Across a commit pass over `recs`: every account it touches holds its earlier balance
   * map with the reached records folded in, and has logged exactly those records.
   */
  twostate predicate Applied(recs: seq<Record>)
    reads Touched(recs)
  {
    forall acct :: acct in Touched(recs) ==>
      acct.balance == Fold(acct, old(acct.balance), recs[..old(Reached(recs))]) &&
      acct.records == old(acct.records) + Filter(acct, recs[..old(Reached(recs))])
  }

  /**
   * The commit loop over `recs`, started from the balance maps `bal0` and logs `log0`:
   * it stops after the first record whose asset `bal0` does not hold.
   */
  method ApplyFrom(recs: seq<Record>, ghost bal0: map<Account, map<string, int>>, ghost log0: map<Account, seq<Record>>)
    returns (o: Outcome)
    requires AppliedUpTo(recs, 0, bal0, log0)
    modifies Touched(recs)
    ensures var k := FirstMissing(recs, bal0);
      o == (if k < |recs| then Fail(UnknownAsset(recs[k].asset)) else Pass) &&
      AppliedUpTo(recs, if k < |recs| then k + 1 else k, bal0, log0)
  {
    ghost var k := FirstMissing(recs, bal0);
    var i := 0;
    while i < |recs|
      invariant 0 <= i <= |recs| && i <= k
      invariant AppliedUpTo(recs, i, bal0, log0)
    {
      var res := ApplyOne(recs, i, bal0, log0);
      if res.Fail? {
        assert i == k;
        return res;
      }
      assert i < k;
      i := i + 1;
    }
    o := Pass;
  }

  /**
   * The commit pass: hands every record, in order, to the account it targets, and
   * stops at the first one whose asset is not enabled there (that record is logged too).
   */
  method ApplyRecords(recs: seq<Record>) returns (o: Outcome)
    modifies Touched(recs)
    ensures o == old(CommitOutcome(recs))
    ensures Applied(recs)
  {
    ghost var bal0 := map acct | acct in Touched(recs) :: acct.balance;
    ghost var log0 := map acct | acct in Touched(recs) :: acct.records;
    FirstMissingIsFirstDisabled(recs, bal0);
    assert recs[..0] == [];
    o := ApplyFrom(recs, bal0, log0);
  }

  /** The currency loop of `add_account`: enables each currency of `currencies` on `account`, in order. */
  method EnableCurrencies(account: Account, currencies: seq<string>)
    modifies account
    ensures account.balance == EnableAll(old(account.balance), currencies)
    ensures account.records == old(account.records)
  {
    var i := 0;
    while i < |currencies|
      invariant 0 <= i <= |currencies|
      invariant account.balance == EnableAll(old(account.balance), currencies[..i])
      invariant account.records == old(account.records)
    {
      account.EnableCurrency(currencies[i]);
      assert currencies[..i + 1][..i] == currencies[..i];
      i := i + 1;
    }
    assert currencies[..i] == currencies;
  }

  /** The registry: accounts indexed by unique code, and the committed journals. */
  class Book {
    var accounts: seq<Account>
    var transactions: seq<Journal>
    var index: map<Option<string>, Account>
    /** The contents of each committed journal at the moment it was committed. */
    ghost var history: seq<seq<Record>>
    /** Each account's balance map right after it was registered. */
    ghost var opening: seq<map<string, int>>

    /** The index is built from the registered accounts, whose codes are unique. */
    ghost predicate Valid()
      reads this
    {
      |history| == |transactions| && |opening| == |accounts| &&
      index == IndexOf(accounts) && UniqueCodes(accounts)
    }

    /** Debit-normal minus credit-normal balances in `a`, over the registered accounts. */
    ghost function Standings(a: string): int
      reads this, accounts
    {
      Position(accounts, BalancesOf(accounts), a)
    }

    /** For every asset, ASSET + EXPENSE balances equal LIABILITY + EQUITY + INCOME balances. */
    ghost predicate AccountingEquation()
      reads this, accounts
    {
      forall a :: SideSum(accounts, BalancesOf(accounts), a, true) == SideSum(accounts, BalancesOf(accounts), a, false)
    }

    /** Every committed posting targets a registered account. */
    ghost predicate Closed()
      reads this
    {
      Covers(accounts, Flatten(history))
    }

    /**
     * Every registered account's balance map is its opening map with all committed
     * postings replayed over it in order.
     */
    ghost predicate Replays()
      reads this, accounts
    {
      Replayed(accounts, BalancesOf(accounts), opening, Flatten(history))
    }

    /** Every posting of `recs` targets a registered account. */
    ghost predicate AllRegistered(recs: seq<Record>)
      reads this
    {
      Covers(accounts, recs)
    }

    constructor ()
      ensures Valid() && Closed() && Replays()
      ensures accounts == [] && transactions == [] && index == map[] && history == []
    {
      accounts := [];
      transactions := [];
      index := map[];
      history := [];
      opening := [];
    }

    lemma DistinctAccounts()
      requires Valid()
      ensures Distinct(accounts)
    {
    }

    /** Registered accounts have their code in the index; `account` therefore is not registered. */
    lemma NotRegistered(account: Account)
      requires Valid() && account.code !in index
      ensures account !in accounts
    {
      if account in accounts {
        var i :| 0 <= i < |accounts| && accounts[i] == account;
        IndexOfComplete(accounts, i);
      }
    }

    /** The accounting equation is the position being zero in every asset. */
    lemma EquationIsZeroStanding()
      requires Valid()
      ensures AccountingEquation() <==> forall a :: Standings(a) == 0
    {
      forall a ensures Standings(a) == SideSum(accounts, BalancesOf(accounts), a, true) - SideSum(accounts, BalancesOf(accounts), a, false) {
        PositionIsSideDifference(accounts, BalancesOf(accounts), a);
      }
    }

    /** Replay: each balance is its opening value plus the signed sum of its committed postings. */
    lemma ReplayBalance(i: nat, a: string)
      requires Valid() && Replays()
      requires i < |accounts| && a in opening[i]
      ensures a in accounts[i].balance
      ensures accounts[i].balance[a] == opening[i][a] + SignedSum(accounts[i], Flatten(history), a)
    {
      FoldIsSignedSum(accounts[i], opening[i], Flatten(history), a);
    }

    /**
     * Registers `account` under its code after enabling `currencies` on it
     * (`DEFAULT_CURRENCIES` when the list is empty or omitted).
     */
    method AddAccount(account: Account, currencies: seq<string> := []) returns (o: Outcome)
      requires Valid()
      modifies this, account
      ensures Valid()
      ensures account.code in old(index) ==> o == Fail(DuplicateCode(account.code))
      ensures account.code in old(index) ==> unchanged(this) && unchanged(account)
      ensures account.code !in old(index) ==>
        o == Pass &&
        account.balance == EnableAll(old(account.balance), Effective(currencies)) &&
        account.records == old(account.records) &&
        index == old(index)[account.code := account] &&
        accounts == old(accounts) + [account] &&
        opening == old(opening) + [account.balance] &&
        transactions == old(transactions) && history == old(history)
      ensures o.Pass? ==> forall a {:trigger Standings(a)} :: Standings(a) == old(Standings(a)) + Standing(account.kind, account.balance, a)
      ensures o.Pass? && old(Closed()) ==> Closed()
      ensures o.Pass? && old(Replays() && Closed()) ==> Replays()
    {
      if account.code in index {
        return Fail(DuplicateCode(account.code));
      }
      NotRegistered(account);
      EnableCurrencies(account, Effective(currencies));
      Register(account);
      o := Pass;
    }

    /** Stores an account whose code is not yet taken: `_index[code] = account; _accounts.append(account)`. */
    method Register(account: Account)
      requires Valid() && account.code !in index
      modifies this
      ensures Valid()
      ensures index == old(index)[account.code := account] && accounts == old(accounts) + [account]
      ensures opening == old(opening) + [account.balance]
      ensures transactions == old(transactions) && history == old(history)
      ensures forall a {:trigger Standings(a)} :: Standings(a) == old(Standings(a)) + Standing(account.kind, account.balance, a)
      ensures old(Closed()) ==> Closed()
      ensures old(Closed()) && old(Replays()) ==> Replays()
    {
      NotRegistered(account);
      forall i | 0 <= i < |accounts| ensures accounts[i].code != account.code {
        IndexOfComplete(accounts, i);
      }
      ghost var bals0 := BalancesOf(accounts);
      index := index[account.code := account];
      accounts := accounts + [account];
      opening := opening + [account.balance];
      assert accounts[..|accounts| - 1] == old(accounts);
      assert BalancesOf(accounts) == bals0 + [account.balance];
      assert (bals0 + [account.balance])[..|accounts| - 1] == bals0;
      if old(Closed()) {
        CoversGrow(old(accounts), Flatten(history), account);
        if old(Replays()) {
          ReplayedRegister(old(accounts), bals0, old(opening), Flatten(history), account, account.balance);
        }
      }
    }

    /** The account registered under `code`. */
    function GetAccount(code: Option<string>): (r: Result<Account>)
      requires Valid()
      reads this
      ensures r.Failure? <==> code !in index
      ensures r.Failure? ==> r.error == UnknownAccount(code)
      ensures r.Success? ==> r.value in accounts && r.value.code == code
    {
      if code in index then
        IndexOfSound(accounts, code);
        Success(index[code])
      else Failure(UnknownAccount(code))
    }

    /**
     * Commits `journal`: validates the per-asset totals and, only if they balance,
     * applies every record in order and appends the journal to the history. A record
     * in an asset not enabled on its account stops the commit midway (the records
     * before it stay applied, and it is itself logged), and the journal is not recorded.
     */
    method AddJournal(journal: Journal) returns (o: Outcome)
      requires Valid()
      modifies this, Touched(journal.records)
      ensures Valid()
      ensures accounts == old(accounts) && index == old(index) && opening == old(opening)
      ensures !Balanced(journal.records) ==>
        o == Fail(Unbalanced) && transactions == old(transactions) && history == old(history) &&
        unchanged(Touched(journal.records))
      ensures Balanced(journal.records) ==> o == old(CommitOutcome(journal.records))
      ensures Balanced(journal.records) ==> Applied(journal.records)
      ensures o.Pass? ==> transactions == old(transactions) + [journal] && history == old(history) + [journal.records]
      ensures o.Fail? ==> transactions == old(transactions) && history == old(history)
      ensures o.Pass? && old(AllRegistered(journal.records)) ==> forall a {:trigger Standings(a)} :: Standings(a) == old(Standings(a))
      ensures o.Pass? && old(AllRegistered(journal.records) && Closed()) ==> Closed()
      ensures o.Pass? && old(Replays()) ==> Replays()
      ensures o.Fail? && old(Closed()) ==> Closed()
      ensures !Balanced(journal.records) && old(Replays()) ==> Replays()
      ensures !Balanced(journal.records) ==> forall a {:trigger Standings(a)} :: Standings(a) == old(Standings(a))
    {
      var ok := ValidateTotals(journal.records);
      if !ok {
        return Fail(Unbalanced);
      }
      o := Commit(journal);
      if o.Pass? {
        CommitPreserves(journal.records);
      }
    }

    /** The commit pass of `add_journal` on a journal already found balanced. */
    method Commit(journal: Journal) returns (o: Outcome)
      requires Valid() && Balanced(journal.records)
      modifies this, Touched(journal.records)
      ensures Valid()
      ensures accounts == old(accounts) && index == old(index) && opening == old(opening)
      ensures o == old(CommitOutcome(journal.records))
      ensures Applied(journal.records)
      ensures o.Pass? ==> forall j :: 0 <= j < |accounts| ==>
        accounts[j].balance == Fold(accounts[j], old(accounts[j].balance), journal.records)
      ensures o.Pass? ==> transactions == old(transactions) + [journal] && history == old(history) + [journal.records]
      ensures o.Fail? ==> transactions == old(transactions) && history == old(history)
    {
      var recs := journal.records;
      o := ApplyRecords(recs);
      assert journal.records == recs;
      if o.Fail? {
        return;
      }
      assert recs[..|recs|] == recs;
      forall j | 0 <= j < |accounts|
        ensures accounts[j].balance == Fold(accounts[j], old(accounts[j].balance), recs)
      {
        if accounts[j] !in Touched(recs) {
          FoldUntouched(accounts[j], old(accounts[j].balance), recs);
        }
      }
      transactions, history := transactions + [journal], history + [recs];
    }

    /**
     * A successful commit keeps the accounting equation, keeps every committed posting on
     * a registered account, and keeps every balance the replay of the committed postings.
     */
    twostate lemma CommitPreserves(recs: seq<Record>)
      requires old(Valid()) && Valid() && accounts == old(accounts) && opening == old(opening)
      requires history == old(history) + [recs] && Balanced(recs) && old(CommitOutcome(recs)) == Pass
      requires forall j :: 0 <= j < |accounts| ==> accounts[j].balance == Fold(accounts[j], old(accounts[j].balance), recs)
      ensures old(AllRegistered(recs)) ==> forall a {:trigger Standings(a)} :: Standings(a) == old(Standings(a))
      ensures old(AllRegistered(recs) && Closed()) ==> Closed()
      ensures old(Replays()) ==> Replays()
    {
      var bals0 := old(BalancesOf(accounts));
      assert old(FirstDisabled(recs)) == |recs|;
      assert forall i, m :: 0 <= i < |accounts| && 0 <= m < |recs| && recs[m].account == accounts[i] ==> recs[m].asset in bals0[i];
      Settled(recs, bals0, old(history));
    }

    /**
     * After a successful commit the journal has joined the history, and every registered
     * account holds its old balance `bals0` with the journal applied.
     */
    lemma Settled(recs: seq<Record>, bals0: seq<map<string, int>>, prior: seq<seq<Record>>)
      requires Valid() && history == prior + [recs] && Balanced(recs) && |bals0| == |accounts|
      requires forall j :: 0 <= j < |accounts| ==> accounts[j].balance == Fold(accounts[j], bals0[j], recs)
      requires forall i, m :: 0 <= i < |accounts| && 0 <= m < |recs| && recs[m].account == accounts[i] ==> recs[m].asset in bals0[i]
      ensures Covers(accounts, recs) ==> forall a {:trigger Standings(a)} :: Standings(a) == Position(accounts, bals0, a)
      ensures Covers(accounts, recs) && Covers(accounts, Flatten(prior)) ==> Closed()
      ensures Replayed(accounts, bals0, opening, Flatten(prior)) ==> Replays()
    {
      assert history[..|history| - 1] == prior;
      var bals1 := BalancesOf(accounts);
      if Covers(accounts, recs) {
        DistinctAccounts();
        assert Touched(recs) <= set x | x in accounts;
        forall a ensures Standings(a) == Position(accounts, bals0, a) {
          CommitPosition(accounts, bals0, bals1, recs, a);
        }
      }
      if Replayed(accounts, bals0, opening, Flatten(prior)) {
        ReplayedCommit(accounts, bals0, opening, Flatten(prior), recs, bals1);
      }
    }
  }
}
