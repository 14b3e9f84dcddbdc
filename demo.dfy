/**
 * The walk-through at the bottom of tryout.py, restated as checked scenarios:
 * each method builds a fresh book and states what the ledger then holds.
 */
module Scenarios {
  import opened Ledger

  /** Creates an account and registers it in `book` under a code not yet taken. */
  method Open(book: Book, name: string, typeCode: int, code: string, currencies: seq<string>) returns (acct: Account)
    requires book.Valid() && Some(code) !in book.index && TypeFromCode(typeCode).Some?
    modifies book
    ensures fresh(acct) && acct.kind == TypeFromCode(typeCode).value && acct.name == name
    ensures acct.balance == EnableAll(map[], Effective(currencies)) && acct.records == []
    ensures book.Valid() && book.index == old(book.index)[Some(code) := acct]
    ensures book.accounts == old(book.accounts) + [acct] && book.transactions == old(book.transactions)
    ensures book.opening == old(book.opening) + [acct.balance] && book.history == old(book.history)
  {
    var r := NewAccount(name, typeCode, Some(code));
    acct := r.value;
    var _ := book.AddAccount(acct, currencies);
  }

  /**
   * A book holding a user account A (liability, code 1400, EUR and BTC) and a bank
   * account B (asset, code 1200, the default currencies).
   */
  method UserAndBank() returns (book: Book, a: Account, b: Account)
    ensures fresh(book) && fresh(a) && fresh(b) && a != b
    ensures book.Valid() && book.accounts == [a, b] && book.transactions == []
    ensures a.kind == Liability && a.balance == map["EUR" := 0, "BTC" := 0] && a.records == []
    ensures b.kind == Asset && b.balance == map["EUR" := 0] && b.records == []
  {
    book := new Book();
    a := Open(book, "Account A", 1, "1400", ["EUR", "BTC"]);
    b := Open(book, "ING7197307", 0, "1200", []);
    assert a.balance == map["EUR" := 0, "BTC" := 0];
  }

  /** A second book with C (liability, code 1401, EUR and BTC) and D (asset, code 1201, BTC only). */
  method UserAndWallet() returns (book: Book, c: Account, d: Account)
    ensures fresh(book) && fresh(c) && fresh(d) && c != d
    ensures book.Valid() && book.accounts == [c, d] && book.transactions == []
    ensures book.opening == [c.balance, d.balance] && book.history == []
    ensures c.kind == Liability && c.balance == map["EUR" := 0, "BTC" := 0] && c.records == []
    ensures d.kind == Asset && d.balance == map["BTC" := 0] && d.records == []
  {
    book := new Book();
    c := Open(book, "Account C", 1, "1401", ["EUR", "BTC"]);
    d := Open(book, "Hotwallet", 0, "1201", ["BTC"]);
    assert c.balance == map["EUR" := 0, "BTC" := 0];
    assert d.balance == map["BTC" := 0];
  }

  /** A two-record journal touches exactly the two accounts it names. */
  lemma TouchedPair(recs: seq<Record>)
    requires |recs| == 2
    ensures Touched(recs) == {recs[0].account, recs[1].account}
  {
    assert recs[0] in recs && recs[1] in recs;
    assert forall r :: r in recs ==> r == recs[0] || r == recs[1];
  }

  /** A fresh journal holding `recs`, added one record at a time. */
  method JournalOf(recs: seq<Record>) returns (j: Journal)
    ensures fresh(j) && j.records == recs
  {
    j := new Journal();
    for i := 0 to |recs|
      invariant j.records == recs[..i]
    {
      var r := recs[i];
      j.AddRecord(r.account, r.debit, r.credit, r.asset, r.description);
      assert recs[..i + 1] == recs[..i] + [r];
    }
    assert recs[..|recs|] == recs;
  }

  /** The two postings of the deposit, folded over the opening balances of A and B. */
  lemma DepositPostings(a: Account, b: Account, recs: seq<Record>)
    requires a != b && a.kind == Liability && b.kind == Asset
    requires recs == [Record(b, 500, 0, "EUR", "deposit 500 eur to user A"), Record(a, 0, 500, "EUR", "deposit 500 eur to user A")]
    ensures Fold(a, map["EUR" := 0, "BTC" := 0], recs) == map["EUR" := 500, "BTC" := 0]
    ensures Fold(b, map["EUR" := 0], recs) == map["EUR" := 500]
    ensures Balanced(recs)
  {
    var ba, bb := map["EUR" := 0, "BTC" := 0], map["EUR" := 0];
    assert recs[..1][..0] == [];
    assert recs[..2] == recs && recs[..0] == [];
    assert Assets(recs[..0]) == {};
    assert DebitTotal(recs[..0], "EUR") == 0 == CreditTotal(recs[..0], "EUR");
    TotalsStep(recs, 0);
    TotalsStep(recs, 1);
    assert Fold(a, ba, recs[..1]) == ba;
    assert Fold(a, ba, recs) == Post(Liability, ba, recs[1]);
    assert Fold(b, bb, recs[..1]) == Post(Asset, bb, recs[0]);
    assert Fold(b, bb, recs) == Fold(b, bb, recs[..1]);
  }

  /** Both accounts of the deposit hold EUR, so the commit pass runs to the end. */
  lemma DepositReachesEnd(a: Account, b: Account, recs: seq<Record>)
    requires a.balance == map["EUR" := 0, "BTC" := 0] && b.balance == map["EUR" := 0]
    requires recs == [Record(b, 500, 0, "EUR", "deposit 500 eur to user A"), Record(a, 0, 500, "EUR", "deposit 500 eur to user A")]
    ensures Touched(recs) == {a, b} && CommitOutcome(recs) == Pass && Reached(recs) == |recs|
  {
    TouchedPair(recs);
    assert recs[1..][1..] == [];
    assert FirstDisabled(recs) == 2;
  }

  /**
   * A deposit of 500 EUR: debit B, credit A. The liability and the asset both end at
   * +500, and the journal is recorded.
   */
  method Deposit() returns (o: Outcome, user: int, bank: int, committed: nat)
    ensures o == Pass && user == 500 && bank == 500 && committed == 1
  {
    var book, a, b := UserAndBank();
    var j := JournalOf([Record(b, 500, 0, "EUR", "deposit 500 eur to user A"), Record(a, 0, 500, "EUR", "deposit 500 eur to user A")]);
    var recs := j.records;
    assert recs[..2] == recs;
    DepositReachesEnd(a, b, recs);
    DepositPostings(a, b, recs);
    o := book.AddJournal(j);
    user, bank, committed := a.balance["EUR"], b.balance["EUR"], |book.transactions|;
  }

  /** EUR debits of 500 against EUR credits of 400: the journal does not balance. */
  lemma ShortCredit(a: Account, b: Account, recs: seq<Record>)
    requires recs == [Record(b, 500, 0, "EUR", ""), Record(a, 0, 400, "EUR", "")]
    ensures !Balanced(recs)
  {
    assert recs[..0] == [] && recs[..2] == recs;
    assert DebitTotal(recs[..0], "EUR") == 0 == CreditTotal(recs[..0], "EUR");
    TotalsStep(recs, 0);
    TotalsStep(recs, 1);
    assert "EUR" in Assets(recs);
  }

  /** A journal whose EUR debits and credits differ is refused and changes nothing. */
  method UnbalancedRefused() returns (o: Outcome, user: int, bank: int, committed: nat)
    ensures o == Fail(Unbalanced) && user == 0 && bank == 0 && committed == 0
  {
    var book, a, b := UserAndBank();
    var j := JournalOf([Record(b, 500, 0, "EUR", ""), Record(a, 0, 400, "EUR", "")]);
    TouchedPair(j.records);
    ShortCredit(a, b, j.records);
    o := book.AddJournal(j);
    user, bank, committed := a.balance["EUR"], b.balance["EUR"], |book.transactions|;
  }

  /**
   * Credit C with 5 EUR, then debit D with 5 EUR: balanced, but D holds no EUR. The
   * credit is applied, the debit is logged on D and leaves its balance as it was.
   */
  lemma StrandedPostings(c: Account, d: Account, recs: seq<Record>)
    requires c != d && c.kind == Liability && d.kind == Asset
    requires recs == [Record(c, 0, 5, "EUR", ""), Record(d, 5, 0, "EUR", "")]
    ensures Balanced(recs)
    ensures Fold(c, map["EUR" := 0, "BTC" := 0], recs) == map["EUR" := 5, "BTC" := 0]
    ensures Fold(d, map["BTC" := 0], recs) == map["BTC" := 0]
    ensures Filter(d, recs) == [recs[1]]
  {
    var bc, bd := map["EUR" := 0, "BTC" := 0], map["BTC" := 0];
    assert recs[..1][..0] == [];
    assert recs[..2] == recs && recs[..0] == [];
    assert Assets(recs[..0]) == {};
    assert DebitTotal(recs[..0], "EUR") == 0 == CreditTotal(recs[..0], "EUR");
    TotalsStep(recs, 0);
    TotalsStep(recs, 1);
    assert Fold(c, bc, recs[..1]) == Post(Liability, bc, recs[0]);
    assert Fold(c, bc, recs) == Fold(c, bc, recs[..1]);
    assert Fold(d, bd, recs[..1]) == bd;
    assert Filter(d, recs[..1]) == [];
  }

  /** D holds no EUR, so the commit pass stops at the second record. */
  lemma StrandedStopsAtDebit(c: Account, d: Account, recs: seq<Record>)
    requires c.balance == map["EUR" := 0, "BTC" := 0] && d.balance == map["BTC" := 0]
    requires recs == [Record(c, 0, 5, "EUR", ""), Record(d, 5, 0, "EUR", "")]
    ensures Touched(recs) == {c, d}
    ensures CommitOutcome(recs) == Fail(UnknownAsset("EUR")) && Reached(recs) == |recs|
  {
    TouchedPair(recs);
    assert FirstDisabled(recs[1..]) == 0;
    assert FirstDisabled(recs) == 1;
  }

  /** An account that moved away from its opening balance with nothing committed is not a replay. */
  lemma Unreplayed(book: Book, c: Account)
    requires book.history == [] && |book.opening| == |book.accounts| > 0 && book.accounts[0] == c
    requires "EUR" in book.opening[0] && "EUR" in c.balance && c.balance["EUR"] != book.opening[0]["EUR"]
    ensures !book.Replays()
  {
    assert Flatten(book.history) == [];
    assert BalancesOf(book.accounts)[0] == c.balance;
  }

  /** The EUR position of a book holding a liability with 5 EUR and an asset without EUR. */
  lemma TwoAccountStanding(book: Book, c: Account, d: Account)
    requires book.accounts == [c, d] && c.kind == Liability && d.kind == Asset
    requires "EUR" in c.balance && c.balance["EUR"] == 5 && "EUR" !in d.balance
    ensures book.Standings("EUR") == -5
  {
    var bs := BalancesOf(book.accounts);
    assert bs == [c.balance, d.balance];
    assert book.accounts[..1] == [c] && bs[..1] == [c.balance];
    assert [c][..0] == [] && [c.balance][..0] == [];
    assert Position([c], [c.balance], "EUR") == Standing(Liability, c.balance, "EUR") == -5;
    assert Position(book.accounts, bs, "EUR") == Position([c], [c.balance], "EUR") + Standing(Asset, d.balance, "EUR");
  }

  /**
   * A posting in EUR to D, which only holds BTC, stops the commit with a missing-asset
   * error after the posting before it was applied; the journal is not recorded.
   */
  method MissingAssetStopsCommit() returns (o: Outcome, user: int, wallet: map<string, int>, logged: nat, committed: nat, book: Book)
    ensures o == Fail(UnknownAsset("EUR"))
    ensures user == 5 && wallet == map["BTC" := 0] && logged == 1 && committed == 0
    ensures !book.Replays() && book.Standings("EUR") == -5
  {
    var c, d;
    book, c, d := UserAndWallet();
    var j := JournalOf([Record(c, 0, 5, "EUR", ""), Record(d, 5, 0, "EUR", "")]);
    var recs := j.records;
    assert recs[..2] == recs;
    StrandedStopsAtDebit(c, d, recs);
    StrandedPostings(c, d, recs);
    o := book.AddJournal(j);
    user, wallet, logged, committed := c.balance["EUR"], d.balance, |d.records|, |book.transactions|;
    Unreplayed(book, c);
    TwoAccountStanding(book, c, d);
  }

  /** Registration and lookup by code: a taken code is refused, an unknown one is not found. */
  method Lookup() returns (found: Result<Account>, missing: Result<Account>, again: Outcome, badType: Result<Account>)
    ensures found.Success? && found.value.name == "Hotwallet"
    ensures missing == Failure(UnknownAccount(Some("9999")))
    ensures again == Fail(DuplicateCode(Some("1201")))
    ensures badType == Failure(InvalidType(7))
  {
    var book := new Book();
    var rd := NewAccount("Hotwallet", 0, Some("1201"));
    var d := rd.value;
    var _ := book.AddAccount(d, ["BTC"]);
    found := book.GetAccount(Some("1201"));
    missing := book.GetAccount(Some("9999"));
    var rd2 := NewAccount("Cold wallet", 0, Some("1201"));
    again := book.AddAccount(rd2.value);
    badType := NewAccount("Nowhere", 7);
  }

  /** Iterating a journal twice yields the same records, in insertion order. */
  method IterateTwice() returns (first: seq<Record>, second: seq<Record>)
    ensures first == second && |first| == 2 && first[0].debit == 10 && first[1].credit == 10
  {
    var rc := NewAccount("Account C", 1, Some("1401"));
    var rd := NewAccount("Hotwallet", 0, Some("1201"));
    var j := new Journal();
    j.AddRecord(rd.value, 10, 0, "BTC", "deposit 10 btc to user C");
    j.AddRecord(rc.value, 0, 10, "BTC", "deposit 10 btc to user C");
    first := j.Iterate();
    second := j.Iterate();
  }
}
