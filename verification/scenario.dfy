/** A worked ledger of three transactions: two by client 1 at merchants A
    and B, one by client 2 at merchant A. */
module Scenario {
  import opened Results
  import opened Keys
  import opened AmountNormalizer
  import opened AmountFormat
  import opened Aggregation
  import opened SpendingAnalysis

  lemma Units1000()
    ensures UnitsText(1000) == "10"
  {
    assert NatDigits(10) == NatDigits(1) + "0";
    assert Abs(1000) / 100 == 10;
    hide NatDigits;
  }

  lemma Units550()
    ensures UnitsText(550) == "5"
  {
    assert NatDigits(5) == "5";
    assert Abs(550) / 100 == 5;
    hide NatDigits;
  }

  lemma Units2000()
    ensures UnitsText(2000) == "20"
  {
    assert NatDigits(20) == NatDigits(2) + "0";
    assert Abs(2000) / 100 == 20;
    hide NatDigits;
  }

  lemma WholeCents(cents: int)
    requires cents % 100 == 0 && cents >= 0
    ensures CentsText(cents) == ".00"
  {
    assert TwoDigits(0) == "00";
  }

  lemma Cents550()
    ensures CentsText(550) == ".50"
  {
    assert TwoDigits(50) == "50";
    assert Abs(550) % 100 == 50;
    hide TwoDigits;
  }

  /** 1000 cents are written `$10.00`. */
  lemma Format1000()
    ensures FormatCurrency(1000) == "$10.00"
  {
    Units1000();
    WholeCents(1000);
    FormatCurrencySmall(1000);
    hide NatDigits, TwoDigits, UnitsText, CentsText, GroupThousands, FormatCurrency;
  }

  /** 550 cents are written `$5.50`. */
  lemma Format550()
    ensures FormatCurrency(550) == "$5.50"
  {
    Units550();
    Cents550();
    FormatCurrencySmall(550);
    hide NatDigits, TwoDigits, UnitsText, CentsText, GroupThousands, FormatCurrency;
  }

  /** 2000 cents are written `$20.00`. */
  lemma Format2000()
    ensures FormatCurrency(2000) == "$20.00"
  {
    Units2000();
    WholeCents(2000);
    FormatCurrencySmall(2000);
    hide NatDigits, TwoDigits, UnitsText, CentsText, GroupThousands, FormatCurrency;
  }

  /** The three amounts of the ledger clean to 10, 5.5 and 20. */
  lemma LedgerAmounts()
    ensures CleanAmount("$10.00") == Ok(10.0)
    ensures CleanAmount("$5.50") == Ok(5.5)
    ensures CleanAmount("$20.00") == Ok(20.0)
  {
    hide *;
    Format1000();
    Format550();
    Format2000();
    CleanAmountFormatCurrency(1000);
    CleanAmountFormatCurrency(550);
    CleanAmountFormatCurrency(2000);
  }

  function Ledger(): seq<Transaction> {
    [Transaction(Num(1), Text("A"), "$10.00"),
     Transaction(Num(1), Text("B"), "$5.50"),
     Transaction(Num(2), Text("A"), "$20.00")]
  }

  function LedgerEntries(): seq<Entry> {
    [Entry(Num(1), Text("A"), 10.0),
     Entry(Num(1), Text("B"), 5.5),
     Entry(Num(2), Text("A"), 20.0)]
  }

  /** One row whose amount cleans normalizes to its entry. */
  lemma NormalizeOne(t: Transaction, v: real)
    requires CleanAmount(t.amount) == Ok(v)
    ensures NormalizeTable([t]) == Ok([Normalized(t, v)])
  {
    assert NormalizeTable([]) == Ok([]);
    hide CleanAmount, NormalizeTable;
    NormalizeCons(t, v, [], []);
    assert [t] + [] == [t] && [Normalized(t, v)] + [] == [Normalized(t, v)];
  }

  /** Two rows whose amounts clean normalize to their entries. */
  lemma NormalizeTwo(t1: Transaction, t2: Transaction, v1: real, v2: real)
    requires CleanAmount(t1.amount) == Ok(v1) && CleanAmount(t2.amount) == Ok(v2)
    ensures NormalizeTable([t1, t2]) == Ok([Normalized(t1, v1), Normalized(t2, v2)])
  {
    hide CleanAmount, NormalizeTable;
    NormalizeOne(t2, v2);
    NormalizeCons(t1, v1, [t2], [Normalized(t2, v2)]);
    assert [t1] + [t2] == [t1, t2] && [Normalized(t1, v1)] + [Normalized(t2, v2)] == [Normalized(t1, v1), Normalized(t2, v2)];
  }

  /** Three rows whose amounts clean normalize to their entries. */
  lemma NormalizeThree(t0: Transaction, t1: Transaction, t2: Transaction, v0: real, v1: real, v2: real)
    requires CleanAmount(t0.amount) == Ok(v0) && CleanAmount(t1.amount) == Ok(v1) && CleanAmount(t2.amount) == Ok(v2)
    ensures NormalizeTable([t0, t1, t2]) == Ok([Normalized(t0, v0), Normalized(t1, v1), Normalized(t2, v2)])
  {
    hide CleanAmount, NormalizeTable;
    NormalizeTwo(t1, t2, v1, v2);
    NormalizeCons(t0, v0, [t1, t2], [Normalized(t1, v1), Normalized(t2, v2)]);
    assert [t0] + [t1, t2] == [t0, t1, t2];
    assert [Normalized(t0, v0)] + [Normalized(t1, v1), Normalized(t2, v2)] == [Normalized(t0, v0), Normalized(t1, v1), Normalized(t2, v2)];
  }

  /** Every amount of the ledger cleans, giving the normalized entries. */
  lemma LedgerNormalizes()
    ensures NormalizeTable(Ledger()) == Ok(LedgerEntries())
  {
    hide CleanAmount, NormalizeTable;
    LedgerAmounts();
    NormalizeThree(Ledger()[0], Ledger()[1], Ledger()[2], 10.0, 5.5, 20.0);
  }

  function ClientSummary(): seq<Summary> {
    [Summary(Num(1), 15.5, 7.75, 2), Summary(Num(2), 20.0, 20.0, 1)]
  }

  function MerchantSummary(): seq<Summary> {
    [Summary(Text("A"), 30.0, 15.0, 2), Summary(Text("B"), 5.5, 5.5, 1)]
  }

  /** The keys of the ledger in either column. */
  lemma LedgerKeys()
    ensures KeysOf(LedgerEntries(), ClientId) == {Num(1), Num(2)}
    ensures KeysOf(LedgerEntries(), MerchantId) == {Text("A"), Text("B")}
  {
    var rows := LedgerEntries();
    assert rows[1..][1..] == rows[2..] && rows[2..][1..] == [];
    KeysOfCons(rows, ClientId);
    KeysOfCons(rows[1..], ClientId);
    KeysOfCons(rows[2..], ClientId);
    KeysOfCons(rows, MerchantId);
    KeysOfCons(rows[1..], MerchantId);
    KeysOfCons(rows[2..], MerchantId);
  }

  lemma ClientSummaryMeetsSpec()
    ensures IsSummaryOf(ClientSummary(), LedgerEntries(), ClientId)
  {
    var rows, s := LedgerEntries(), ClientSummary();
    LedgerKeys();
    assert SummaryKeys(s) == {Num(1), Num(2)} by {
      assert s[0].key in SummaryKeys(s) && s[1].key in SummaryKeys(s);
    }
    assert rows[1..][1..] == rows[2..] && rows[2..][1..] == [];
    assert CountOf(rows, ClientId, Num(1)) == 2 && SumOf(rows, ClientId, Num(1)) == 15.5;
    assert CountOf(rows, ClientId, Num(2)) == 1 && SumOf(rows, ClientId, Num(2)) == 20.0;
  }

  lemma MerchantSummaryMeetsSpec()
    ensures IsSummaryOf(MerchantSummary(), LedgerEntries(), MerchantId)
  {
    var rows, s := LedgerEntries(), MerchantSummary();
    LedgerKeys();
    assert SummaryKeys(s) == {Text("A"), Text("B")} by {
      assert s[0].key in SummaryKeys(s) && s[1].key in SummaryKeys(s);
    }
    assert Less(Text("A"), Text("B"));
    assert rows[1..][1..] == rows[2..] && rows[2..][1..] == [];
    assert CountOf(rows, MerchantId, Text("A")) == 2 && SumOf(rows, MerchantId, Text("A")) == 30.0;
    assert CountOf(rows, MerchantId, Text("B")) == 1 && SumOf(rows, MerchantId, Text("B")) == 5.5;
  }

  lemma SummariesOfLedger()
    ensures Aggregate(LedgerEntries(), ClientId) == ClientSummary()
    ensures Aggregate(LedgerEntries(), MerchantId) == MerchantSummary()
  {
    ClientSummaryMeetsSpec();
    MerchantSummaryMeetsSpec();
    hide *;
    AggregateCharacterized(ClientSummary(), LedgerEntries(), ClientId);
    AggregateCharacterized(MerchantSummary(), LedgerEntries(), MerchantId);
  }

  /** On the ledger the analysis yields client 1: 15.50 over 2 (mean 7.75),
      client 2: 20.00 over 1, merchant A: 30.00 over 2 (mean 15.00) and
      merchant B: 5.50 over 1, while the code as written fails because
      `df` is undefined. */
  lemma LedgerAnalysis()
    ensures AnalyzeSpending(Ledger()) == Ok(Report(Table(Header(ClientId), ClientSummary()),
                                                  Table(Header(MerchantId), MerchantSummary())))
    ensures AnalyzeSpendingAsWritten(Ledger()) == Err(UndefinedName("df"))
  {
    LedgerNormalizes();
    SummariesOfLedger();
    hide NormalizeTable, Aggregate, Ledger, LedgerEntries, ClientSummary, MerchantSummary;
  }
}
