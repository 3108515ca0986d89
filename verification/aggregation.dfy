/** The aggregation engine: the rows of the normalized transaction table are
    partitioned by one key column, and every distinct key gets one summary
    row with the sum, the mean and the number of the amounts carrying it,
    listed in ascending key order. The same routine serves the client and
    the merchant summaries. */
module Aggregation {
  import opened Keys

  /** A transaction row after its amount has been normalized. */
  datatype Entry = Entry(clientId: Key, merchantId: Key, amount: real)

  /** The column a summary is keyed by. */
  datatype KeyColumn = ClientId | MerchantId

  function KeyOf(e: Entry, col: KeyColumn): Key {
    match col
    case ClientId => e.clientId
    case MerchantId => e.merchantId
  }

  /** The header of the key column in the summary table. */
  function ColumnName(col: KeyColumn): string {
    match col
    case ClientId => "client_id"
    case MerchantId => "merchant_id"
  }

  /** One row of a summary table. */
  datatype Summary = Summary(key: Key, totalSpent: real, averageTransaction: real, transactionCount: nat)

  // ---------------------------------------------------------------------
  // What a partition of the rows is, stated over the rows themselves
  // ---------------------------------------------------------------------

  /** The number of rows whose key is `k`. */
  function CountOf(rows: seq<Entry>, col: KeyColumn, k: Key): nat {
    if |rows| == 0 then 0
    else (if KeyOf(rows[0], col) == k then 1 else 0) + CountOf(rows[1..], col, k)
  }

  /** The sum of the amounts of the rows whose key is `k`. */
  function SumOf(rows: seq<Entry>, col: KeyColumn, k: Key): real {
    if |rows| == 0 then 0.0
    else (if KeyOf(rows[0], col) == k then rows[0].amount else 0.0) + SumOf(rows[1..], col, k)
  }

  /** The distinct keys present in the rows. */
  function KeysOf(rows: seq<Entry>, col: KeyColumn): set<Key> {
    set i | 0 <= i < |rows| :: KeyOf(rows[i], col)
  }

  /** The sum of all amounts. */
  function Total(rows: seq<Entry>): real {
    if |rows| == 0 then 0.0 else rows[0].amount + Total(rows[1..])
  }

  function SummaryKeys(s: seq<Summary>): set<Key> {
    set i | 0 <= i < |s| :: s[i].key
  }

  predicate SummaryAscending(s: seq<Summary>) {
    forall i, j :: 0 <= i < j < |s| ==> Less(s[i].key, s[j].key)
  }

  /** `s` is the summary of `rows` keyed by `col`: one row per distinct key,
      keys strictly ascending, each row holding the count and the sum of
      that key's amounts and their mean, the sum divided by the count. */
  predicate IsSummaryOf(s: seq<Summary>, rows: seq<Entry>, col: KeyColumn) {
    && SummaryAscending(s)
    && SummaryKeys(s) == KeysOf(rows, col)
    && forall i :: 0 <= i < |s| ==>
         && s[i].transactionCount == CountOf(rows, col, s[i].key)
         && s[i].transactionCount >= 1
         && s[i].totalSpent == SumOf(rows, col, s[i].key)
         && s[i].averageTransaction == s[i].totalSpent / s[i].transactionCount as real
  }

  /** The sum of the `total_spent` column. */
  function TotalSpent(s: seq<Summary>): real {
    if |s| == 0 then 0.0 else s[0].totalSpent + TotalSpent(s[1..])
  }

  /** The sum of the `transaction_count` column. */
  function Transactions(s: seq<Summary>): nat {
    if |s| == 0 then 0 else s[0].transactionCount + Transactions(s[1..])
  }

  // ---------------------------------------------------------------------
  // The running groups the engine builds
  // ---------------------------------------------------------------------

  /** A group under construction: its key, running sum and running count. */
  datatype Group = Group(key: Key, total: real, count: nat)

  predicate Ascending(gs: seq<Group>) {
    forall i, j :: 0 <= i < j < |gs| ==> Less(gs[i].key, gs[j].key)
  }

  predicate NonEmpty(gs: seq<Group>) {
    forall i :: 0 <= i < |gs| ==> gs[i].count >= 1
  }

  function GroupKeys(gs: seq<Group>): set<Key> {
    set i | 0 <= i < |gs| :: gs[i].key
  }

  /** The count recorded for `k` (0 when no group has that key). */
  function CountIn(gs: seq<Group>, k: Key): nat {
    if |gs| == 0 then 0
    else (if gs[0].key == k then gs[0].count else 0) + CountIn(gs[1..], k)
  }

  /** The running sum recorded for `k` (0 when no group has that key). */
  function TotalIn(gs: seq<Group>, k: Key): real {
    if |gs| == 0 then 0.0
    else (if gs[0].key == k then gs[0].total else 0.0) + TotalIn(gs[1..], k)
  }

  function GroupsTotal(gs: seq<Group>): real {
    if |gs| == 0 then 0.0 else gs[0].total + GroupsTotal(gs[1..])
  }

  function GroupsCount(gs: seq<Group>): nat {
    if |gs| == 0 then 0 else gs[0].count + GroupsCount(gs[1..])
  }

  /** The group-level measures of a list split into its head and the rest. */
  lemma GroupsCons(g: Group, rest: seq<Group>)
    ensures forall j :: CountIn([g] + rest, j) == (if g.key == j then g.count else 0) + CountIn(rest, j)
    ensures forall j :: TotalIn([g] + rest, j) == (if g.key == j then g.total else 0.0) + TotalIn(rest, j)
    ensures GroupKeys([g] + rest) == {g.key} + GroupKeys(rest)
    ensures GroupsTotal([g] + rest) == g.total + GroupsTotal(rest)
    ensures GroupsCount([g] + rest) == g.count + GroupsCount(rest)
  {
    var gs := [g] + rest;
    assert gs[0] == g && gs[1..] == rest;
    forall k | k in GroupKeys(gs)
      ensures k in {g.key} + GroupKeys(rest)
    {
      var i :| 0 <= i < |gs| && gs[i].key == k;
      if i > 0 {
        assert rest[i - 1].key == k;
      }
    }
    forall k | k in GroupKeys(rest)
      ensures k in GroupKeys(gs)
    {
      var i :| 0 <= i < |rest| && rest[i].key == k;
      assert gs[i + 1].key == k;
    }
  }

  /** In an ascending list every key after the head is above the head. */
  lemma AscendingTail(gs: seq<Group>)
    requires Ascending(gs) && |gs| > 0
    ensures Ascending(gs[1..])
    ensures forall k :: k in GroupKeys(gs[1..]) ==> Less(gs[0].key, k)
  {
    forall k | k in GroupKeys(gs[1..])
      ensures Less(gs[0].key, k)
    {
      var i :| 0 <= i < |gs[1..]| && gs[1..][i].key == k;
      assert gs[i + 1].key == k;
    }
  }

  /** A key below the head of an ascending list is below every key in it. */
  lemma BelowAll(gs: seq<Group>, k: Key)
    requires Ascending(gs) && |gs| > 0 && Less(k, gs[0].key)
    ensures forall i :: 0 <= i < |gs| ==> Less(k, gs[i].key)
  {
    forall i | 0 < i < |gs|
      ensures Less(k, gs[i].key)
    {
      LessTransitive(k, gs[0].key, gs[i].key);
    }
  }

  /** A head below every key of an ascending list keeps it ascending. */
  lemma ConsAscending(g: Group, rest: seq<Group>)
    requires Ascending(rest)
    requires forall k :: k in GroupKeys(rest) ==> Less(g.key, k)
    ensures Ascending([g] + rest)
  {
    var gs := [g] + rest;
    forall i, j | 0 <= i < j < |gs|
      ensures Less(gs[i].key, gs[j].key)
    {
      assert gs[j] == rest[j - 1];
      if i == 0 {
        assert rest[j - 1].key in GroupKeys(rest);
      } else {
        assert gs[i] == rest[i - 1];
      }
    }
  }

  /** `r` is `gs` with one more amount `a` under key `k`. */
  ghost predicate Adds(r: seq<Group>, gs: seq<Group>, k: Key, a: real) {
    && GroupKeys(r) == GroupKeys(gs) + {k}
    && (forall j :: CountIn(r, j) == CountIn(gs, j) + (if j == k then 1 else 0))
    && (forall j :: TotalIn(r, j) == TotalIn(gs, j) + (if j == k then a else 0.0))
    && (NonEmpty(gs) ==> NonEmpty(r))
    && GroupsTotal(r) == GroupsTotal(gs) + a
    && GroupsCount(r) == GroupsCount(gs) + 1
  }

  lemma InsertFirst(k: Key, a: real)
    ensures Ascending([Group(k, a, 1)]) && Adds([Group(k, a, 1)], [], k, a)
  {
    GroupsCons(Group(k, a, 1), []);
    assert [Group(k, a, 1)] + [] == [Group(k, a, 1)];
  }

  lemma InsertAtHead(gs: seq<Group>, k: Key, a: real)
    requires Ascending(gs) && |gs| > 0 && gs[0].key == k
    ensures var r := [Group(k, gs[0].total + a, gs[0].count + 1)] + gs[1..];
            Ascending(r) && Adds(r, gs, k, a)
  {
    var g := Group(k, gs[0].total + a, gs[0].count + 1);
    assert gs == [gs[0]] + gs[1..];
    GroupsCons(gs[0], gs[1..]);
    AscendingTail(gs);
    GroupsCons(g, gs[1..]);
    ConsAscending(g, gs[1..]);
  }

  lemma InsertBefore(gs: seq<Group>, k: Key, a: real)
    requires Ascending(gs) && |gs| > 0 && Less(k, gs[0].key)
    ensures var r := [Group(k, a, 1)] + gs;
            Ascending(r) && Adds(r, gs, k, a)
  {
    var g := Group(k, a, 1);
    BelowAll(gs, k);
    GroupsCons(g, gs);
    forall j | j in GroupKeys(gs)
      ensures Less(k, j)
    {
      var i :| 0 <= i < |gs| && gs[i].key == j;
    }
    ConsAscending(g, gs);
  }

  lemma InsertAfter(gs: seq<Group>, k: Key, a: real, tail: seq<Group>)
    requires Ascending(gs) && |gs| > 0 && Less(gs[0].key, k)
    requires Ascending(tail) && Adds(tail, gs[1..], k, a)
    ensures var r := [gs[0]] + tail;
            Ascending(r) && Adds(r, gs, k, a)
  {
    assert gs == [gs[0]] + gs[1..];
    GroupsCons(gs[0], gs[1..]);
    AscendingTail(gs);
    GroupsCons(gs[0], tail);
    ConsAscending(gs[0], tail);
    LessIrreflexive(k);
  }

  /** Adds one amount to the group of key `k`, opening a new group at its
      place in key order when there is none. */
  function Insert(gs: seq<Group>, k: Key, a: real): (r: seq<Group>)
    requires Ascending(gs)
    ensures Ascending(r)
    ensures GroupKeys(r) == GroupKeys(gs) + {k}
    ensures forall j :: CountIn(r, j) == CountIn(gs, j) + (if j == k then 1 else 0)
    ensures forall j :: TotalIn(r, j) == TotalIn(gs, j) + (if j == k then a else 0.0)
    ensures NonEmpty(gs) ==> NonEmpty(r)
    ensures GroupsTotal(r) == GroupsTotal(gs) + a
    ensures GroupsCount(r) == GroupsCount(gs) + 1
    decreases |gs|
  {
    if |gs| == 0 then
      InsertFirst(k, a);
      [Group(k, a, 1)]
    else if gs[0].key == k then
      InsertAtHead(gs, k, a);
      [Group(k, gs[0].total + a, gs[0].count + 1)] + gs[1..]
    else if Less(k, gs[0].key) then
      InsertBefore(gs, k, a);
      [Group(k, a, 1)] + gs
    else
      LessTrichotomy(k, gs[0].key);
      AscendingTail(gs);
      var tail := Insert(gs[1..], k, a);
      InsertAfter(gs, k, a, tail);
      [gs[0]] + tail
  }

  /** The groups of `rows`, built by adding the rows one at a time. */
  function GroupRows(rows: seq<Entry>, col: KeyColumn): (r: seq<Group>)
    ensures Ascending(r) && NonEmpty(r)
    ensures GroupKeys(r) == KeysOf(rows, col)
    ensures forall k :: CountIn(r, k) == CountOf(rows, col, k)
    ensures forall k :: TotalIn(r, k) == SumOf(rows, col, k)
    ensures GroupsTotal(r) == Total(rows)
    ensures GroupsCount(r) == |rows|
  {
    if |rows| == 0 then []
    else
      assert KeysOf(rows, col) == {KeyOf(rows[0], col)} + KeysOf(rows[1..], col) by {
        KeysOfCons(rows, col);
      }
      Insert(GroupRows(rows[1..], col), KeyOf(rows[0], col), rows[0].amount)
  }

  lemma KeysOfCons(rows: seq<Entry>, col: KeyColumn)
    requires |rows| > 0
    ensures KeysOf(rows, col) == {KeyOf(rows[0], col)} + KeysOf(rows[1..], col)
  {
    forall k | k in KeysOf(rows, col)
      ensures k in {KeyOf(rows[0], col)} + KeysOf(rows[1..], col)
    {
      var i :| 0 <= i < |rows| && KeyOf(rows[i], col) == k;
      if i > 0 {
        assert KeyOf(rows[1..][i - 1], col) == k;
      }
    }
    forall k | k in KeysOf(rows[1..], col)
      ensures k in KeysOf(rows, col)
    {
      var i :| 0 <= i < |rows[1..]| && KeyOf(rows[1..][i], col) == k;
      assert KeyOf(rows[i + 1], col) == k;
    }
  }

  /** Keys absent from the groups have no count and no sum. */
  lemma {:induction false} AbsentKey(gs: seq<Group>, k: Key)
    requires k !in GroupKeys(gs)
    ensures CountIn(gs, k) == 0 && TotalIn(gs, k) == 0.0
    decreases |gs|
  {
    if |gs| > 0 {
      assert gs == [gs[0]] + gs[1..];
      GroupsCons(gs[0], gs[1..]);
      AbsentKey(gs[1..], k);
    }
  }

  /** In an ascending list each key has exactly one group, so looking a key
      up finds that group's count and sum. */
  lemma {:induction false} GroupLookup(gs: seq<Group>, i: nat)
    requires Ascending(gs) && i < |gs|
    ensures CountIn(gs, gs[i].key) == gs[i].count
    ensures TotalIn(gs, gs[i].key) == gs[i].total
    decreases |gs|
  {
    AscendingTail(gs);
    var k := gs[i].key;
    if i == 0 {
      LessIrreflexive(k);
      AbsentKey(gs[1..], k);
    } else {
      LessIrreflexive(gs[0].key);
      GroupLookup(gs[1..], i - 1);
    }
  }

  /** The summary row of one group: the mean times the count is the sum. */
  function Summarize(g: Group): (s: Summary)
    requires g.count >= 1
    ensures s.key == g.key && s.totalSpent == g.total && s.transactionCount == g.count
    ensures s.averageTransaction * s.transactionCount as real == s.totalSpent
  {
    Summary(g.key, g.total, g.total / g.count as real, g.count)
  }

  /** One summary row per group, in the same order. */
  function SummarizeAll(gs: seq<Group>): (s: seq<Summary>)
    requires NonEmpty(gs)
    ensures |s| == |gs|
    ensures forall i :: 0 <= i < |s| ==> s[i] == Summarize(gs[i])
    ensures TotalSpent(s) == GroupsTotal(gs)
    ensures Transactions(s) == GroupsCount(gs)
  {
    if |gs| == 0 then [] else [Summarize(gs[0])] + SummarizeAll(gs[1..])
  }

  /** Groups that record the counts and sums of the rows summarize to the
      summary of the rows. */
  lemma SummariesOfGroups(gs: seq<Group>, rows: seq<Entry>, col: KeyColumn)
    requires Ascending(gs) && NonEmpty(gs)
    requires GroupKeys(gs) == KeysOf(rows, col)
    requires forall k :: CountIn(gs, k) == CountOf(rows, col, k)
    requires forall k :: TotalIn(gs, k) == SumOf(rows, col, k)
    ensures IsSummaryOf(SummarizeAll(gs), rows, col)
  {
    var s := SummarizeAll(gs);
    forall i | 0 <= i < |s|
      ensures s[i].transactionCount == CountOf(rows, col, s[i].key)
      ensures s[i].totalSpent == SumOf(rows, col, s[i].key)
    {
      GroupLookup(gs, i);
    }
    SummarizeAllKeys(gs);
    SummarizeAllMeans(gs);
  }

  /** Every summarized group has a positive count and the mean of its sum. */
  lemma SummarizeAllMeans(gs: seq<Group>)
    requires NonEmpty(gs)
    ensures forall i :: 0 <= i < |gs| ==>
              && SummarizeAll(gs)[i].transactionCount >= 1
              && SummarizeAll(gs)[i].averageTransaction
                 == SummarizeAll(gs)[i].totalSpent / SummarizeAll(gs)[i].transactionCount as real
  {
    var s := SummarizeAll(gs);
    forall i | 0 <= i < |gs|
      ensures s[i].transactionCount >= 1
      ensures s[i].averageTransaction == s[i].totalSpent / s[i].transactionCount as real
    {
      assert s[i] == Summarize(gs[i]);
    }
  }

  /** Summarizing keeps the key order and the key set of the groups. */
  lemma SummarizeAllKeys(gs: seq<Group>)
    requires Ascending(gs) && NonEmpty(gs)
    ensures SummaryAscending(SummarizeAll(gs))
    ensures SummaryKeys(SummarizeAll(gs)) == GroupKeys(gs)
  {
    var s := SummarizeAll(gs);
    assert forall i :: 0 <= i < |s| ==> s[i].key == gs[i].key;
    forall k | k in GroupKeys(gs)
      ensures k in SummaryKeys(s)
    {
      var i :| 0 <= i < |gs| && gs[i].key == k;
      assert s[i].key == k;
    }
  }

  /** The summary table of `rows` keyed by `col` (lines 36 and 42 of the
      analysis): it meets `IsSummaryOf`, and its `total_spent` and
      `transaction_count` columns add up to the whole table. */
  function Aggregate(rows: seq<Entry>, col: KeyColumn): (s: seq<Summary>)
    ensures IsSummaryOf(s, rows, col)
    ensures TotalSpent(s) == Total(rows)
    ensures Transactions(s) == |rows|
  {
    var gs := GroupRows(rows, col);
    SummariesOfGroups(gs, rows, col);
    SummarizeAll(gs)
  }

  /** Summary rows with the same ascending key set line up key by key. */
  lemma SummaryKeysTail(s: seq<Summary>)
    requires SummaryAscending(s) && |s| > 0
    ensures SummaryAscending(s[1..])
    ensures SummaryKeys(s[1..]) == SummaryKeys(s) - {s[0].key}
  {
    forall k | k in SummaryKeys(s[1..])
      ensures k in SummaryKeys(s) && k != s[0].key
    {
      var i :| 0 <= i < |s[1..]| && s[1..][i].key == k;
      assert s[i + 1].key == k;
      LessIrreflexive(k);
    }
    forall k | k in SummaryKeys(s) && k != s[0].key
      ensures k in SummaryKeys(s[1..])
    {
      var i :| 0 <= i < |s| && s[i].key == k;
      assert s[1..][i - 1].key == k;
    }
  }

  lemma SummaryKeysEmpty(s: seq<Summary>)
    ensures SummaryKeys(s) == {} <==> |s| == 0
  {
    if |s| > 0 {
      assert s[0].key in SummaryKeys(s);
    }
  }

  lemma {:induction false} SameKeyOrder(s1: seq<Summary>, s2: seq<Summary>)
    requires SummaryAscending(s1) && SummaryAscending(s2)
    requires SummaryKeys(s1) == SummaryKeys(s2)
    ensures |s1| == |s2|
    ensures forall i :: 0 <= i < |s1| ==> s1[i].key == s2[i].key
    decreases |s1|
  {
    if |s1| == 0 {
      SummaryKeysEmpty(s1);
      SummaryKeysEmpty(s2);
    } else {
      assert s1[0].key in SummaryKeys(s2);
      assert s2[0].key in SummaryKeys(s1);
      var i :| 0 <= i < |s2| && s2[i].key == s1[0].key;
      var j :| 0 <= j < |s1| && s1[j].key == s2[0].key;
      if i > 0 && j > 0 {
        LessTrichotomy(s1[0].key, s2[0].key);
      }
      SummaryKeysTail(s1);
      SummaryKeysTail(s2);
      SameKeyOrder(s1[1..], s2[1..]);
      forall i | 0 < i < |s1|
        ensures s1[i].key == s2[i].key
      {
        assert s1[1..][i - 1].key == s2[1..][i - 1].key;
      }
    }
  }

  lemma DivTimes(t: real, c: real)
    requires c >= 1.0
    ensures (t / c) * c == t
  {
  }

  /** In a summary the mean times the count gives back the total. */
  lemma MeanTimesCount(s: seq<Summary>, rows: seq<Entry>, col: KeyColumn)
    requires IsSummaryOf(s, rows, col)
    ensures forall i :: 0 <= i < |s| ==>
              s[i].averageTransaction * s[i].transactionCount as real == s[i].totalSpent
  {
    forall i | 0 <= i < |s|
      ensures s[i].averageTransaction * s[i].transactionCount as real == s[i].totalSpent
    {
      DivTimes(s[i].totalSpent, s[i].transactionCount as real);
    }
  }

  /** There is only one summary of a table: any two tables meeting
      `IsSummaryOf` for the same rows and column are equal. */
  lemma SummaryUnique(s1: seq<Summary>, s2: seq<Summary>, rows: seq<Entry>, col: KeyColumn)
    requires IsSummaryOf(s1, rows, col) && IsSummaryOf(s2, rows, col)
    ensures s1 == s2
  {
    SameKeyOrder(s1, s2);
    assert forall i :: 0 <= i < |s1| ==> s1[i] == s2[i];
  }

  /** `Aggregate` computes exactly the summary: a table is its result if
      and only if it meets `IsSummaryOf`. */
  lemma AggregateCharacterized(s: seq<Summary>, rows: seq<Entry>, col: KeyColumn)
    ensures s == Aggregate(rows, col) <==> IsSummaryOf(s, rows, col)
  {
    if IsSummaryOf(s, rows, col) {
      SummaryUnique(s, Aggregate(rows, col), rows, col);
    }
  }

  lemma {:induction false} CountSumConcat(a: seq<Entry>, b: seq<Entry>, col: KeyColumn, k: Key)
    ensures CountOf(a + b, col, k) == CountOf(a, col, k) + CountOf(b, col, k)
    ensures SumOf(a + b, col, k) == SumOf(a, col, k) + SumOf(b, col, k)
    decreases |a|
  {
    if |a| == 0 {
      assert a + b == b;
    } else {
      assert (a + b)[0] == a[0];
      assert (a + b)[1..] == a[1..] + b;
      CountSumConcat(a[1..], b, col, k);
    }
  }

  /** Taking one row out of the table takes its contribution out of the
      count and the sum of its key. */
  lemma CountSumRemove(rows: seq<Entry>, i: nat, col: KeyColumn, k: Key)
    requires i < |rows|
    ensures var rest := rows[..i] + rows[i + 1..];
            && CountOf(rows, col, k) == CountOf(rest, col, k) + (if KeyOf(rows[i], col) == k then 1 else 0)
            && SumOf(rows, col, k) == SumOf(rest, col, k) + (if KeyOf(rows[i], col) == k then rows[i].amount else 0.0)
  {
    var before, after := rows[..i], rows[i + 1..];
    assert rows == before + ([rows[i]] + after);
    CountSumConcat(before, [rows[i]] + after, col, k);
    assert ([rows[i]] + after)[1..] == after;
    CountSumConcat(before, after, col, k);
  }

  lemma MultisetRemove(rows: seq<Entry>, i: nat)
    requires i < |rows|
    ensures multiset(rows) == multiset(rows[..i] + rows[i + 1..]) + multiset{rows[i]}
  {
    assert rows == rows[..i] + [rows[i]] + rows[i + 1..];
  }

  /** Taking the first row off one table and an equal row off a
      permutation of it leaves permutations of each other. */
  lemma MultisetCancel(r1: seq<Entry>, r2: seq<Entry>, i: nat)
    requires multiset(r1) == multiset(r2)
    requires 0 < |r1| && i < |r2| && r2[i] == r1[0]
    ensures multiset(r1[1..]) == multiset(r2[..i] + r2[i + 1..])
  {
    var x, rest := r1[0], r2[..i] + r2[i + 1..];
    MultisetRemove(r2, i);
    assert r1 == [x] + r1[1..];
    assert multiset(r1) == multiset{x} + multiset(r1[1..]);
    forall y
      ensures multiset(r1[1..])[y] == multiset(rest)[y]
    {
      assert multiset(r1)[y] == multiset{x}[y] + multiset(r1[1..])[y];
      assert multiset(r2)[y] == multiset(rest)[y] + multiset{x}[y];
    }
  }

  /** Counts and sums per key do not depend on the order of the rows. */
  lemma {:induction false} CountSumPermutation(r1: seq<Entry>, r2: seq<Entry>, col: KeyColumn, k: Key)
    requires multiset(r1) == multiset(r2)
    ensures CountOf(r1, col, k) == CountOf(r2, col, k)
    ensures SumOf(r1, col, k) == SumOf(r2, col, k)
    decreases |r1|
  {
    if |r1| == 0 {
      assert |r2| == |multiset(r2)| == |multiset(r1)| == 0;
    } else {
      var x := r1[0];
      assert x in multiset(r2);
      var i :| 0 <= i < |r2| && r2[i] == x;
      var rest := r2[..i] + r2[i + 1..];
      MultisetCancel(r1, r2, i);
      CountSumPermutation(r1[1..], rest, col, k);
      CountSumRemove(r2, i, col, k);
    }
  }

  /** A key is present exactly when some row carries it. */
  lemma {:induction false} KeysOfCount(rows: seq<Entry>, col: KeyColumn, k: Key)
    ensures k in KeysOf(rows, col) <==> CountOf(rows, col, k) > 0
    decreases |rows|
  {
    if |rows| > 0 {
      KeysOfCons(rows, col);
      KeysOfCount(rows[1..], col, k);
    }
  }

  /** A summary of one table is a summary of any table with the same keys,
      counts and sums. */
  lemma SummaryTransfer(s: seq<Summary>, r1: seq<Entry>, r2: seq<Entry>, col: KeyColumn)
    requires IsSummaryOf(s, r1, col)
    requires KeysOf(r1, col) == KeysOf(r2, col)
    requires forall k :: CountOf(r1, col, k) == CountOf(r2, col, k)
    requires forall k :: SumOf(r1, col, k) == SumOf(r2, col, k)
    ensures IsSummaryOf(s, r2, col)
  {
  }

  /** Reordering the transaction table does not change either summary. */
  lemma AggregatePermutation(r1: seq<Entry>, r2: seq<Entry>, col: KeyColumn)
    requires multiset(r1) == multiset(r2)
    ensures Aggregate(r1, col) == Aggregate(r2, col)
  {
    forall k
      ensures CountOf(r1, col, k) == CountOf(r2, col, k)
      ensures SumOf(r1, col, k) == SumOf(r2, col, k)
      ensures k in KeysOf(r1, col) <==> k in KeysOf(r2, col)
    {
      CountSumPermutation(r1, r2, col, k);
      KeysOfCount(r1, col, k);
      KeysOfCount(r2, col, k);
    }
    SummaryTransfer(Aggregate(r1, col), r1, r2, col);
    SummaryUnique(Aggregate(r1, col), Aggregate(r2, col), r2, col);
  }

  /** An empty table has an empty summary. */
  lemma AggregateEmpty(col: KeyColumn)
    ensures Aggregate([], col) == []
  {
  }

  /** A single transaction gives one summary row whose total and mean are
      its amount and whose count is 1. */
  lemma AggregateSingle(e: Entry, col: KeyColumn)
    ensures Aggregate([e], col) == [Summary(KeyOf(e, col), e.amount, e.amount, 1)]
  {
    var rows := [e];
    var expected := [Summary(KeyOf(e, col), e.amount, e.amount, 1)];
    assert rows[1..] == [];
    KeysOfCons(rows, col);
    assert expected[0].key in SummaryKeys(expected);
    SummaryUnique(Aggregate(rows, col), expected, rows, col);
  }
}
