/** The two rankings read from a single file: the three largest amounts, and the sender
    with the largest total after deduplication by transaction number. */
module Ranking {
  import opened Wrappers
  import opened Sequences
  import opened Transactions
  import opened Dedup
  import opened Partition
  import opened Queries

  // ---------------------------------------------------------------- sorting

  predicate SortedDesc(s: seq<Transaction>) {
    forall i, j :: 0 <= i < j < |s| ==> s[i].amount >= s[j].amount
  }

  predicate StrictlyDesc(s: seq<Transaction>) {
    forall i, j :: 0 <= i < j < |s| ==> s[i].amount > s[j].amount
  }

  /** Place `x` after every record whose amount is at least as large (a stable insertion). */
  function Insert(x: Transaction, s: seq<Transaction>): seq<Transaction> {
    if |s| == 0 then [x]
    else if x.amount > s[0].amount then [x] + s
    else [s[0]] + Insert(x, s[1..])
  }

  /** `sorted(comparing(amount).reversed())`: a stable sort by descending amount. */
  function SortByAmountDesc(s: seq<Transaction>): seq<Transaction> {
    if |s| == 0 then [] else Insert(s[|s| - 1], SortByAmountDesc(s[..|s| - 1]))
  }

  lemma {:induction false} InsertPerm(x: Transaction, s: seq<Transaction>)
    ensures multiset(Insert(x, s)) == multiset(s) + multiset{x}
  {
    if |s| > 0 && x.amount <= s[0].amount {
      InsertPerm(x, s[1..]);
      assert s == [s[0]] + s[1..];
      assert multiset(s) == multiset{s[0]} + multiset(s[1..]);
    }
  }

  /** Every record of `Insert(x, s)` is `x` or a record of `s`. */
  lemma InsertElems(x: Transaction, s: seq<Transaction>, y: Transaction)
    requires y in Insert(x, s)
    ensures y in s || y == x
  {
    InsertPerm(x, s);
    assert y in multiset(Insert(x, s));
  }

  lemma {:induction false} InsertSpec(x: Transaction, s: seq<Transaction>)
    requires SortedDesc(s)
    ensures SortedDesc(Insert(x, s))
    ensures multiset(Insert(x, s)) == multiset(s) + multiset{x}
  {
    InsertPerm(x, s);
    if |s| > 0 && x.amount <= s[0].amount {
      var rest := Insert(x, s[1..]);
      InsertSpec(x, s[1..]);
      forall j | 0 <= j < |rest|
        ensures s[0].amount >= rest[j].amount
      {
        InsertElems(x, s[1..], rest[j]);
      }
    }
  }

  lemma {:induction false} InsertStrict(x: Transaction, s: seq<Transaction>)
    requires StrictlyDesc(s)
    requires forall t :: t in s ==> t.amount != x.amount
    ensures StrictlyDesc(Insert(x, s))
  {
    if |s| > 0 && x.amount <= s[0].amount {
      var rest := Insert(x, s[1..]);
      assert s == [s[0]] + s[1..];
      InsertStrict(x, s[1..]);
      forall j | 0 <= j < |rest|
        ensures s[0].amount > rest[j].amount
      {
        InsertElems(x, s[1..], rest[j]);
      }
    }
  }

  /** The sort is a permutation in descending order of amount. */
  lemma {:induction false} SortSpec(s: seq<Transaction>)
    ensures SortedDesc(SortByAmountDesc(s))
    ensures multiset(SortByAmountDesc(s)) == multiset(s)
  {
    SortPerm(s);
    SortSorted(s);
  }

  lemma {:induction false} SortPerm(s: seq<Transaction>)
    ensures multiset(SortByAmountDesc(s)) == multiset(s)
  {
    if |s| > 0 {
      var n := |s| - 1;
      var p, x := s[..n], s[n];
      calc {
        multiset(SortByAmountDesc(s));
        multiset(Insert(x, SortByAmountDesc(p)));
        { InsertPerm(x, SortByAmountDesc(p)); }
        multiset(SortByAmountDesc(p)) + multiset{x};
        { SortPerm(p); }
        multiset(p) + multiset{x};
        { assert s == p + [x]; }
        multiset(s);
      }
    }
  }

  lemma {:induction false} SortSorted(s: seq<Transaction>)
    ensures SortedDesc(SortByAmountDesc(s))
  {
    if |s| > 0 {
      var n := |s| - 1;
      SortSorted(s[..n]);
      InsertSpec(s[n], SortByAmountDesc(s[..n]));
    }
  }

  /** Sorting records with pairwise different amounts gives strictly decreasing amounts. */
  lemma {:induction false} SortStrict(s: seq<Transaction>)
    requires UniqueKeys(Amount, s)
    ensures StrictlyDesc(SortByAmountDesc(s))
  {
    if |s| > 0 {
      var n := |s| - 1;
      var sorted := SortByAmountDesc(s[..n]);
      SortStrict(s[..n]);
      SortSpec(s[..n]);
      forall t | t in sorted
        ensures t.amount != s[n].amount
      {
        assert t in multiset(sorted);
        var i :| 0 <= i < n && s[..n][i] == t;
      }
      InsertStrict(s[n], sorted);
    }
  }

  // ---------------------------------------------------------------- top three

  function Min(a: int, b: int): int {
    if a <= b then a else b
  }

  /** Keep the first record per amount, sort by descending amount, keep at most three. */
  function Top3ByAmount(s: seq<Transaction>): seq<Transaction> {
    var sorted := SortByAmountDesc(DedupBy(Amount, s));
    sorted[..Min(3, |sorted|)]
  }

  /** Sorting neither adds nor drops a record. */
  lemma SortKeepsRecords(s: seq<Transaction>)
    ensures |SortByAmountDesc(s)| == |s|
    ensures forall t :: t in SortByAmountDesc(s) <==> t in s
  {
    SortSpec(s);
    var sorted := SortByAmountDesc(s);
    assert |sorted| == |multiset(sorted)| == |multiset(s)| == |s|;
    forall t
      ensures t in sorted <==> t in s
    {
      assert t in sorted <==> t in multiset(sorted);
      assert t in s <==> t in multiset(s);
    }
  }

  /** The sorted deduplicated records: strictly decreasing, one per distinct amount. */
  lemma SortedDistinctAmounts(s: seq<Transaction>)
    ensures StrictlyDesc(SortByAmountDesc(DedupBy(Amount, s)))
    ensures |SortByAmountDesc(DedupBy(Amount, s))| == |Keys(Amount, s)|
    ensures forall t :: t in SortByAmountDesc(DedupBy(Amount, s)) <==> t in DedupBy(Amount, s)
  {
    SortStrict(DedupBy(Amount, s));
    SortKeepsRecords(DedupBy(Amount, s));
    DedupLength(Amount, s);
  }

  /** In a strictly decreasing list, a record's amount is among the first three records or
      below the third. */
  lemma PrefixOfStrict(sorted: seq<Transaction>, j: int)
    requires StrictlyDesc(sorted) && 0 <= j < |sorted|
    ensures var r := sorted[..Min(3, |sorted|)];
      sorted[j] in r || (|r| == 3 && sorted[j].amount < r[2].amount)
  {
    var r := sorted[..Min(3, |sorted|)];
    if j < |r| {
      assert r[j] == sorted[j];
    } else {
      assert r[2] == sorted[2];
    }
  }

  /** Every input amount is among the top three, or smaller than all three of them. */
  lemma Top3Complete(s: seq<Transaction>, t: Transaction)
    requires t in s
    ensures t.amount in Keys(Amount, Top3ByAmount(s)) || (|Top3ByAmount(s)| == 3 && t.amount < Top3ByAmount(s)[2].amount)
  {
    var d := DedupBy(Amount, s);
    var sorted := SortByAmountDesc(d);
    SortedDistinctAmounts(s);
    assert t.amount in Keys(Amount, d);
    var u :| u in d && KeyOf(Amount, u) == t.amount;
    assert u in sorted;
    var j :| 0 <= j < |sorted| && sorted[j] == u;
    PrefixOfStrict(sorted, j);
  }

  /** The result holds min(3, #distinct amounts) records of the input, each the first record
      with its amount, in strictly decreasing order of amount; every input amount is either
      among them or smaller than all three. */
  lemma Top3Spec(s: seq<Transaction>)
    ensures |Top3ByAmount(s)| == Min(3, |Keys(Amount, s)|)
    ensures StrictlyDesc(Top3ByAmount(s))
    ensures forall t :: t in Top3ByAmount(s) ==> t in s
    ensures forall t :: t in Top3ByAmount(s) ==> exists i :: FirstOccurrence(Amount, s, i) && s[i] == t
    ensures forall t :: t in s ==>
      t.amount in Keys(Amount, Top3ByAmount(s)) || (|Top3ByAmount(s)| == 3 && t.amount < Top3ByAmount(s)[2].amount)
  {
    Top3Shape(s);
    forall t | t in s
      ensures t.amount in Keys(Amount, Top3ByAmount(s)) || (|Top3ByAmount(s)| == 3 && t.amount < Top3ByAmount(s)[2].amount)
    {
      Top3Complete(s, t);
    }
  }

  /** The length, order and provenance of the top three. */
  lemma Top3Shape(s: seq<Transaction>)
    ensures |Top3ByAmount(s)| == Min(3, |Keys(Amount, s)|)
    ensures StrictlyDesc(Top3ByAmount(s))
    ensures forall t :: t in Top3ByAmount(s) ==> t in DedupBy(Amount, s)
    ensures forall t :: t in Top3ByAmount(s) ==> exists i :: FirstOccurrence(Amount, s, i) && s[i] == t
  {
    var sorted := SortByAmountDesc(DedupBy(Amount, s));
    SortedDistinctAmounts(s);
    DedupKeepsOnlyFirst(Amount, s);
    assert forall t :: t in Top3ByAmount(s) ==> t in sorted;
  }

  // ---------------------------------------------------------------- top sender

  /** The total a name sent within an already deduplicated list. */
  function SentTotal(d: seq<Transaction>, name: string): int {
    Sum(WithName(Sender, d, name))
  }

  /** `max(comparingByValue())` over the per-sender totals; on a tie the earlier name wins. */
  function BestSender(names: seq<string>, d: seq<Transaction>): (w: string)
    requires |names| > 0
    ensures w in names
    ensures forall y :: y in names ==> SentTotal(d, y) <= SentTotal(d, w)
  {
    if |names| == 1 then names[0]
    else
      assert names == [names[0]] + names[1..];
      var b := BestSender(names[1..], d);
      if SentTotal(d, names[0]) >= SentTotal(d, b) then names[0] else b
  }

  /** Deduplicate by transaction number, total the amounts per sender, return a sender with
      the largest total; nothing for an empty file. */
  function TopSender(s: seq<Transaction>): (r: Option<string>)
    ensures r.None? <==> |s| == 0
    ensures r.Some? ==> r.value in Parties(Sender, DedupBy(Mtn, s))
    ensures r.Some? ==> forall t :: t in DedupBy(Mtn, s) ==>
      SentTotal(DedupBy(Mtn, s), t.senderFullName) <= SentTotal(DedupBy(Mtn, s), r.value)
  {
    var d := DedupBy(Mtn, s);
    NamesElems(Sender, d);
    if |s| == 0 then None
    else
      assert s[0] in s && s[0].mtn in Keys(Mtn, d);
      Some(BestSender(Distinct(Names(Sender, d)), d))
  }

  // ---------------------------------------------------------------- consistency of the sums

  /** Duplicates of one transaction number name the same sender. */
  predicate SenderConsistent(s: seq<Transaction>) {
    forall i, j :: 0 <= i < |s| && 0 <= j < |s| && s[i].mtn == s[j].mtn ==> s[i].senderFullName == s[j].senderFullName
  }

  /** When duplicates agree on the sender, filtering by sender and deduplicating commute. */
  lemma {:induction false} DedupCommutesWithSender(s: seq<Transaction>, name: string)
    requires SenderConsistent(s)
    ensures DedupBy(Mtn, WithName(Sender, s, name)) == WithName(Sender, DedupBy(Mtn, s), name)
  {
    if |s| > 0 {
      var n := |s| - 1;
      var p, t := s[..n], s[n];
      assert s == p + [t];
      assert SenderConsistent(p);
      DedupCommutesWithSender(p, name);
      WithNameSnoc(Sender, p, t, name);
      DedupSnoc(Mtn, p, t);
      WithNameSnoc(Sender, DedupBy(Mtn, p), t, name);
      if t.senderFullName == name {
        SentKeysAgree(s, name);
        DedupSnoc(Mtn, WithName(Sender, p, name), t);
      } else {
        assert WithName(Sender, s, name) == WithName(Sender, p, name);
      }
    }
  }

  /** For the last record's sender, its transaction number was seen before among that sender's
      earlier records exactly when it was seen among all earlier records. */
  lemma SentKeysAgree(s: seq<Transaction>, name: string)
    requires SenderConsistent(s)
    requires |s| > 0 && s[|s| - 1].senderFullName == name
    ensures s[|s| - 1].mtn in Keys(Mtn, WithName(Sender, s[..|s| - 1], name)) <==> s[|s| - 1].mtn in Keys(Mtn, s[..|s| - 1])
  {
    var n := |s| - 1;
    var p, t := s[..n], s[n];
    if t.mtn in Keys(Mtn, p) {
      var u :| u in p && u.mtn == t.mtn;
      var i :| 0 <= i < n && p[i] == u;
      assert s[i] == u;
      assert u in WithName(Sender, p, name);
    }
  }

  /** When duplicates agree on the sender, the single-file sent-by total equals the sender's
      total in the grouping that the top-sender ranking uses. */
  lemma SentByAgreesWithGrouping(s: seq<Transaction>, name: string)
    requires SenderConsistent(s)
    ensures SentByOf(s, name) == SentTotal(DedupBy(Mtn, s), name)
  {
    DedupCommutesWithSender(s, name);
  }

  /** The sent-by totals of the names in `ks`, added. */
  function SentByEach(ks: seq<string>, s: seq<Transaction>): int {
    if |ks| == 0 then 0 else SentByOf(s, ks[0]) + SentByEach(ks[1..], s)
  }

  /** When duplicates agree on the sender, the sent-by totals of all distinct senders add up
      to the total amount of the deduplicated file. */
  lemma {:induction false} SumConsistency(s: seq<Transaction>, ks: seq<string>)
    requires SenderConsistent(s)
    requires NoDups(ks)
    requires Parties(Sender, DedupBy(Mtn, s)) <= Elems(ks)
    ensures SentByEach(ks, s) == Sum(DedupBy(Mtn, s))
  {
    SentByEachPerName(ks, s);
    AmountPerNameCovers(Sender, ks, DedupBy(Mtn, s));
  }

  /** A single record is kept by deduplication and sums to its own amount. */
  lemma SingleRecordFacts(t: Transaction)
    ensures DedupBy(Mtn, [t]) == [t]
    ensures Sum([t]) == t.amount
  {
    assert [t][..0] == [];
  }

  /** Filtering two records by a name keeps each record whose sender has that name. */
  lemma WithNamePair(a: Transaction, b: Transaction, name: string)
    ensures WithName(Sender, [a, b], name) ==
      (if a.senderFullName == name then [a] else []) + (if b.senderFullName == name then [b] else [])
  {
    assert [a][..0] == [];
    assert [a] + [b] == [a, b];
    WithNameSnoc(Sender, [a], b, name);
  }

  /** Two records with different senders: each sender's amount is that of its own record. */
  lemma SentByOfPair(a: Transaction, b: Transaction)
    requires a.senderFullName != b.senderFullName
    ensures SentByOf([a, b], a.senderFullName) == a.amount
    ensures SentByOf([a, b], b.senderFullName) == b.amount
  {
    WithNamePair(a, b, a.senderFullName);
    WithNamePair(a, b, b.senderFullName);
    SingleRecordFacts(a);
    SingleRecordFacts(b);
  }

  /** Two records with the same transaction number: only the first is kept. */
  lemma DedupPair(a: Transaction, b: Transaction)
    requires a.mtn == b.mtn
    ensures DedupBy(Mtn, [a, b]) == [a]
    ensures Sum(DedupBy(Mtn, [a, b])) == a.amount
  {
    assert [a, b][..1] == [a];
    SingleRecordFacts(a);
    assert DedupBy(Mtn, [a, b]) == [a];
  }

  /** Without `SenderConsistent` the sums disagree: transaction number 1 sent by A (100.00) and
      again by B (50.00) gives sent-by amounts 100.00 and 50.00, while the deduplicated file
      totals 100.00, because the per-sender filter runs before deduplication. */
  lemma SentByNeedsSenderConsistency()
    ensures var s := [Transaction(1, 10000, "A", "C", 0, false, ""), Transaction(1, 5000, "B", "C", 0, false, "")];
      !SenderConsistent(s) &&
      SentByOf(s, "A") + SentByOf(s, "B") == 15000 && Sum(DedupBy(Mtn, s)) == 10000
  {
    var a, b := Transaction(1, 10000, "A", "C", 0, false, ""), Transaction(1, 5000, "B", "C", 0, false, "");
    var s := [a, b];
    assert s[0].mtn == s[1].mtn && s[0].senderFullName != s[1].senderFullName;
    SentByOfPair(a, b);
    DedupPair(a, b);
  }

  lemma {:induction false} SentByEachPerName(ks: seq<string>, s: seq<Transaction>)
    requires SenderConsistent(s)
    ensures SentByEach(ks, s) == AmountPerName(Sender, ks, DedupBy(Mtn, s))
  {
    if |ks| > 0 {
      SentByAgreesWithGrouping(s, ks[0]);
      SentByEachPerName(ks[1..], s);
    }
  }

  /** When duplicates agree on the sender, the top sender has the largest sent-by total among
      all senders of the file. */
  lemma TopSenderMaximizesSentBy(s: seq<Transaction>, y: string)
    requires SenderConsistent(s)
    requires y in Parties(Sender, s)
    ensures TopSender(s).Some?
    ensures SentByOf(s, y) <= SentByOf(s, TopSender(s).value)
  {
    var d := DedupBy(Mtn, s);
    var t :| t in s && t.senderFullName == y;
    DedupKeepsFirst(Mtn, s);
    assert t.mtn in Keys(Mtn, d);
    var u :| u in d && u.mtn == t.mtn;
    var i :| 0 <= i < |s| && s[i] == u;
    var j :| 0 <= j < |s| && s[j] == t;
    assert u.senderFullName == y;
    SentByAgreesWithGrouping(s, y);
    SentByAgreesWithGrouping(s, TopSender(s).value);
  }
}
