/** The single-file stream pipelines of `TransactionDataFetcher`: what each public method
    computes from the records of one parsed file. */
module Queries {
  import opened Wrappers
  import opened Sequences
  import opened Transactions
  import opened Dedup

  // ---------------------------------------------------------------- amounts

  /** Amount sent by `name` in one file: keep the records sent by `name`, keep the
      first record per transaction number, add up the amounts. */
  function SentByOf(s: seq<Transaction>, name: string): int {
    Sum(DedupBy(Mtn, WithName(Sender, s, name)))
  }

  /** A client who sent nothing has sent a total of zero. */
  lemma SentByNobodyIsZero(s: seq<Transaction>, name: string)
    requires forall t :: t in s ==> t.senderFullName != name
    ensures SentByOf(s, name) == 0
  {
    FilterNone(s, t => NameOf(Sender, t) == name);
  }

  /** `stream().map(amount).max(naturalOrder())`: the largest amount, absent for an empty file. */
  function MaxAmountOf(s: seq<Transaction>): (r: Option<int>)
    ensures r.None? <==> |s| == 0
    ensures r.Some? ==> forall t :: t in s ==> t.amount <= r.value
    ensures r.Some? ==> exists t :: t in s && t.amount == r.value
  {
    if |s| == 0 then None
    else
      var n := |s| - 1;
      assert s == s[..n] + [s[n]];
      var m := MaxAmountOf(s[..n]);
      if m.Some? && m.value >= s[n].amount then m else Some(s[n].amount)
  }

  // ---------------------------------------------------------------- clients

  /** `flatMap(t -> Stream.of(sender, beneficiary))`: both names of every record, in order. */
  function ClientNames(s: seq<Transaction>): seq<string> {
    if |s| == 0 then []
    else ClientNames(s[..|s| - 1]) + [s[|s| - 1].senderFullName, s[|s| - 1].beneficiaryFullName]
  }

  /** `distinct().count()` over both names of every record. */
  function UniqueClientsOf(s: seq<Transaction>): nat {
    |Distinct(ClientNames(s))|
  }

  lemma {:induction false} ClientNamesElems(s: seq<Transaction>)
    ensures Elems(ClientNames(s)) == Parties(Sender, s) + Parties(Beneficiary, s)
    ensures |ClientNames(s)| == 2 * |s|
  {
    if |s| > 0 {
      var n := |s| - 1;
      ClientNamesElems(s[..n]);
      assert s == s[..n] + [s[n]];
      PartiesSnoc(Sender, s[..n], s[n]);
      PartiesSnoc(Beneficiary, s[..n], s[n]);
      var prev := ClientNames(s[..n]);
      var x, y := s[n].senderFullName, s[n].beneficiaryFullName;
      assert ClientNames(s) == prev + [x, y];
      assert forall z :: z in prev + [x, y] <==> z in prev || z == x || z == y;
      assert Elems(prev + [x, y]) == Elems(prev) + {x, y};
    }
  }

  /** The unique-client count of a file is the number of names in the union of senders and
      beneficiaries; it is at least the larger and at most the sum of the two party counts,
      and at most two per record. */
  lemma UniqueClientsBounds(s: seq<Transaction>)
    ensures UniqueClientsOf(s) == |Parties(Sender, s) + Parties(Beneficiary, s)|
    ensures |Parties(Sender, s)| <= UniqueClientsOf(s)
    ensures |Parties(Beneficiary, s)| <= UniqueClientsOf(s)
    ensures UniqueClientsOf(s) <= |Parties(Sender, s)| + |Parties(Beneficiary, s)|
    ensures UniqueClientsOf(s) <= 2 * |s|
  {
    ClientNamesElems(s);
    DistinctCount(ClientNames(s));
    var a, b := Parties(Sender, s), Parties(Beneficiary, s);
    assert |a + b| == |a| + |b| - |a * b|;
    SubsetCardinality(a, a + b);
    SubsetCardinality(b, a + b);
  }

  lemma SubsetCardinality<T>(a: set<T>, b: set<T>)
    requires a <= b
    ensures |a| <= |b|
  {
    assert b == a + (b - a);
  }

  // ---------------------------------------------------------------- compliance issues

  /** Sender or beneficiary of `t` is `name`. */
  predicate Involves(t: Transaction, name: string) {
    t.senderFullName == name || t.beneficiaryFullName == name
  }

  /** `anyMatch(issueId != 0 && !issueSolved)`. */
  function AnyOpen(s: seq<Transaction>): (b: bool)
    ensures b <==> exists t :: t in s && IssueStateOf(t) == Open
  {
    if |s| == 0 then false
    else
      assert s == s[..|s| - 1] + [s[|s| - 1]];
      AnyOpen(s[..|s| - 1]) || IssueStateOf(s[|s| - 1]) == Open
  }

  /** Whether `name`, as sender or beneficiary, has a record with an open issue in one file. */
  function HasOpenIssueOf(s: seq<Transaction>, name: string): (b: bool)
    ensures b <==> exists t :: t in s && Involves(t, name) && IssueStateOf(t) == Open
    ensures (forall t :: t in s ==> !Involves(t, name)) ==> !b
  {
    AnyOpen(Filter(s, t => Involves(t, name)))
  }

  /** The ids of the open issues of one file, as a set. */
  function UnsolvedIdsOf(s: seq<Transaction>): (r: set<int>)
    ensures r == set t | t in s && IssueStateOf(t) == Open :: t.issueId
    ensures 0 !in r
  {
    if |s| == 0 then {}
    else
      var n := |s| - 1;
      assert forall u :: u in s <==> u in s[..n] || u == s[n];
      UnsolvedIdsOf(s[..n]) + (if IssueStateOf(s[n]) == Open then {s[n].issueId} else {})
  }

  /** The messages of the solved issues of one file: one per solved record, in record order. */
  function SolvedMessagesOf(s: seq<Transaction>): (r: seq<string>)
    ensures r == Messages(InState(s, Solved))
  {
    if |s| == 0 then []
    else
      var n := |s| - 1;
      SolvedMessagesOf(s[..n]) + (if IssueStateOf(s[n]) == Solved then [s[n].issueMessage] else [])
  }

  /** The three compliance states together account for every record. */
  lemma {:induction false} StatesPartition(s: seq<Transaction>)
    ensures |InState(s, NoIssue)| + |InState(s, Open)| + |InState(s, Solved)| == |s|
  {
    if |s| > 0 {
      StatesPartition(s[..|s| - 1]);
    }
  }

  lemma UnsolvedIdsSnoc(p: seq<Transaction>, t: Transaction)
    ensures UnsolvedIdsOf(p + [t]) == UnsolvedIdsOf(p) + (if IssueStateOf(t) == Open then {t.issueId} else {})
    ensures |InState(p + [t], Open)| == |InState(p, Open)| + (if IssueStateOf(t) == Open then 1 else 0)
  {
    assert (p + [t])[..|p|] == p;
  }

  /** Several open records may share an id, so there are at most as many ids as open records. */
  lemma {:induction false} UnsolvedIdsBound(s: seq<Transaction>)
    ensures |UnsolvedIdsOf(s)| <= |InState(s, Open)|
  {
    if |s| > 0 {
      var n := |s| - 1;
      var p, t := s[..n], s[n];
      assert s == p + [t];
      UnsolvedIdsBound(p);
      UnsolvedIdsSnoc(p, t);
      var ids := UnsolvedIdsOf(p);
      if t.issueId in ids {
        assert ids + {t.issueId} == ids;
      }
    }
  }

  /** A solved record contributes its message to the solved list. */
  lemma SolvedRecordListed(s: seq<Transaction>, t: Transaction)
    requires t in s && IssueStateOf(t) == Solved
    ensures t.issueMessage in SolvedMessagesOf(s)
  {
    var sol := InState(s, Solved);
    assert t in sol;
    var i :| 0 <= i < |sol| && sol[i] == t;
    assert Messages(sol)[i] == t.issueMessage;
  }

  /** Every record with an issue is open or solved and never both: an open record yields its id
      among the unsolved ids, a solved record yields one message, and the counts add up. */
  lemma IssuePartition(s: seq<Transaction>)
    ensures |SolvedMessagesOf(s)| + |InState(s, Open)| == |s| - |InState(s, NoIssue)|
    ensures |UnsolvedIdsOf(s)| <= |InState(s, Open)|
    ensures forall t :: t in s && t.issueId != 0 ==>
      (t in InState(s, Open) && t.issueId in UnsolvedIdsOf(s)) != (t in InState(s, Solved) && t.issueMessage in SolvedMessagesOf(s))
  {
    StatesPartition(s);
    UnsolvedIdsBound(s);
    forall t | t in s && IssueStateOf(t) == Solved
      ensures t.issueMessage in SolvedMessagesOf(s)
    {
      SolvedRecordListed(s, t);
    }
  }
}
