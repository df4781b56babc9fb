/** Two small worked inputs: one with a duplicated transaction number and an open issue, and
    the empty input. */
module Scenarios {
  import opened Wrappers
  import opened Sequences
  import opened Transactions
  import opened Dedup
  import opened Queries
  import opened Partition
  import opened Ranking
  import opened DataFetcher

  /** A sends 100.00 to B twice under transaction number 1; C sends 50.00 to A under number 2
      with the open issue 5. */
  function DuplicateFile(): seq<Transaction> {
    [Transaction(1, 10000, "A", "B", 0, false, ""),
     Transaction(1, 10000, "A", "B", 0, false, ""),
     Transaction(2, 5000, "C", "A", 5, false, "flagged")]
  }

  /** The total adds both copies of number 1, while the amount sent by A counts it once. */
  lemma DuplicateFileSums()
    ensures TotalTransactionAmount([DuplicateFile()]) == 25000
    ensures TotalAmountSentBy([DuplicateFile()], "A") == 10000
  {
    var s := DuplicateFile();
    var a := s[0];
    var one: Files := [s];
    assert |one[..0]| == 0;
    assert s[..2][..1] == [a];
    assert [a][..0] == [];
    assert Sum([a]) == 10000;
    assert s[..2][1] == a;
    assert Sum(s[..2]) == 20000;
    assert Sum(s) == 25000;
    assert WithName(Sender, s, "A") == s[..2];
    assert DedupBy(Mtn, [a]) == [a];
    assert DedupBy(Mtn, s[..2]) == [a];
    assert SentByOf(s, "A") == 10000;
  }

  lemma ThreeParties(role: Role, a: Transaction, b: Transaction, c: Transaction)
    ensures Parties(role, [a, b, c]) == {NameOf(role, a), NameOf(role, b), NameOf(role, c)}
  {
    var e: seq<Transaction> := [];
    assert e + [a] == [a] && [a] + [b] == [a, b] && [a, b] + [c] == [a, b, c];
    PartiesSnoc(role, e, a);
    PartiesSnoc(role, [a], b);
    PartiesSnoc(role, [a, b], c);
  }

  /** The clients are A, B and C. */
  lemma DuplicateFileClients()
    ensures UniqueClientsOf(DuplicateFile()) == 3
  {
    var s := DuplicateFile();
    UniqueClientsBounds(s);
    ThreeParties(Sender, s[0], s[1], s[2]);
    ThreeParties(Beneficiary, s[0], s[1], s[2]);
    assert Parties(Sender, s) + Parties(Beneficiary, s) == {"A", "B", "C"};
  }

  /** A, the beneficiary of the open issue 5, has an open compliance issue. */
  lemma DuplicateFileOpenIssue()
    ensures HasOpenComplianceIssues([DuplicateFile()], "A")
  {
    var s := DuplicateFile();
    assert s[2] in s;
    assert Involves(s[2], "A") && IssueStateOf(s[2]) == Open;
  }

  /** The second copy of number 1 is dropped. */
  lemma DuplicateFileDeduplicated()
    ensures DedupBy(Mtn, DuplicateFile()) == [DuplicateFile()[0], DuplicateFile()[2]]
  {
    var s := DuplicateFile();
    var a := s[0];
    assert s[..2][..1] == [a];
    assert DedupBy(Mtn, [a]) == [a];
    assert DedupBy(Mtn, s[..2]) == [a];
  }

  /** Two records with different senders: each sender's total is its own amount. */
  lemma TwoSenderTotals(a: Transaction, c: Transaction)
    requires a.senderFullName != c.senderFullName
    ensures SentTotal([a, c], a.senderFullName) == a.amount
    ensures SentTotal([a, c], c.senderFullName) == c.amount
  {
    WithNamePair(a, c, a.senderFullName);
    WithNamePair(a, c, c.senderFullName);
    SingleRecordFacts(a);
    SingleRecordFacts(c);
  }

  lemma TwoSenderParties(a: Transaction, c: Transaction)
    ensures Parties(Sender, [a, c]) == {a.senderFullName, c.senderFullName}
  {
    var e: seq<Transaction> := [];
    assert e + [a] == [a] && [a] + [c] == [a, c];
    PartiesSnoc(Sender, e, a);
    PartiesSnoc(Sender, [a], c);
  }

  /** After deduplication A has sent 100.00 and C 50.00, so A is the top sender. */
  lemma DuplicateFileTopSender()
    ensures TopSender(DuplicateFile()) == Some("A")
  {
    var s := DuplicateFile();
    DuplicateFileDeduplicated();
    TwoSenderTotals(s[0], s[2]);
    TwoSenderParties(s[0], s[2]);
    var w := TopSender(s);
    assert w.value in {"A", "C"};
    assert s[0] in DedupBy(Mtn, s);
  }

  /** With no records every sum and count is zero, the top sender is absent, the maximum of no
      files is zero and the maximum of one empty file fails. */
  lemma EmptyAnswers()
    ensures TotalTransactionAmount([[]]) == 0
    ensures CountUniqueClients([[]]) == 0
    ensures MaxTransactionAmount([]) == Success(0)
    ensures MaxTransactionAmount([[]]) == Failure(NullMaximum)
    ensures !HasOpenComplianceIssues([[]], "A")
    ensures TopSender([]) == None
  {
    var one: Files := [[]];
    assert |one[..0]| == 0;
    assert ClientNames([]) == [];
  }
}
