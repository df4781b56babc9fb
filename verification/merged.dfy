/** Merge-then-query versions of four methods whose accumulation loops combine the files
    per file. For the highest amount, the unique-client count and the open-issue check, the
    merged version has the property the method's doc comment promises; for the amount sent
    by a client it has the property the per-file deduplication by transaction number points
    to, since that comment is silent on duplicates. Each comes with a concrete directory on
    which the as-written loop differs. */
module Merged {
  import opened Wrappers
  import opened Sequences
  import opened Transactions
  import opened Dedup
  import opened Queries
  import opened DataFetcher

  /** A directory has no records at all exactly when every file in it is empty. */
  lemma FlattenEmpty(files: Files)
    ensures |Flatten(files)| == 0 <==> forall i :: 0 <= i < |files| ==> |files[i]| == 0
  {
    var all := Flatten(files);
    if |all| > 0 {
      InFlatten(files, all[0]);
    }
    forall i | 0 <= i < |files| && |files[i]| > 0
      ensures |all| > 0
    {
      InFlatten(files, files[i][0]);
    }
  }

  // ---------------------------------------------------------------- highest amount

  /** The highest amount over the records of all files. */
  function MaxAmountMerged(files: Files): Result<int, FetchError> {
    match MaxAmountOf(Flatten(files))
    case None => Failure(NoRecords)
    case Some(m) => Success(m)
  }

  /** The merged maximum is at least every amount of every file and is one of them; it fails
      only when there is no record at all. */
  lemma MaxAmountMergedSpec(files: Files)
    ensures MaxAmountMerged(files).Failure? <==> forall i :: 0 <= i < |files| ==> |files[i]| == 0
    ensures MaxAmountMerged(files).Success? ==>
      forall i, t :: 0 <= i < |files| && t in files[i] ==> t.amount <= MaxAmountMerged(files).value
    ensures MaxAmountMerged(files).Success? ==>
      exists i, t :: 0 <= i < |files| && t in files[i] && t.amount == MaxAmountMerged(files).value
  {
    FlattenEmpty(files);
    var all := Flatten(files);
    forall i, t | 0 <= i < |files| && t in files[i]
      ensures t in all
    {
      InFlatten(files, t);
    }
    if MaxAmountMerged(files).Success? {
      var t :| t in all && t.amount == MaxAmountMerged(files).value;
      InFlatten(files, t);
    }
  }

  /** Two files whose largest amounts are 100.00 and 50.00: the loop answers 150.00, an amount
      no transaction has, while the merged maximum is 100.00. */
  lemma MaxAddsPerFileMaxima()
    ensures var files := [[Transaction(1, 10000, "A", "B", 0, false, "")],
                          [Transaction(2, 5000, "C", "D", 0, false, "")]];
      MaxTransactionAmount(files) == Success(15000) && MaxAmountMerged(files) == Success(10000)
  {
    var files := [[Transaction(1, 10000, "A", "B", 0, false, "")],
                  [Transaction(2, 5000, "C", "D", 0, false, "")]];
    assert files[..1] == [files[0]];
    assert files[..1][..0] == [];
    assert Flatten(files) == files[0] + files[1];
  }

  // ---------------------------------------------------------------- unique clients

  /** The number of distinct names over the records of all files. */
  function CountUniqueClientsMerged(files: Files): nat {
    UniqueClientsOf(Flatten(files))
  }

  /** The clients of two parts together are the clients of either part. */
  lemma ClientsAppend(a: seq<Transaction>, b: seq<Transaction>)
    ensures Parties(Sender, a + b) + Parties(Beneficiary, a + b)
         == (Parties(Sender, a) + Parties(Beneficiary, a)) + (Parties(Sender, b) + Parties(Beneficiary, b))
  {
    PartiesAppend(Sender, a, b);
    PartiesAppend(Beneficiary, a, b);
  }

  /** The merged count is the number of distinct senders and beneficiaries of all files. */
  lemma CountUniqueClientsMergedSpec(files: Files)
    ensures CountUniqueClientsMerged(files) == |Parties(Sender, Flatten(files)) + Parties(Beneficiary, Flatten(files))|
    ensures CountUniqueClientsMerged(files) <= CountUniqueClients(files)
  {
    UniqueClientsBounds(Flatten(files));
    MergedCountBelowLoop(files);
  }

  /** The loop's per-file sum never undercounts the distinct clients of all files. */
  lemma {:induction false} MergedCountBelowLoop(files: Files)
    ensures |Parties(Sender, Flatten(files)) + Parties(Beneficiary, Flatten(files))| <= CountUniqueClients(files)
  {
    if |files| > 0 {
      var n := |files| - 1;
      var a, b := Flatten(files[..n]), files[n];
      MergedCountBelowLoop(files[..n]);
      UniqueClientsBounds(b);
      ClientsAppend(a, b);
      var ca := Parties(Sender, a) + Parties(Beneficiary, a);
      var cb := Parties(Sender, b) + Parties(Beneficiary, b);
      assert |ca + cb| == |ca| + |cb| - |ca * cb|;
    }
  }

  /** The same transfer from A to B in two files: the loop counts four clients, the merged
      count two. */
  lemma UniqueClientsAddedAcrossFiles()
    ensures var f := [Transaction(1, 10000, "A", "B", 0, false, "")];
      CountUniqueClients([f, f]) == 4 && CountUniqueClientsMerged([f, f]) == 2
  {
    var t := Transaction(1, 10000, "A", "B", 0, false, "");
    var f: seq<Transaction> := [t];
    var one: Files := [f];
    assert [f, f][..1] == one;
    assert |one[..0]| == 0;
    var e: seq<Transaction> := [];
    assert e + [t] == f;
    PartiesSnoc(Sender, e, t);
    PartiesSnoc(Beneficiary, e, t);
    UniqueClientsBounds(f);
    assert Parties(Sender, f) + Parties(Beneficiary, f) == {"A", "B"};
    assert UniqueClientsOf(f) == 2;
    assert CountUniqueClients(one) == 2;
    assert Flatten(one) == f;
    assert Flatten([f, f]) == f + f;
    CountUniqueClientsMergedSpec([f, f]);
    ClientsAppend(f, f);
  }

  // ---------------------------------------------------------------- open compliance issues

  /** Whether the client has a record with an open issue in any file. */
  function HasOpenComplianceIssuesMerged(files: Files, name: string): bool {
    HasOpenIssueOf(Flatten(files), name)
  }

  /** The merged answer is true exactly when some file has an open issue for the client. */
  lemma HasOpenComplianceIssuesMergedSpec(files: Files, name: string)
    ensures HasOpenComplianceIssuesMerged(files, name) <==> exists i :: 0 <= i < |files| && HasOpenIssueOf(files[i], name)
  {
    if HasOpenComplianceIssuesMerged(files, name) {
      var t :| t in Flatten(files) && Involves(t, name) && IssueStateOf(t) == Open;
      InFlatten(files, t);
    }
    forall i | 0 <= i < |files| && HasOpenIssueOf(files[i], name)
      ensures HasOpenComplianceIssuesMerged(files, name)
    {
      var t :| t in files[i] && Involves(t, name) && IssueStateOf(t) == Open;
      InFlatten(files, t);
    }
  }

  /** An open issue of A in the first file, no issue in the second: the loop answers false. */
  lemma OpenIssueOverwrittenByLaterFile()
    ensures var files := [[Transaction(1, 10000, "A", "B", 7, false, "open")],
                          [Transaction(2, 5000, "C", "D", 0, false, "")]];
      !HasOpenComplianceIssues(files, "A") && HasOpenComplianceIssuesMerged(files, "A")
  {
    var t0, t1 := Transaction(1, 10000, "A", "B", 7, false, "open"), Transaction(2, 5000, "C", "D", 0, false, "");
    var files := [[t0], [t1]];
    assert forall t :: t in [t1] ==> t == t1;
    assert !Involves(t1, "A");
    assert !HasOpenIssueOf([t1], "A");
    assert Involves(t0, "A") && IssueStateOf(t0) == Open;
    assert t0 in files[0];
    assert HasOpenIssueOf(files[0], "A");
    HasOpenComplianceIssuesMergedSpec(files, "A");
  }

  /** The same two files in the other order: the loop's answer flips to true, so it depends on
      the order in which the directory stream lists the files. */
  lemma OpenIssueDependsOnFileOrder()
    ensures var f0, f1 := [Transaction(1, 10000, "A", "B", 7, false, "open")],
                          [Transaction(2, 5000, "C", "D", 0, false, "")];
      !HasOpenComplianceIssues([f0, f1], "A") && HasOpenComplianceIssues([f1, f0], "A")
  {
    var t0, t1 := Transaction(1, 10000, "A", "B", 7, false, "open"), Transaction(2, 5000, "C", "D", 0, false, "");
    OpenIssueOverwrittenByLaterFile();
    assert t0 in [t0] && Involves(t0, "A") && IssueStateOf(t0) == Open;
  }

  // ---------------------------------------------------------------- amount sent by a client

  /** Filter and deduplicate the records of all files together, then add. */
  function TotalAmountSentByMerged(files: Files, name: string): int {
    SentByOf(Flatten(files), name)
  }

  /** Reading a file a second time adds no transaction number, so the merged total is unchanged. */
  lemma SentByMergedIgnoresRepeatedFile(files: Files, i: int, name: string)
    requires 0 <= i < |files|
    ensures TotalAmountSentByMerged(files + [files[i]], name) == TotalAmountSentByMerged(files, name)
  {
    var all, f := Flatten(files), files[i];
    assert (files + [f])[..|files|] == files;
    assert Flatten(files + [f]) == all + f;
    var p := t => NameOf(Sender, t) == name;
    FilterAppend(all, f, p);
    forall t | t in Filter(f, p)
      ensures KeyOf(Mtn, t) in Keys(Mtn, Filter(all, p))
    {
      InFlatten(files, t);
    }
    DedupAbsorbsSeenKeys(Mtn, Filter(all, p), Filter(f, p));
  }

  /** The same transfer of 100.00 by A in two files: the loop reports 200.00 sent, the merged
      total 100.00. */
  lemma SentByCountsRepeatedFileTwice()
    ensures var f := [Transaction(1, 10000, "A", "B", 0, false, "")];
      TotalAmountSentBy([f, f], "A") == 20000 && TotalAmountSentByMerged([f, f], "A") == 10000
  {
    var t := Transaction(1, 10000, "A", "B", 0, false, "");
    var f: seq<Transaction> := [t];
    var one: Files := [f];
    var two: Files := [f, f];
    assert f[..0] == [];
    assert WithName(Sender, f, "A") == f;
    DedupOfUnique(Mtn, f);
    assert Sum(f) == 10000;
    assert SentByOf(f, "A") == 10000;
    assert two[..1] == one;
    assert |one[..0]| == 0;
    assert TotalAmountSentBy(one, "A") == 10000;
    assert TotalAmountSentBy(two, "A") == 20000;
    assert Flatten(one) == f;
    assert TotalAmountSentByMerged(one, "A") == 10000;
    assert one + [one[0]] == two;
    SentByMergedIgnoresRepeatedFile(one, 0, "A");
  }
}
