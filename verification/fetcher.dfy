/** The eight directory-reading methods of `TransactionDataFetcher`, as written: the per-file
    stream pipelines of `Queries` and `Grouping`, combined across the parsed files in directory
    order exactly as the accumulation loops combine them. The two methods that read the single
    file `transactions.json` are `Ranking.Top3ByAmount` and `Ranking.TopSender`. */
module DataFetcher {
  import opened Wrappers
  import opened Sequences
  import opened Transactions
  import opened Queries
  import opened Grouping

  /** `NullMaximum`: an empty file makes `max(...).orElse(null)` hand null to `BigDecimal.add`.
      `NoRecords`: there is no record to take a maximum of. */
  datatype FetchError = NullMaximum | NoRecords

  /** The parsed contents of the files, one sequence of records per file, in directory order. */
  type Files = seq<seq<Transaction>>

  // ---------------------------------------------------------------- getTotalTransactionAmount

  function TotalTransactionAmount(files: Files): int {
    if |files| == 0 then 0
    else TotalTransactionAmount(files[..|files| - 1]) + Sum(files[|files| - 1])
  }

  /** Every record of every file is added once; nothing is deduplicated. */
  lemma {:induction false} TotalIsSumOfAllRecords(files: Files)
    ensures TotalTransactionAmount(files) == Sum(Flatten(files))
  {
    if |files| > 0 {
      var n := |files| - 1;
      TotalIsSumOfAllRecords(files[..n]);
      SumAppend(Flatten(files[..n]), files[n]);
    }
  }

  /** The total of a directory is the total of its first files plus that of the rest. */
  lemma TotalAdditive(a: Files, b: Files)
    ensures TotalTransactionAmount(a + b) == TotalTransactionAmount(a) + TotalTransactionAmount(b)
  {
    TotalIsSumOfAllRecords(a);
    TotalIsSumOfAllRecords(b);
    TotalIsSumOfAllRecords(a + b);
    FlattenAppend(a, b);
    SumAppend(Flatten(a), Flatten(b));
  }

  // ---------------------------------------------------------------- getTotalTransactionAmountSentBy

  /** Each file is filtered and deduplicated on its own; the per-file totals are added. */
  function TotalAmountSentBy(files: Files, name: string): int {
    if |files| == 0 then 0
    else TotalAmountSentBy(files[..|files| - 1], name) + SentByOf(files[|files| - 1], name)
  }

  /** A client who sent nothing in any file has sent a total of zero. */
  lemma {:induction false} SentByNobodyIsZeroAcrossFiles(files: Files, name: string)
    requires forall t :: t in Flatten(files) ==> t.senderFullName != name
    ensures TotalAmountSentBy(files, name) == 0
  {
    if |files| > 0 {
      var n := |files| - 1;
      assert Flatten(files) == Flatten(files[..n]) + files[n];
      SentByNobodyIsZeroAcrossFiles(files[..n], name);
      SentByNobodyIsZero(files[n], name);
    }
  }

  /** The per-file totals are added, so splitting the directory anywhere splits the answer. */
  lemma {:induction false} TotalAmountSentByAdditive(a: Files, b: Files, name: string)
    ensures TotalAmountSentBy(a + b, name) == TotalAmountSentBy(a, name) + TotalAmountSentBy(b, name)
  {
    if |b| == 0 {
      assert a + b == a;
    } else {
      var n := |b| - 1;
      assert (a + b)[..|a + b| - 1] == a + b[..n];
      assert (a + b)[|a + b| - 1] == b[n];
      TotalAmountSentByAdditive(a, b[..n], name);
    }
  }

  // ---------------------------------------------------------------- getMaxTransactionAmount

  /** The per-file maxima are added to a running total that starts at zero; an empty file
      fails. */
  function MaxTransactionAmount(files: Files): Result<int, FetchError> {
    if |files| == 0 then Success(0)
    else
      match MaxTransactionAmount(files[..|files| - 1])
      case Failure(e) => Failure(e)
      case Success(acc) =>
        match MaxAmountOf(files[|files| - 1])
        case None => Failure(NullMaximum)
        case Some(m) => Success(acc + m)
  }

  /** On two parts that both succeed, the answer for the whole directory is the sum of the
      two answers: the loop adds per-file maxima. */
  lemma {:induction false} MaxTransactionAmountAdditive(a: Files, b: Files)
    requires MaxTransactionAmount(a).Success? && MaxTransactionAmount(b).Success?
    ensures MaxTransactionAmount(a + b) == Success(MaxTransactionAmount(a).value + MaxTransactionAmount(b).value)
  {
    if |b| == 0 {
      assert a + b == a;
    } else {
      var n := |b| - 1;
      assert (a + b)[..|a + b| - 1] == a + b[..n];
      assert (a + b)[|a + b| - 1] == b[n];
      MaxTransactionAmountAdditive(a, b[..n]);
    }
  }

  /** No files give zero; the call fails exactly when some file is empty; for one non-empty file
      the result is its largest amount. */
  lemma {:induction false} MaxTransactionAmountSpec(files: Files)
    ensures |files| == 0 ==> MaxTransactionAmount(files) == Success(0)
    ensures MaxTransactionAmount(files).Failure? <==> exists i :: 0 <= i < |files| && |files[i]| == 0
    ensures |files| == 1 && |files[0]| > 0 ==>
      MaxTransactionAmount(files).Success? &&
      (forall t :: t in files[0] ==> t.amount <= MaxTransactionAmount(files).value) &&
      (exists t :: t in files[0] && t.amount == MaxTransactionAmount(files).value)
  {
    if |files| > 0 {
      var n := |files| - 1;
      MaxTransactionAmountSpec(files[..n]);
      assert forall i :: 0 <= i < n ==> files[..n][i] == files[i];
      if |files| == 1 {
        assert files[..n] == [];
      }
    }
  }

  // ---------------------------------------------------------------- countUniqueClients

  /** The per-file unique-client counts are added. */
  function CountUniqueClients(files: Files): int {
    if |files| == 0 then 0
    else CountUniqueClients(files[..|files| - 1]) + UniqueClientsOf(files[|files| - 1])
  }

  /** The per-file counts are added, so splitting the directory anywhere splits the answer. */
  lemma {:induction false} CountUniqueClientsAdditive(a: Files, b: Files)
    ensures CountUniqueClients(a + b) == CountUniqueClients(a) + CountUniqueClients(b)
  {
    if |b| == 0 {
      assert a + b == a;
    } else {
      var n := |b| - 1;
      assert (a + b)[..|a + b| - 1] == a + b[..n];
      assert (a + b)[|a + b| - 1] == b[n];
      CountUniqueClientsAdditive(a, b[..n]);
    }
  }

  // ---------------------------------------------------------------- hasOpenComplianceIssues

  /** Every file overwrites the answer of the previous one, so only the last file decides. */
  function HasOpenComplianceIssues(files: Files, name: string): (b: bool)
    ensures b <==> |files| > 0 && exists t :: t in files[|files| - 1] && Involves(t, name) && IssueStateOf(t) == Open
  {
    if |files| == 0 then false else HasOpenIssueOf(files[|files| - 1], name)
  }

  // ---------------------------------------------------------------- getTransactionsByBeneficiaryName

  /** Each file is grouped on its own and its groups are appended to the accumulated ones. */
  function TransactionsByBeneficiaryName(files: Files): map<string, seq<Transaction>> {
    if |files| == 0 then map[]
    else MergeGroups(TransactionsByBeneficiaryName(files[..|files| - 1]), GroupByBeneficiary(files[|files| - 1]))
  }

  /** The accumulated grouping is the grouping of all records, files concatenated in order:
      its keys are exactly the beneficiaries present, and each key maps to exactly the records
      with that beneficiary, in order. */
  lemma {:induction false} TransactionsByBeneficiaryNameIsGrouping(files: Files)
    ensures TransactionsByBeneficiaryName(files) == GroupByBeneficiary(Flatten(files))
    ensures TransactionsByBeneficiaryName(files).Keys == Parties(Beneficiary, Flatten(files))
    ensures forall b :: b in TransactionsByBeneficiaryName(files) ==>
      TransactionsByBeneficiaryName(files)[b] == WithName(Beneficiary, Flatten(files), b)
  {
    if |files| > 0 {
      var n := |files| - 1;
      TransactionsByBeneficiaryNameIsGrouping(files[..n]);
      MergeGroupsOfParts(Flatten(files[..n]), files[n]);
    }
    GroupByBeneficiaryIsPartition(Flatten(files));
  }

  // ---------------------------------------------------------------- getUnsolvedIssueIds

  /** The per-file sets of open issue ids, united. */
  function UnsolvedIssueIds(files: Files): set<int> {
    if |files| == 0 then {}
    else UnsolvedIssueIds(files[..|files| - 1]) + UnsolvedIdsOf(files[|files| - 1])
  }

  /** The ids are those of the open records of all files, and never the no-issue id 0. */
  lemma {:induction false} UnsolvedIssueIdsOfAllFiles(files: Files)
    ensures UnsolvedIssueIds(files) == UnsolvedIdsOf(Flatten(files))
    ensures 0 !in UnsolvedIssueIds(files)
  {
    if |files| > 0 {
      var n := |files| - 1;
      UnsolvedIssueIdsOfAllFiles(files[..n]);
      var a, b := Flatten(files[..n]), files[n];
      assert forall t :: t in a + b <==> t in a || t in b;
    }
  }

  // ---------------------------------------------------------------- getAllSolvedIssueMessages

  /** The per-file lists of solved messages, appended in file order. */
  function AllSolvedIssueMessages(files: Files): seq<string> {
    if |files| == 0 then []
    else AllSolvedIssueMessages(files[..|files| - 1]) + SolvedMessagesOf(files[|files| - 1])
  }

  /** The solved messages of several parts, in order, are those of their concatenation. */
  lemma SolvedMessagesAppend(a: seq<Transaction>, b: seq<Transaction>)
    ensures SolvedMessagesOf(a + b) == SolvedMessagesOf(a) + SolvedMessagesOf(b)
  {
    FilterAppend(a, b, t => IssueStateOf(t) == Solved);
    assert InState(a + b, Solved) == InState(a, Solved) + InState(b, Solved);
    MessagesAppend(InState(a, Solved), InState(b, Solved));
  }

  /** The list holds one message per solved record of all files, in file and record order. */
  lemma {:induction false} AllSolvedIssueMessagesOfAllFiles(files: Files)
    ensures AllSolvedIssueMessages(files) == SolvedMessagesOf(Flatten(files))
    ensures AllSolvedIssueMessages(files) == Messages(InState(Flatten(files), Solved))
  {
    if |files| > 0 {
      var n := |files| - 1;
      AllSolvedIssueMessagesOfAllFiles(files[..n]);
      SolvedMessagesAppend(Flatten(files[..n]), files[n]);
    }
  }
}
