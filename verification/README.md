# Transaction data fetcher, modelled in Dafny

`TransactionDataFetcher` answers ten questions about money-transfer records. Each record holds:

- a transaction number (`mtn`) and an amount;
- sender and beneficiary names;
- a compliance issue id (`0` means no issue), a solved flag and an issue message.

Eight of the ten methods read every `*.json` file of the working directory. They run a stream pipeline on each file and combine the per-file answers in a loop. The last two methods (top three transactions, top sender) read the single file `transactions.json`.

This project models:

- each per-file pipeline, as a pure function over the records of one file (`Queries`, `Grouping`, `Ranking`);
- each accumulation loop of the eight directory-reading methods, as a left fold over the parsed files in directory order (`DataFetcher`, where `Files = seq<seq<Transaction>>`);
- the keep-first `Collectors.toMap(key, identity(), (existing, replacement) -> existing)`, as `Dedup.DedupBy`. It keeps the first record with each transaction number, or with each amount.

Amounts are exact decimals. The model writes them as integers in minor units (cents), so every sum is exact, as `BigDecimal` sums are.

Three loops combine the files in a way that breaks the promise in their doc comments: the highest amount (lines 67-69), the unique-client count (88-90) and the open-issue check (109-111). For each of these, `Merged` holds the behaviour the comment promises, applied to all records of all files together, and proves it. A concrete directory shows where the loop as written differs (see "## Findings"). A fourth loop, the amount sent by a client, deduplicates by transaction number only within each file. Its comment (40-42) says nothing about duplicates. The cross-file deduplication in `Merged` is an inference from the code's own deduplication at 54-57, not a promise of the comment.

Modules, one per `.dfy` file:

- `Wrappers`: `Option` and `Result`.
- `Sequences`: filtering in order, keep-first `Distinct`, and element sets.
- `Transactions`: the record, its compliance state, the parties in each role, sums, and the concatenation of files.
- `Dedup`: the keep-first deduplication by transaction number or by amount.
- `Queries`: the single-file pipelines for amounts, clients and compliance issues.
- `Partition`: per-name counts and amounts that add up to the whole.
- `Grouping`: `groupingBy(beneficiary)`, and the `Map.merge` that appends a later file's groups.
- `Ranking`: the top three by amount, and the top sender.
- `DataFetcher`: the eight directory-reading methods as written (the two single-file methods are `Ranking.Top3ByAmount` and `Ranking.TopSender`).
- `Merged`: the corrected cross-file versions.
- `Scenarios`: worked inputs.

## Model

| member | source | states |
|---|---|---|
| Dedup.DedupBy | src/main/java/com/smallworld/TransactionDataFetcher.java:54-58 | The kept records have pairwise different keys, cover exactly the keys of the input, and are all drawn from the input |
| Dedup.DedupLength | src/main/java/com/smallworld/TransactionDataFetcher.java:54-58 | Exactly one record is kept per distinct key |
| Dedup.DedupKeepsFirst | src/main/java/com/smallworld/TransactionDataFetcher.java:54-58 | A record is kept if and only if it is the first record with its key (the merge function keeps the existing value) |
| Dedup.DedupIdempotent | src/main/java/com/smallworld/TransactionDataFetcher.java:54-58 | Deduplicating an already deduplicated list changes nothing |
| Dedup.DedupAbsorbsSeenKeys | src/main/java/com/smallworld/TransactionDataFetcher.java:54-58 | Appending records whose keys were all seen before leaves the deduplicated list unchanged |
| DataFetcher.TotalIsSumOfAllRecords | src/main/java/com/smallworld/TransactionDataFetcher.java:24-38 | `DataFetcher.TotalTransactionAmount` adds every record of every file exactly once, duplicates included: it equals the sum over the concatenated files |
| DataFetcher.TotalAdditive | src/main/java/com/smallworld/TransactionDataFetcher.java:24-38 | The total of a directory split in two is the sum of the two totals |
| Queries.SentByNobodyIsZero | src/main/java/com/smallworld/TransactionDataFetcher.java:52-61 | A client who sent nothing in a file has sent zero in it |
| DataFetcher.SentByNobodyIsZeroAcrossFiles | src/main/java/com/smallworld/TransactionDataFetcher.java:43-65 | A client who sent nothing in any file has sent zero in total |
| DataFetcher.TotalAmountSentByAdditive | src/main/java/com/smallworld/TransactionDataFetcher.java:43-65 | `DataFetcher.TotalAmountSentBy` adds per-file amounts: the amount of a directory split in two is the sum of the two parts' amounts |
| Ranking.SentByAgreesWithGrouping | src/main/java/com/smallworld/TransactionDataFetcher.java:52-61 | When all copies of a transaction number name the same sender, the sent-by amount of one file (`Queries.SentByOf`: filter by sender, then deduplicate) equals that sender's total in the deduplicated file used by the top-sender ranking |
| Ranking.SumConsistency | src/main/java/com/smallworld/TransactionDataFetcher.java:52-61 | Under the same condition, the sent-by amounts of all distinct senders add up to the total of the deduplicated file |
| Ranking.SentByNeedsSenderConsistency | src/main/java/com/smallworld/TransactionDataFetcher.java:52-61 | Without that condition the sums disagree: number 1 sent by A (100.00) and again by B (50.00) gives sent-by amounts adding to 150.00, while the deduplicated file totals 100.00 |
| Queries.MaxAmountOf | src/main/java/com/smallworld/TransactionDataFetcher.java:79-82 | The per-file maximum is absent exactly for an empty file; otherwise it is at least every amount and equal to some amount |
| DataFetcher.MaxTransactionAmountAdditive | src/main/java/com/smallworld/TransactionDataFetcher.java:70-86 | `DataFetcher.MaxTransactionAmount` adds per-file maxima: when both parts of a split directory succeed, the answer for the whole is the sum of the two answers |
| DataFetcher.MaxTransactionAmountSpec | src/main/java/com/smallworld/TransactionDataFetcher.java:70-86 | `DataFetcher.MaxTransactionAmount`: no files give 0; the call fails exactly when some file is empty (null passed to `add`); for one non-empty file the result is that file's largest amount |
| Queries.UniqueClientsBounds | src/main/java/com/smallworld/TransactionDataFetcher.java:100-103 | The per-file count is the size of the union of senders and beneficiaries; it is between the larger party count and the sum of the two, and at most two per record |
| DataFetcher.CountUniqueClientsAdditive | src/main/java/com/smallworld/TransactionDataFetcher.java:91-107 | `DataFetcher.CountUniqueClients` adds per-file counts: the count of a directory split in two is the sum of the two parts' counts |
| Queries.HasOpenIssueOf | src/main/java/com/smallworld/TransactionDataFetcher.java:122-124 | True if and only if some record names the client as sender or beneficiary and has an issue id other than 0 that is not solved; false for a client in no record |
| DataFetcher.HasOpenComplianceIssues | src/main/java/com/smallworld/TransactionDataFetcher.java:113-128 | The answer is true if and only if the last file has an open issue for the client |
| Merged.OpenIssueDependsOnFileOrder | src/main/java/com/smallworld/TransactionDataFetcher.java:113-128 | The same two files in the two orders give false and true, so the answer depends on the order of the directory listing |
| Grouping.GroupByBeneficiaryIsPartition | src/main/java/com/smallworld/TransactionDataFetcher.java:142-143 | The keys are exactly the beneficiaries present; each key maps to exactly that beneficiary's records, in record order |
| Grouping.GroupSizesSum | src/main/java/com/smallworld/TransactionDataFetcher.java:142-143 | Over all keys the group sizes add up to the number of records: no record is lost or repeated |
| Grouping.MergeGroupsOfParts | src/main/java/com/smallworld/TransactionDataFetcher.java:142-149 | Grouping two parts and merging the groups with list append gives the grouping of the concatenation |
| DataFetcher.TransactionsByBeneficiaryNameIsGrouping | src/main/java/com/smallworld/TransactionDataFetcher.java:133-153 | The accumulated map is the grouping of all files' records in order: keys are the beneficiaries and values their records |
| Queries.UnsolvedIdsOf | src/main/java/com/smallworld/TransactionDataFetcher.java:167-170 | The per-file set holds exactly the ids of the open records, and never 0 |
| DataFetcher.UnsolvedIssueIdsOfAllFiles | src/main/java/com/smallworld/TransactionDataFetcher.java:158-175 | The united set is the set of open issue ids of all files' records, and does not contain 0 |
| Queries.SolvedMessagesOf | src/main/java/com/smallworld/TransactionDataFetcher.java:189-192 | The per-file list holds one message per solved record, in record order |
| DataFetcher.AllSolvedIssueMessagesOfAllFiles | src/main/java/com/smallworld/TransactionDataFetcher.java:180-197 | The appended list holds one message per solved record of all files, in file then record order |
| Queries.IssuePartition | src/main/java/com/smallworld/TransactionDataFetcher.java:158-197 | Every record with an issue is either open (its id is among the unsolved ids) or solved (its message is listed), never both; the solved messages plus the open records make up all records with an issue; there are no more ids than open records |
| Ranking.SortSpec | src/main/java/com/smallworld/TransactionDataFetcher.java:214 | Sorting by descending amount gives a non-increasing list that is a permutation of the input |
| Ranking.Top3Spec | src/main/java/com/smallworld/TransactionDataFetcher.java:202-217 | `Ranking.Top3ByAmount` has min(3, number of distinct amounts) records in strictly decreasing amount; each is the first input record with its amount; every input amount is among them or below all three |
| Ranking.TopSender | src/main/java/com/smallworld/TransactionDataFetcher.java:222-240 | Empty exactly for an empty file; otherwise a sender of the deduplicated file whose total is at least every sender's total |
| Ranking.TopSenderMaximizesSentBy | src/main/java/com/smallworld/TransactionDataFetcher.java:222-240 | When all copies of a transaction number name the same sender, the top sender's sent-by amount is at least that of every sender of the file |
| Merged.MaxAmountMergedSpec | src/main/java/com/smallworld/TransactionDataFetcher.java:67-70 | The corrected maximum fails only when no file has a record; otherwise it is at least every amount of every file and equal to one of them |
| Merged.MaxAddsPerFileMaxima | src/main/java/com/smallworld/TransactionDataFetcher.java:79-82 | For two files with maxima 100.00 and 50.00, the loop answers 150.00 and the corrected maximum answers 100.00 |
| Merged.CountUniqueClientsMergedSpec | src/main/java/com/smallworld/TransactionDataFetcher.java:88-91 | The corrected count is the number of distinct senders and beneficiaries over all files, and never exceeds the loop's sum |
| Merged.MergedCountBelowLoop | src/main/java/com/smallworld/TransactionDataFetcher.java:91-107 | `DataFetcher.CountUniqueClients` never undercounts: it is at least the number of distinct clients over all files |
| Merged.UniqueClientsAddedAcrossFiles | src/main/java/com/smallworld/TransactionDataFetcher.java:100-103 | The same transfer A to B in two files: the loop counts 4 clients, the corrected count is 2 |
| Merged.HasOpenComplianceIssuesMergedSpec | src/main/java/com/smallworld/TransactionDataFetcher.java:109-113 | The corrected answer is true if and only if some file has an open issue for the client |
| Merged.OpenIssueOverwrittenByLaterFile | src/main/java/com/smallworld/TransactionDataFetcher.java:122-124 | An open issue of A in the first file and none in the second: the loop answers false, the corrected answer true |
| Merged.SentByMergedIgnoresRepeatedFile | src/main/java/com/smallworld/TransactionDataFetcher.java:54-57 | Reading one of the files a second time leaves the merge-then-deduplicate sent-by amount unchanged, because every transaction number counts once, extending the per-file deduplication at 54-57 across files |
| Merged.SentByCountsRepeatedFileTwice | src/main/java/com/smallworld/TransactionDataFetcher.java:52-61 | The same transfer of 100.00 by A in two files: the loop reports 200.00, the corrected amount 100.00 |
| Scenarios.DuplicateFileSums | src/main/java/com/smallworld/TransactionDataFetcher.java:24-65 | On a file that repeats transaction number 1, the total counts both copies (250.00) while the amount sent by A counts it once (100.00) |
| Scenarios.DuplicateFileClients | src/main/java/com/smallworld/TransactionDataFetcher.java:100-103 | On the same file the distinct clients are A, B and C: the count is 3 |
| Scenarios.DuplicateFileOpenIssue | src/main/java/com/smallworld/TransactionDataFetcher.java:113-128 | On the same file A, beneficiary of the open issue 5, has an open compliance issue |
| Scenarios.DuplicateFileDeduplicated | src/main/java/com/smallworld/TransactionDataFetcher.java:54-58 | On the same file deduplication by transaction number drops only the second copy of number 1 |
| Scenarios.DuplicateFileTopSender | src/main/java/com/smallworld/TransactionDataFetcher.java:222-240 | On the same file, after deduplication A (100.00) beats C (50.00) |
| Scenarios.EmptyAnswers | src/main/java/com/smallworld/TransactionDataFetcher.java:70-86 | With no records the sums and counts are 0 and there is no top sender; the maximum of no files is 0, and the maximum of one empty file fails |

## Left out

- Directory listing, file reading and JSON parsing are not modelled. The model takes the parsed files as a sequence, in the order the directory stream yields them. That order is unspecified in Java. It decides the order within the grouped lists and of the solved messages, and it decides the answer of `DataFetcher.HasOpenComplianceIssues`, which is the last file's answer (`Merged.OpenIssueDependsOnFileOrder`). The sums, counts, sets and the maximum do not depend on it.
- Which file is read is not modelled. Eight methods read every `*.json` file in `user.dir`. The top-3 and top-sender methods read only `transactions.json`, and the model gives them one file.
- I/O exceptions and malformed JSON are not modelled. Only the null maximum of an empty file is modelled as an error (`NullMaximum`).
- `BigDecimal` scale is not modelled. `toMap` keys use `equals`, which tells 100.0 and 100.00 apart, while sorting uses `compareTo`. The model treats amounts as exact integers in cents, so two such amounts count as one key.
- `Ranking.TopSender`: `HashMap` iteration order is unspecified, so the Java method may return any of several tied senders. The model picks the earliest, and its contract promises only some maximal sender.
- Iteration order of `HashMap.values()` is not modelled. The model keeps source order. Sums and sets do not depend on it, and the top-3 list is fully sorted because its amounts are distinct.
- `Transaction` fields the ten methods never read (sender and beneficiary ages) are left out of the record. The `Transaction` class is not part of this model beyond its getters.
- `Queries.SentByNobodyIsZero` and `DataFetcher.SentByNobodyIsZeroAcrossFiles` cover only a client who sent nothing. The general sent-by total is related to the other queries only for files where all copies of a transaction number name the same sender (`Ranking.SenderConsistent`), because otherwise filtering by sender and deduplicating do not commute (`Ranking.SentByNeedsSenderConsistency`).
- `DataFetcher.MaxTransactionAmountSpec` characterises the value only for zero or one file. For several files, `DataFetcher.MaxTransactionAmountAdditive` shows that the value is the sum of the per-file maxima. That sum is a finding, and the corrected `Merged.MaxAmountMerged` carries the promised property.
- The doc comments say nothing about duplicate records or empty input; the model follows the code where it decides:
  - the total amount adds every record, duplicates included, as its comment ("the sum of the amounts of all transactions") says, so a file that repeats a 100.00 transfer next to a 50.00 one totals 250.00;
  - only three methods deduplicate, each keeping the first record per key: the amount sent by a client and the top sender by transaction number, the top three by amount (line 208), so two different transactions with equal amounts yield one entry in the top three;
  - the comment on the maximum ("the highest transaction amount") leaves empty input open: the code answers 0 for no files and fails for an empty file.

## Findings

| source | as written | input that shows it | evidently intended | confidence | as-written member | corrected member |
|---|---|---|---|---|---|---|
| src/main/java/com/smallworld/TransactionDataFetcher.java:79-82 | The per-file maxima are added to a running total. | Two files with single amounts 100.00 and 50.00 give 150.00. | The highest amount over all files, 100.00. | not executed | DataFetcher.MaxTransactionAmount (Merged.MaxAddsPerFileMaxima) | Merged.MaxAmountMerged (Merged.MaxAmountMergedSpec) |
| src/main/java/com/smallworld/TransactionDataFetcher.java:100-103 | The per-file distinct-client counts are added. | The same transfer A to B in two files gives 4. | The number of distinct clients over all files, 2. | not executed | DataFetcher.CountUniqueClients (Merged.UniqueClientsAddedAcrossFiles) | Merged.CountUniqueClientsMerged (Merged.CountUniqueClientsMergedSpec) |
| src/main/java/com/smallworld/TransactionDataFetcher.java:122-124 | Each file overwrites the answer of the previous one. | A has an open issue in the first file and no record in the second; the answer is false. | True when any file has an open issue for the client. | not executed | DataFetcher.HasOpenComplianceIssues (Merged.OpenIssueOverwrittenByLaterFile) | Merged.HasOpenComplianceIssuesMerged (Merged.HasOpenComplianceIssuesMergedSpec) |
| src/main/java/com/smallworld/TransactionDataFetcher.java:52-61 | Transaction numbers are deduplicated only within each file. | The same 100.00 transfer by A in two files gives 200.00. | Inferred from the code's own deduplication by transaction number at 54-57, not from the doc comment (40-42, silent on duplicates): each transaction number counts once across all files, 100.00. | not executed | DataFetcher.TotalAmountSentBy (Merged.SentByCountsRepeatedFileTwice) | Merged.TotalAmountSentByMerged (Merged.SentByMergedIgnoresRepeatedFile) |
