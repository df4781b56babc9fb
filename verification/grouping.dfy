/** `Collectors.groupingBy(beneficiaryFullName)` and the `Map.merge` that appends the groups
    of a later file to those of the earlier ones. */
module Grouping {
  import opened Sequences
  import opened Transactions
  import opened Partition

  /** Records are visited in order; each is appended to the list of its beneficiary. */
  function GroupByBeneficiary(s: seq<Transaction>): map<string, seq<Transaction>> {
    if |s| == 0 then map[]
    else
      var g := GroupByBeneficiary(s[..|s| - 1]);
      var t := s[|s| - 1];
      var b := t.beneficiaryFullName;
      g[b := (if b in g then g[b] else []) + [t]]
  }

  /** The keys are exactly the beneficiaries present, and each key maps to exactly the
      records with that beneficiary, in record order. */
  lemma {:induction false} GroupByBeneficiaryIsPartition(s: seq<Transaction>)
    ensures GroupByBeneficiary(s).Keys == Parties(Beneficiary, s)
    ensures forall b :: b in GroupByBeneficiary(s) ==> GroupByBeneficiary(s)[b] == WithName(Beneficiary, s, b)
  {
    if |s| > 0 {
      var n := |s| - 1;
      var p, t := s[..n], s[n];
      assert s == p + [t];
      GroupByBeneficiaryIsPartition(p);
      PartiesSnoc(Beneficiary, p, t);
      var b := t.beneficiaryFullName;
      forall c | c in GroupByBeneficiary(s)
        ensures GroupByBeneficiary(s)[c] == WithName(Beneficiary, s, c)
      {
        WithNameSnoc(Beneficiary, p, t, c);
        if c == b && b !in GroupByBeneficiary(p) {
          FilterNone(p, u => NameOf(Beneficiary, u) == b);
        }
      }
    }
  }

  /** The sizes of the groups named by `ks`. */
  function GroupSizes(ks: seq<string>, g: map<string, seq<Transaction>>): int {
    if |ks| == 0 then 0
    else (if ks[0] in g then |g[ks[0]]| else 0) + GroupSizes(ks[1..], g)
  }

  lemma {:induction false} GroupSizesArePerNameCounts(ks: seq<string>, s: seq<Transaction>)
    requires forall k :: k in ks ==> k in GroupByBeneficiary(s)
    ensures GroupSizes(ks, GroupByBeneficiary(s)) == CountPerName(Beneficiary, ks, s)
  {
    GroupByBeneficiaryIsPartition(s);
    if |ks| > 0 {
      GroupSizesArePerNameCounts(ks[1..], s);
    }
  }

  /** No record is lost or repeated: over all keys, the group sizes add up to the record count. */
  lemma GroupSizesSum(s: seq<Transaction>, ks: seq<string>)
    requires NoDups(ks)
    requires Elems(ks) == GroupByBeneficiary(s).Keys
    ensures GroupSizes(ks, GroupByBeneficiary(s)) == |s|
  {
    GroupByBeneficiaryIsPartition(s);
    GroupSizesArePerNameCounts(ks, s);
    CountPerNameCovers(Beneficiary, ks, s);
  }

  /** `map.merge(key, list, (existing, added) -> existing ++ added)` for every key of `g`. */
  function MergeGroups(acc: map<string, seq<Transaction>>, g: map<string, seq<Transaction>>): map<string, seq<Transaction>> {
    map b | b in acc.Keys + g.Keys :: (if b in acc then acc[b] else []) + (if b in g then g[b] else [])
  }

  /** The records of `s` with beneficiary `k`, or none when `k` is not a key of the grouping. */
  lemma GroupOrEmpty(s: seq<Transaction>, k: string)
    ensures (if k in GroupByBeneficiary(s) then GroupByBeneficiary(s)[k] else []) == WithName(Beneficiary, s, k)
  {
    GroupByBeneficiaryIsPartition(s);
    if k !in GroupByBeneficiary(s) {
      FilterNone(s, t => NameOf(Beneficiary, t) == k);
    }
  }

  lemma GroupValue(s: seq<Transaction>, k: string)
    requires k in GroupByBeneficiary(s)
    ensures GroupByBeneficiary(s)[k] == WithName(Beneficiary, s, k)
  {
    GroupByBeneficiaryIsPartition(s);
  }

  lemma MergeGroupsKeys(a: seq<Transaction>, b: seq<Transaction>)
    ensures MergeGroups(GroupByBeneficiary(a), GroupByBeneficiary(b)).Keys == GroupByBeneficiary(a + b).Keys
  {
    GroupByBeneficiaryIsPartition(a);
    GroupByBeneficiaryIsPartition(b);
    GroupByBeneficiaryIsPartition(a + b);
    PartiesAppend(Beneficiary, a, b);
  }

  /** Under every key of the merge, the merged list is the concatenation's records for that key. */
  lemma MergeGroupsValue(a: seq<Transaction>, b: seq<Transaction>, k: string)
    requires k in MergeGroups(GroupByBeneficiary(a), GroupByBeneficiary(b))
    ensures MergeGroups(GroupByBeneficiary(a), GroupByBeneficiary(b))[k] == WithName(Beneficiary, a + b, k)
  {
    GroupOrEmpty(a, k);
    GroupOrEmpty(b, k);
    FilterAppend(a, b, t => NameOf(Beneficiary, t) == k);
  }

  /** Grouping two parts and merging the groups is grouping the concatenation. */
  lemma MergeGroupsOfParts(a: seq<Transaction>, b: seq<Transaction>)
    ensures MergeGroups(GroupByBeneficiary(a), GroupByBeneficiary(b)) == GroupByBeneficiary(a + b)
  {
    var m, g := MergeGroups(GroupByBeneficiary(a), GroupByBeneficiary(b)), GroupByBeneficiary(a + b);
    MergeGroupsKeys(a, b);
    forall k | k in m
      ensures m[k] == g[k]
    {
      MergeGroupsValue(a, b, k);
      GroupValue(a + b, k);
    }
  }
}
