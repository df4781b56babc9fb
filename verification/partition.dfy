/** Splitting a file by the name in one role: for a repeat-free list of names covering every
    party, the per-name record counts add up to the record count and the per-name sums of
    amounts add up to the total amount. */
module Partition {
  import opened Sequences
  import opened Transactions

  /** The number of records per name, added over `ks`. */
  function CountPerName(role: Role, ks: seq<string>, s: seq<Transaction>): int {
    if |ks| == 0 then 0 else |WithName(role, s, ks[0])| + CountPerName(role, ks[1..], s)
  }

  /** The sum of amounts per name, added over `ks`. */
  function AmountPerName(role: Role, ks: seq<string>, s: seq<Transaction>): int {
    if |ks| == 0 then 0 else Sum(WithName(role, s, ks[0])) + AmountPerName(role, ks[1..], s)
  }

  lemma WithNameSnoc(role: Role, s: seq<Transaction>, t: Transaction, k: string)
    ensures WithName(role, s + [t], k) == WithName(role, s, k) + (if NameOf(role, t) == k then [t] else [])
  {
    assert (s + [t])[..|s|] == s;
  }

  lemma {:induction false} CountPerNameSnoc(role: Role, ks: seq<string>, s: seq<Transaction>, t: Transaction)
    requires NoDups(ks)
    ensures CountPerName(role, ks, s + [t]) == CountPerName(role, ks, s) + (if NameOf(role, t) in ks then 1 else 0)
  {
    if |ks| > 0 {
      assert NoDups(ks[1..]);
      CountPerNameSnoc(role, ks[1..], s, t);
      WithNameSnoc(role, s, t, ks[0]);
      assert ks == [ks[0]] + ks[1..];
      assert ks[0] !in ks[1..];
    }
  }

  lemma {:induction false} AmountPerNameSnoc(role: Role, ks: seq<string>, s: seq<Transaction>, t: Transaction)
    requires NoDups(ks)
    ensures AmountPerName(role, ks, s + [t]) == AmountPerName(role, ks, s) + (if NameOf(role, t) in ks then t.amount else 0)
  {
    if |ks| > 0 {
      assert NoDups(ks[1..]);
      AmountPerNameSnoc(role, ks[1..], s, t);
      WithNameSnoc(role, s, t, ks[0]);
      SumAppend(WithName(role, s, ks[0]), if NameOf(role, t) == ks[0] then [t] else []);
      assert ks == [ks[0]] + ks[1..];
      assert ks[0] !in ks[1..];
    }
  }

  /** Every record is counted under exactly one name. */
  lemma {:induction false} CountPerNameCovers(role: Role, ks: seq<string>, s: seq<Transaction>)
    requires NoDups(ks)
    requires Parties(role, s) <= Elems(ks)
    ensures CountPerName(role, ks, s) == |s|
  {
    if |s| == 0 {
      CountPerNameOfNothing(role, ks);
    } else {
      var n := |s| - 1;
      assert s == s[..n] + [s[n]];
      PartiesSnoc(role, s[..n], s[n]);
      CountPerNameCovers(role, ks, s[..n]);
      CountPerNameSnoc(role, ks, s[..n], s[n]);
    }
  }

  /** Every amount is added under exactly one name. */
  lemma {:induction false} AmountPerNameCovers(role: Role, ks: seq<string>, s: seq<Transaction>)
    requires NoDups(ks)
    requires Parties(role, s) <= Elems(ks)
    ensures AmountPerName(role, ks, s) == Sum(s)
  {
    if |s| == 0 {
      AmountPerNameOfNothing(role, ks);
    } else {
      var n := |s| - 1;
      assert s == s[..n] + [s[n]];
      PartiesSnoc(role, s[..n], s[n]);
      AmountPerNameCovers(role, ks, s[..n]);
      AmountPerNameSnoc(role, ks, s[..n], s[n]);
    }
  }

  lemma {:induction false} CountPerNameOfNothing(role: Role, ks: seq<string>)
    ensures CountPerName(role, ks, []) == 0
  {
    if |ks| > 0 {
      CountPerNameOfNothing(role, ks[1..]);
    }
  }

  lemma {:induction false} AmountPerNameOfNothing(role: Role, ks: seq<string>)
    ensures AmountPerName(role, ks, []) == 0
  {
    if |ks| > 0 {
      AmountPerNameOfNothing(role, ks[1..]);
    }
  }
}
