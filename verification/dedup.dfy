/** The keep-first deduplication performed by
    `Collectors.toMap(key, identity(), (existing, replacement) -> existing)`. */
module Dedup {
  import opened Transactions

  /** The key a deduplication merges on: the transaction number, or the amount. */
  datatype Key = Mtn | Amount

  function KeyOf(k: Key, t: Transaction): int {
    match k
    case Mtn => t.mtn
    case Amount => t.amount
  }

  /** The keys that occur in `s`. */
  function Keys(k: Key, s: seq<Transaction>): set<int> {
    set t | t in s :: KeyOf(k, t)
  }

  /** No two records of `s` share a key. */
  predicate UniqueKeys(k: Key, s: seq<Transaction>) {
    forall i, j :: 0 <= i < j < |s| ==> KeyOf(k, s[i]) != KeyOf(k, s[j])
  }

  /** `s[i]` is the first record of `s` with its key. */
  predicate FirstOccurrence(k: Key, s: seq<Transaction>, i: int) {
    0 <= i < |s| && forall j :: 0 <= j < i ==> KeyOf(k, s[j]) != KeyOf(k, s[i])
  }

  lemma KeysSnoc(k: Key, s: seq<Transaction>, t: Transaction)
    ensures Keys(k, s + [t]) == Keys(k, s) + {KeyOf(k, t)}
  {
    assert forall u :: u in s + [t] <==> u in s || u == t;
  }

  /** Records are visited in order; a record whose key was already seen is dropped,
      so the first record with each key wins. */
  function DedupBy(k: Key, s: seq<Transaction>): (r: seq<Transaction>)
    ensures UniqueKeys(k, r)
    ensures Keys(k, r) == Keys(k, s)
    ensures forall t :: t in r ==> t in s
  {
    if |s| == 0 then []
    else
      var n := |s| - 1;
      assert s == s[..n] + [s[n]];
      KeysSnoc(k, s[..n], s[n]);
      var d := DedupBy(k, s[..n]);
      KeysSnoc(k, d, s[n]);
      if KeyOf(k, s[n]) in Keys(k, d) then d else d + [s[n]]
  }

  /** One step of the fold: a record is appended unless its key was already seen. */
  lemma DedupSnoc(k: Key, s: seq<Transaction>, t: Transaction)
    ensures DedupBy(k, s + [t]) == if KeyOf(k, t) in Keys(k, s) then DedupBy(k, s) else DedupBy(k, s) + [t]
  {
    assert (s + [t])[..|s|] == s;
  }

  /** Exactly one record per key: the result has as many records as `s` has keys. */
  lemma DedupLength(k: Key, s: seq<Transaction>)
    ensures |DedupBy(k, s)| == |Keys(k, s)|
  {
    UniqueKeysCardinality(k, DedupBy(k, s));
  }

  lemma {:induction false} UniqueKeysCardinality(k: Key, s: seq<Transaction>)
    requires UniqueKeys(k, s)
    ensures |Keys(k, s)| == |s|
  {
    if |s| > 0 {
      var n := |s| - 1;
      assert s == s[..n] + [s[n]];
      UniqueKeysCardinality(k, s[..n]);
      KeysSnoc(k, s[..n], s[n]);
      assert KeyOf(k, s[n]) !in Keys(k, s[..n]);
    }
  }

  /** Every first occurrence of a key is kept. */
  lemma {:induction false} DedupKeepsFirstOccurrences(k: Key, s: seq<Transaction>)
    ensures forall i :: FirstOccurrence(k, s, i) ==> s[i] in DedupBy(k, s)
  {
    if |s| > 0 {
      var n := |s| - 1;
      var p := s[..n];
      assert s == p + [s[n]];
      DedupKeepsFirstOccurrences(k, p);
      DedupSnoc(k, p, s[n]);
      forall i | FirstOccurrence(k, s, i)
        ensures s[i] in DedupBy(k, s)
      {
        if i < n {
          assert FirstOccurrence(k, p, i);
        } else {
          assert KeyOf(k, s[n]) !in Keys(k, p);
        }
      }
    }
  }

  /** Every kept record is the first occurrence of its key. */
  lemma {:induction false} DedupKeepsOnlyFirst(k: Key, s: seq<Transaction>)
    ensures forall t :: t in DedupBy(k, s) ==> exists i :: FirstOccurrence(k, s, i) && s[i] == t
  {
    if |s| > 0 {
      var n := |s| - 1;
      var p := s[..n];
      assert s == p + [s[n]];
      DedupKeepsOnlyFirst(k, p);
      DedupSnoc(k, p, s[n]);
      var d := DedupBy(k, p);
      forall t | t in DedupBy(k, s)
        ensures exists i :: FirstOccurrence(k, s, i) && s[i] == t
      {
        if t in d {
          var i :| FirstOccurrence(k, p, i) && p[i] == t;
          assert FirstOccurrence(k, s, i);
        } else {
          assert t == s[n] && KeyOf(k, s[n]) !in Keys(k, p);
          assert forall j :: 0 <= j < n ==> s[j] in p;
          assert FirstOccurrence(k, s, n);
        }
      }
    }
  }

  /** The kept records are exactly the first occurrences of their keys. */
  lemma DedupKeepsFirst(k: Key, s: seq<Transaction>)
    ensures forall i :: FirstOccurrence(k, s, i) ==> s[i] in DedupBy(k, s)
    ensures forall t :: t in DedupBy(k, s) ==> exists i :: FirstOccurrence(k, s, i) && s[i] == t
  {
    DedupKeepsFirstOccurrences(k, s);
    DedupKeepsOnlyFirst(k, s);
  }

  /** A sequence whose keys are already unique is left untouched. */
  lemma {:induction false} DedupOfUnique(k: Key, s: seq<Transaction>)
    requires UniqueKeys(k, s)
    ensures DedupBy(k, s) == s
  {
    if |s| > 0 {
      var n := |s| - 1;
      assert s == s[..n] + [s[n]];
      DedupOfUnique(k, s[..n]);
      assert KeyOf(k, s[n]) !in Keys(k, s[..n]);
    }
  }

  /** Deduplicating twice is the same as deduplicating once. */
  lemma DedupIdempotent(k: Key, s: seq<Transaction>)
    ensures DedupBy(k, DedupBy(k, s)) == DedupBy(k, s)
  {
    DedupOfUnique(k, DedupBy(k, s));
  }

  /** Appending records whose keys were all seen already changes nothing. */
  lemma {:induction false} DedupAbsorbsSeenKeys(k: Key, s: seq<Transaction>, u: seq<Transaction>)
    requires forall t :: t in u ==> KeyOf(k, t) in Keys(k, s)
    ensures DedupBy(k, s + u) == DedupBy(k, s)
  {
    if |u| > 0 {
      var n := |u| - 1;
      assert (s + u)[..|s + u| - 1] == s + u[..n];
      assert (s + u)[|s + u| - 1] == u[n];
      DedupAbsorbsSeenKeys(k, s, u[..n]);
      assert u[n] in u;
      assert KeyOf(k, u[n]) in Keys(k, DedupBy(k, s + u[..n]));
    } else {
      assert s + u == s;
    }
  }
}
