/** The transaction record and the record-level notions every query shares. */
module Transactions {
  import opened Sequences

  /** One transaction, restricted to the fields the queries read.
      `amount` is the exact decimal amount in minor units (cents), so sums are exact.
      `issueId == 0` means that no compliance issue is attached. */
  datatype Transaction = Transaction(
    mtn: int,
    amount: int,
    senderFullName: string,
    beneficiaryFullName: string,
    issueId: int,
    issueSolved: bool,
    issueMessage: string)

  /** The compliance state of a record: no issue, an open issue, a solved issue. */
  datatype IssueState = NoIssue | Open | Solved

  function IssueStateOf(t: Transaction): IssueState {
    if t.issueId == 0 then NoIssue
    else if t.issueSolved then Solved
    else Open
  }

  /** The two parties of a transaction. */
  datatype Role = Sender | Beneficiary

  function NameOf(role: Role, t: Transaction): string {
    match role
    case Sender => t.senderFullName
    case Beneficiary => t.beneficiaryFullName
  }

  /** The names in the given role, one per record, in record order. */
  function Names(role: Role, s: seq<Transaction>): seq<string> {
    seq(|s|, i requires 0 <= i < |s| => NameOf(role, s[i]))
  }

  /** The distinct names in the given role. */
  function Parties(role: Role, s: seq<Transaction>): set<string> {
    set t | t in s :: NameOf(role, t)
  }

  /** The issue messages of the records, one per record, in record order. */
  function Messages(s: seq<Transaction>): seq<string> {
    seq(|s|, i requires 0 <= i < |s| => s[i].issueMessage)
  }

  /** A name occurs in the per-record name list exactly when it is a party. */
  lemma NamesElems(role: Role, s: seq<Transaction>)
    ensures forall x :: x in Names(role, s) <==> x in Parties(role, s)
  {
    forall x | x in Parties(role, s)
      ensures x in Names(role, s)
    {
      var t :| t in s && NameOf(role, t) == x;
      var i :| 0 <= i < |s| && s[i] == t;
      assert Names(role, s)[i] == x;
    }
  }

  lemma MessagesAppend(a: seq<Transaction>, b: seq<Transaction>)
    ensures Messages(a + b) == Messages(a) + Messages(b)
  {
    var m := Messages(a + b);
    assert |m| == |Messages(a) + Messages(b)|;
    forall i | 0 <= i < |m|
      ensures m[i] == (Messages(a) + Messages(b))[i]
    {
      if i >= |a| {
        assert (a + b)[i] == b[i - |a|];
      }
    }
  }

  lemma PartiesSnoc(role: Role, s: seq<Transaction>, t: Transaction)
    ensures Parties(role, s + [t]) == Parties(role, s) + {NameOf(role, t)}
  {
    assert forall u :: u in s + [t] <==> u in s || u == t;
  }

  lemma PartiesAppend(role: Role, a: seq<Transaction>, b: seq<Transaction>)
    ensures Parties(role, a + b) == Parties(role, a) + Parties(role, b)
  {
    assert forall t :: t in a + b <==> t in a || t in b;
  }

  /** The records whose party in `role` is `name`, in record order. */
  function WithName(role: Role, s: seq<Transaction>, name: string): seq<Transaction> {
    Filter(s, t => NameOf(role, t) == name)
  }

  /** The records in compliance state `st`, in record order. */
  function InState(s: seq<Transaction>, st: IssueState): seq<Transaction> {
    Filter(s, t => IssueStateOf(t) == st)
  }

  /** The sum of the amounts, folded from the left as `reduce(ZERO, add)` does. */
  function Sum(s: seq<Transaction>): int {
    if |s| == 0 then 0 else Sum(s[..|s| - 1]) + s[|s| - 1].amount
  }

  lemma {:induction false} SumAppend(a: seq<Transaction>, b: seq<Transaction>)
    ensures Sum(a + b) == Sum(a) + Sum(b)
  {
    if |b| == 0 {
      assert a + b == a;
    } else {
      var n := |b| - 1;
      assert (a + b)[..|a + b| - 1] == a + b[..n];
      SumAppend(a, b[..n]);
    }
  }

  /** The records of several files, concatenated in file order. */
  function Flatten(files: seq<seq<Transaction>>): seq<Transaction> {
    if |files| == 0 then [] else Flatten(files[..|files| - 1]) + files[|files| - 1]
  }

  lemma {:induction false} FlattenAppend(a: seq<seq<Transaction>>, b: seq<seq<Transaction>>)
    ensures Flatten(a + b) == Flatten(a) + Flatten(b)
  {
    if |b| == 0 {
      assert a + b == a;
    } else {
      var n := |b| - 1;
      var c, f := b[..n], b[n];
      assert b == c + [f];
      assert a + b == (a + c) + [f];
      assert (a + c + [f])[..|a + c|] == a + c;
      assert (c + [f])[..|c|] == c;
      FlattenAppend(a, c);
      var xa, xc := Flatten(a), Flatten(c);
      assert (xa + xc) + f == xa + (xc + f);
    }
  }

  /** A record is in the concatenation exactly when it is in one of the files. */
  lemma {:induction false} InFlatten(files: seq<seq<Transaction>>, t: Transaction)
    ensures t in Flatten(files) <==> exists i :: 0 <= i < |files| && t in files[i]
  {
    if |files| > 0 {
      var n := |files| - 1;
      InFlatten(files[..n], t);
      assert forall i :: 0 <= i < n ==> files[..n][i] == files[i];
    }
  }
}
