/** Which of the old jobs a new task list keeps: the first of each wanted ident. */
module Reconcile {
  import opened Strings

  /** The old job at position i goes on: its ident is wanted and no earlier job has it. */
  ghost predicate Keeps(idents: seq<string>, wanted: set<string>, i: nat) {
    i < |idents| && idents[i] in wanted && idents[i] !in idents[..i]
  }

  lemma KeepsMeans(idents: seq<string>, wanted: set<string>, n: nat)
    requires n < |idents|
    ensures Keeps(idents, wanted, n) <==> idents[n] in wanted - Elements(idents[..n])
    ensures Elements(idents[..n + 1]) == Elements(idents[..n]) + {idents[n]}
    ensures forall k :: 0 <= k < n ==> idents[k] in Elements(idents[..n])
  {
  }

  lemma KeepsOnce(idents: seq<string>, wanted: set<string>, i: nat, k: nat)
    requires Keeps(idents, wanted, i) && Keeps(idents, wanted, k) && idents[i] == idents[k]
    ensures i == k
  {
  }

  lemma {:induction false} FirstWithIdent(idents: seq<string>, wanted: set<string>, n: nat) returns (i: nat)
    requires n < |idents| && idents[n] in wanted
    ensures i <= n && idents[i] == idents[n] && Keeps(idents, wanted, i)
  {
    i := n;
    if idents[n] in idents[..n] {
      var m :| 0 <= m < n && idents[m] == idents[n];
      i := FirstWithIdent(idents, wanted, m);
    }
  }
}
