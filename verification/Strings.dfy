/** The string order of `sort.Strings`, and the unique sorted listing of a set.
    Strings are sequences of Unicode scalar values; comparing them by scalar value gives the
    same order as comparing their UTF-8 encodings byte by byte. */
module Strings {

  predicate Less(a: string, b: string) {
    b != [] && (a == [] || a[0] < b[0] || (a[0] == b[0] && Less(a[1..], b[1..])))
  }

  /** The strings agree before i, where a has ended or has the smaller character. */
  ghost predicate DifferAt(a: string, b: string, i: nat) {
    i <= |a| && i < |b| && a[..i] == b[..i] && (i == |a| || (a[i] as int) < (b[i] as int))
  }

  lemma {:induction false} LessAt(a: string, b: string) returns (i: nat)
    requires Less(a, b)
    ensures DifferAt(a, b, i)
  {
    i := 0;
    if a != [] && a[0] == b[0] {
      var j := LessAt(a[1..], b[1..]);
      i := j + 1;
      SamePrefix(a, b, j);
    }
  }

  lemma {:induction false} LessFrom(a: string, b: string, i: nat)
    requires DifferAt(a, b, i)
    ensures Less(a, b)
  {
    if i > 0 {
      assert a[0] == a[..i][0] && b[0] == b[..i][0];
      SamePrefix(a, b, i - 1);
      LessFrom(a[1..], b[1..], i - 1);
    }
  }

  lemma SamePrefix(a: string, b: string, j: nat)
    requires a != [] && b != [] && a[0] == b[0] && j < |a| && j < |b|
    ensures a[..j + 1] == b[..j + 1] <==> a[1..][..j] == b[1..][..j]
  {
    assert a[..j + 1] == [a[0]] + a[1..][..j] && b[..j + 1] == [b[0]] + b[1..][..j];
    assert a[1..][..j] == a[..j + 1][1..] && b[1..][..j] == b[..j + 1][1..];
  }

  /** The order is that of the first difference. */
  lemma {:induction false} LessMeans(a: string, b: string)
    ensures Less(a, b) <==> exists i: nat ::
              i <= |a| && i < |b| && a[..i] == b[..i] && (i == |a| || (a[i] as int) < (b[i] as int))
  {
    if Less(a, b) {
      var i := LessAt(a, b);
    }
    hide Less;
    forall i: nat | i <= |a| && i < |b| && a[..i] == b[..i] && (i == |a| || (a[i] as int) < (b[i] as int)) ensures Less(a, b) {
      LessFrom(a, b, i);
    }
  }

  lemma {:induction false} LessTransitive(a: string, b: string, c: string)
    requires Less(a, b) && Less(b, c)
    ensures Less(a, c)
  {
    if a != [] && a[0] == b[0] == c[0] {
      LessTransitive(a[1..], b[1..], c[1..]);
    }
  }

  lemma {:induction false} LessTotal(a: string, b: string)
    ensures a == b || Less(a, b) || Less(b, a)
    ensures !(Less(a, b) && Less(b, a))
    ensures !Less(a, a)
  {
    if a != [] && b != [] && a[0] == b[0] {
      LessTotal(a[1..], b[1..]);
      assert a == [a[0]] + a[1..] && b == [b[0]] + b[1..];
    }
    if a != [] {
      LessTotal(a[1..], a[1..]);
    }
  }

  ghost predicate StrictlySorted(s: seq<string>) {
    forall i, j :: 0 <= i < j < |s| ==> Less(s[i], s[j])
  }

  function Elements<T>(s: seq<T>): set<T> {
    set x | x in s
  }

  ghost predicate IsLeast(m: string, s: set<string>) {
    m in s && forall k :: k in s && k != m ==> Less(m, k)
  }

  lemma {:induction false} LeastExists(s: set<string>) returns (m: string)
    requires s != {}
    ensures IsLeast(m, s)
    decreases s
  {
    var x :| x in s;
    if s == {x} {
      m := x;
    } else {
      var y := LeastExists(s - {x});
      LessTotal(x, y);
      m := if Less(x, y) then x else y;
      forall k | k in s && k != m ensures Less(m, k) {
        if k != x && m == x && k != y {
          LessTransitive(x, y, k);
        }
      }
    }
  }

  /** The keys of a map in the order `sort.Strings` gives them. */
  ghost function SortedKeys(s: set<string>): (r: seq<string>)
    ensures StrictlySorted(r)
    ensures forall k :: k in r <==> k in s
  {
    if s == {} then [] else
      assert exists m :: IsLeast(m, s) by { var m := LeastExists(s); }
      var m :| IsLeast(m, s);
      [m] + SortedKeys(s - {m})
  }

  /** A strictly sorted listing of a set is unique: whatever order a Go map iteration yields,
      sorting it gives this one. */
  lemma {:induction false} SortedListingUnique(a: seq<string>, b: seq<string>)
    requires StrictlySorted(a) && StrictlySorted(b)
    requires forall k :: k in a <==> k in b
    ensures a == b
  {
    assert a != [] ==> a[0] in b;
    assert b != [] ==> b[0] in a;
    if a != [] {
      assert a[0] in b && b[0] in a;
      LessTotal(a[0], b[0]);
      assert a[0] == b[0];
      LessTotal(a[0], a[0]);
      assert a == [a[0]] + a[1..] && b == [b[0]] + b[1..];
      assert a[0] !in a[1..] && b[0] !in b[1..];
      assert forall k :: k in a[1..] <==> k in a && k != a[0];
      assert forall k :: k in b[1..] <==> k in b && k != a[0];
      SortedListingUnique(a[1..], b[1..]);
    }
  }

  /** The listing of a set is its least element and then the listing of the others. */
  lemma LeastComesFirst(s: set<string>, m: string)
    requires IsLeast(m, s)
    ensures SortedKeys(s) == [m] + SortedKeys(s - {m})
    ensures m !in SortedKeys(s - {m})
  {
    var rest := SortedKeys(s - {m});
    assert forall k :: k in rest ==> Less(m, k);
    PutFirst(m, rest);
    hide Less, StrictlySorted;
    SortedListingUnique(SortedKeys(s), [m] + rest);
  }

  lemma PutFirst(m: string, rest: seq<string>)
    requires StrictlySorted(rest) && forall k :: k in rest ==> Less(m, k)
    ensures StrictlySorted([m] + rest)
  {
    hide Less;
    assert forall i :: 0 <= i < |rest| ==> rest[i] in rest;
  }

  /** `sort.Strings` on the distinct keys of a map. */
  method SortStrings(keys: seq<string>) returns (sorted: seq<string>)
    requires forall i, j :: 0 <= i < j < |keys| ==> keys[i] != keys[j]
    ensures sorted == SortedKeys(Elements(keys))
  {
    sorted := [];
    for n := 0 to |keys|
      invariant StrictlySorted(sorted)
      invariant forall k :: k in sorted <==> k in keys[..n]
    {
      sorted := Insert(sorted, keys[n]);
      assert keys[..n + 1] == keys[..n] + [keys[n]];
    }
    assert keys[..|keys|] == keys;
    SortedListingUnique(sorted, SortedKeys(Elements(keys)));
  }

  method Insert(s: seq<string>, x: string) returns (r: seq<string>)
    requires StrictlySorted(s) && x !in s
    ensures StrictlySorted(r)
    ensures forall k :: k in r <==> k in s || k == x
  {
    hide StrictlySorted;
    var i := 0;
    while i < |s| && Less(s[i], x)
      invariant 0 <= i <= |s|
      invariant forall j :: 0 <= j < i ==> Less(s[j], x)
    {
      i := i + 1;
    }
    InsertSorted(s, x, i);
    r := s[..i] + [x] + s[i..];
    assert s == s[..i] + s[i..];
  }

  lemma InsertSorted(s: seq<string>, x: string, i: nat)
    requires StrictlySorted(s) && x !in s && i <= |s|
    requires (forall j :: 0 <= j < i ==> Less(s[j], x)) && (i < |s| ==> !Less(s[i], x))
    ensures StrictlySorted(s[..i] + [x] + s[i..])
  {
    hide Less;
    if i < |s| {
      LessTotal(s[i], x);
      forall j | i < j < |s| ensures Less(x, s[j]) {
        LessTransitive(x, s[i], s[j]);
      }
    }
  }
}
