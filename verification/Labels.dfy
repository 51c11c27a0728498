/** Label sets and the canonical text that is hashed into a fingerprint
    (web/alerts/fingerprint.go). SHA-256 is an arbitrary function value here, so everything
    proved about fingerprints holds for whatever digest is used. */
module Labels {
  import opened Strings

  type LabelSet = map<string, string>

  ghost function Entry(k: string, v: string): string {
    k + "=" + v + "\n"
  }

  /** One `key=value\n` per key, in the order of `keys`. */
  ghost function Join(labels: LabelSet, keys: seq<string>): string
    requires forall k :: k in keys ==> k in labels
  {
    if keys == [] then "" else Entry(keys[0], labels[keys[0]]) + Join(labels, keys[1..])
  }

  /** The text that gets hashed: a function of the map alone. */
  ghost function Canonical(labels: LabelSet): string {
    if labels == map[] then "{}" else Join(labels, SortedKeys(labels.Keys))
  }

  lemma {:induction false} JoinAppend(labels: LabelSet, keys: seq<string>, k: string)
    requires k in labels && forall x :: x in keys ==> x in labels
    ensures Join(labels, keys + [k]) == Join(labels, keys) + Entry(k, labels[k])
  {
    if keys == [] {
      assert keys + [k] == [k];
    } else {
      JoinAppend(labels, keys[1..], k);
      assert (keys + [k])[1..] == keys[1..] + [k];
    }
  }

  /** Lists the keys of a map in the arbitrary order of a Go map iteration. */
  method CollectKeys(labels: LabelSet) returns (keys: seq<string>)
    ensures Elements(keys) == labels.Keys
    ensures forall k :: k in keys ==> k in labels
    ensures forall i, j :: 0 <= i < j < |keys| ==> keys[i] != keys[j]
  {
    keys := [];
    var todo := labels.Keys;
    while todo != {}
      invariant todo <= labels.Keys
      invariant Elements(keys) == labels.Keys - todo
      invariant forall i, j :: 0 <= i < j < |keys| ==> keys[i] != keys[j]
      decreases todo
    {
      var k :| k in todo;
      assert k !in Elements(keys);
      assert Elements(keys + [k]) == Elements(keys) + {k};
      keys := keys + [k];
      todo := todo - {k};
    }
  }

  method JoinEntries(labels: LabelSet, keys: seq<string>) returns (buf: string)
    requires forall k :: k in keys ==> k in labels
    ensures buf == Join(labels, keys)
  {
    buf := "";
    for i := 0 to |keys|
      invariant buf == Join(labels, keys[..i])
    {
      JoinAppend(labels, keys[..i], keys[i]);
      assert keys[..i + 1] == keys[..i] + [keys[i]];
      var entry := keys[i] + "=" + labels[keys[i]] + "\n";
      buf := buf + entry;
    }
    assert keys[..|keys|] == keys;
  }

  method Fingerprint(labels: LabelSet, hash: string -> string) returns (fp: string)
    ensures fp == hash(Canonical(labels))
  {
    if labels == map[] {
      return hash("{}");
    }
    var keys := CollectKeys(labels);
    keys := SortStrings(keys);
    var buf := JoinEntries(labels, keys);
    return hash(buf);
  }

  /** The text label by label: the entry of the least key comes first, then the text of the rest. */
  lemma CanonicalText(m: LabelSet, k: string)
    requires IsLeast(k, m.Keys) && m - {k} != map[]
    ensures Canonical(m) == k + "=" + m[k] + "\n" + Canonical(m - {k})
  {
    var rest := SortedKeys(m.Keys - {k});
    LeastComesFirst(m.Keys, k);
    assert (m - {k}).Keys == m.Keys - {k};
    JoinFirst(m, k, rest);
    JoinWithout(m, k, rest);
  }

  lemma JoinFirst(m: LabelSet, k: string, rest: seq<string>)
    requires k in m && forall x :: x in rest ==> x in m
    ensures Join(m, [k] + rest) == k + "=" + m[k] + "\n" + Join(m, rest)
  {
    assert ([k] + rest)[1..] == rest;
  }

  lemma {:induction false} JoinWithout(m: LabelSet, k: string, keys: seq<string>)
    requires (forall x :: x in keys ==> x in m) && k !in keys
    ensures Join(m, keys) == Join(m - {k}, keys)
  {
    if keys != [] {
      JoinWithout(m, k, keys[1..]);
    }
  }

  // ----- what the text determines -----

  /** Keys without '=' and values without a line feed: what Prometheus label names guarantee
      for keys, and what ordinary label values satisfy. */
  predicate Clean(labels: LabelSet) {
    forall k :: k in labels ==> '=' !in k && '\n' !in labels[k]
  }

  /** Cutting at the first occurrence of a separator is unambiguous. */
  lemma CutUnique(c: char, a: string, x: string, b: string, y: string)
    requires c !in a && c !in b
    requires a + [c] + x == b + [c] + y
    ensures a == b && x == y
  {
    var l, r := a + [c] + x, b + [c] + y;
    assert (forall i :: 0 <= i < |a| ==> l[i] == a[i]) && l[|a|] == c;
    assert (forall i :: 0 <= i < |b| ==> r[i] == b[i]) && r[|b|] == c;
    assert |a| == |b|;
    assert a == l[..|a|] && b == r[..|a|];
    assert x == l[|a| + 1..] && y == r[|a| + 1..];
  }

  lemma EntryCut(k: string, v: string, rest: string, k': string, v': string, rest': string)
    requires '=' !in k && '=' !in k' && '\n' !in v && '\n' !in v'
    requires Entry(k, v) + rest == Entry(k', v') + rest'
    ensures k == k' && v == v' && rest == rest'
  {
    assert Entry(k, v) + rest == k + ['='] + (v + "\n" + rest);
    assert Entry(k', v') + rest' == k' + ['='] + (v' + "\n" + rest');
    CutUnique('=', k, v + "\n" + rest, k', v' + "\n" + rest');
    CutUnique('\n', v, rest, v', rest');
  }

  lemma {:induction false} JoinInjective(m: LabelSet, ks: seq<string>, m': LabelSet, ks': seq<string>)
    requires Clean(m) && Clean(m')
    requires (forall k :: k in ks ==> k in m) && (forall k :: k in ks' ==> k in m')
    requires Join(m, ks) == Join(m', ks')
    ensures ks == ks' && forall k :: k in ks ==> m[k] == m'[k]
  {
    assert ks != [] ==> |Join(m, ks)| > 0;
    assert ks' != [] ==> |Join(m', ks')| > 0;
    if ks != [] {
      EntryCut(ks[0], m[ks[0]], Join(m, ks[1..]), ks'[0], m'[ks'[0]], Join(m', ks'[1..]));
      JoinInjective(m, ks[1..], m', ks'[1..]);
      assert ks == [ks[0]] + ks[1..] && ks' == [ks'[0]] + ks'[1..];
    }
  }

  lemma {:induction false} JoinEndsLine(m: LabelSet, ks: seq<string>)
    requires ks != [] && forall k :: k in ks ==> k in m
    ensures |Join(m, ks)| >= 2 && Join(m, ks)[|Join(m, ks)| - 1] == '\n'
  {
    if |ks| > 1 {
      JoinEndsLine(m, ks[1..]);
    } else {
      assert ks[1..] == [];
    }
  }

  lemma NonEmptyListing(m: LabelSet)
    requires m != map[]
    ensures SortedKeys(m.Keys) != []
  {
  }

  /** "{}" is the text of the empty map only, whatever the keys and values contain. */
  lemma EmptyTextIsReserved(m: LabelSet)
    ensures Canonical(m) == "{}" <==> m == map[]
  {
  }

  /** The pre-hash text is injective on clean label sets. */
  lemma CanonicalInjective(m: LabelSet, m': LabelSet)
    requires Clean(m) && Clean(m')
    requires Canonical(m) == Canonical(m')
    ensures m == m'
  {
    EmptyTextIsReserved(m);
    EmptyTextIsReserved(m');
    if m != map[] {
      var ks, ks' := SortedKeys(m.Keys), SortedKeys(m'.Keys);
      JoinInjective(m, ks, m', ks');
      assert forall k :: k in m.Keys <==> k in ks;
      assert m.Keys == m'.Keys;
    }
  }

  // ----- exactly which label sets the text determines -----

  function Count(c: char, s: string): nat {
    if s == [] then 0 else (if s[0] == c then 1 else 0) + Count(c, s[1..])
  }

  lemma {:induction false} CountConcat(c: char, a: string, b: string)
    ensures Count(c, a + b) == Count(c, a) + Count(c, b)
  {
    if a == [] {
      assert a + b == b;
    } else {
      CountConcat(c, a[1..], b);
      assert (a + b)[1..] == a[1..] + b;
    }
  }

  lemma {:induction false} CountZero(c: char, s: string)
    ensures Count(c, s) == 0 <==> c !in s
  {
    if s != [] {
      CountZero(c, s[1..]);
      assert s == [s[0]] + s[1..];
    }
  }

  lemma CountEntry(k: string, v: string)
    ensures Count('=', Entry(k, v)) == Count('=', k) + 1 + Count('=', v)
  {
    CountConcat('=', k + "=" + v, "\n");
    CountConcat('=', k + "=", v);
    CountConcat('=', k, "=");
  }

  lemma {:induction false} CountJoin(m: LabelSet, ks: seq<string>)
    requires forall k :: k in ks ==> k in m
    ensures Count('=', Join(m, ks)) >= |ks|
  {
    if ks != [] {
      CountJoin(m, ks[1..]);
      CountConcat('=', Entry(ks[0], m[ks[0]]), Join(m, ks[1..]));
      CountEntry(ks[0], m[ks[0]]);
    }
  }

  /** A single label's text. */
  lemma SingletonText(k: string, v: string)
    ensures Canonical(map[k := v]) == Entry(k, v) == k + "=" + v + "\n"
  {
    var m := map[k := v];
    assert k in m;
    LessTotal(k, k);
    SortedListingUnique(SortedKeys(m.Keys), [k]);
    assert Join(m, [k]) == Entry(k, v) + Join(m, []) by { assert [k][1..] == []; }
  }

  /** No other label set at all has this label set's text. */
  ghost predicate TextDetermines(m: LabelSet) {
    forall m': LabelSet :: Canonical(m') == Canonical(m) ==> m' == m
  }

  /** Empty, or one label with no '=' in its key or its value. */
  ghost predicate OneEqualsSign(m: LabelSet) {
    m == map[] || exists k, v :: m == map[k := v] && '=' !in k && '=' !in v
  }

  lemma AtMostOneEntry(m: LabelSet) returns (k: string)
    requires m != map[] && Count('=', Canonical(m)) <= 1
    ensures k in m && m == map[k := m[k]]
  {
    var ks := SortedKeys(m.Keys);
    NonEmptyListing(m);
    CountJoin(m, ks);
    k := ks[0];
    assert ks == [k];
    assert forall x :: x in m.Keys <==> x in ks;
  }

  lemma OneEqualsSignDetermines(m: LabelSet, m': LabelSet)
    requires OneEqualsSign(m) && Canonical(m') == Canonical(m)
    ensures m' == m
  {
    EmptyTextIsReserved(m);
    EmptyTextIsReserved(m');
    if m != map[] {
      var k, v :| m == map[k := v] && '=' !in k && '=' !in v;
      SingletonText(k, v);
      CountEntry(k, v);
      CountZero('=', k);
      CountZero('=', v);
      var k' := AtMostOneEntry(m');
      var v' := m'[k'];
      SingletonText(k', v');
      SameEntry(k, v, k', v');
    }
  }

  lemma SameEntry(k: string, v: string, k': string, v': string)
    requires '=' !in k && '=' !in v && Entry(k, v) == Entry(k', v')
    ensures k == k' && v == v'
  {
    CountEntry(k, v);
    CountEntry(k', v');
    CountZero('=', k);
    CountZero('=', v);
    CountZero('=', k');
    hide Count;
    assert k + ['='] + (v + "\n") == Entry(k, v);
    assert k' + ['='] + (v' + "\n") == Entry(k', v');
    CutUnique('=', k, v + "\n", k', v' + "\n");
    DropLast(v, '\n');
    DropLast(v', '\n');
  }

  lemma DropLast(s: string, c: char)
    ensures (s + [c])[..|s|] == s
  {
  }

  /** Two or more labels: everything after the first '=' can be read as one long value. */
  lemma SeveralCollide(m: LabelSet) returns (m': LabelSet)
    requires |SortedKeys(m.Keys)| > 1
    ensures m' != m && Canonical(m') == Canonical(m)
  {
    var ks := SortedKeys(m.Keys);
    var k, v, rest := ks[0], m[ks[0]], Join(m, ks[1..]);
    JoinEndsLine(m, ks[1..]);
    assert rest == rest[..|rest| - 1] + "\n";
    var v' := v + "\n" + rest[..|rest| - 1];
    m' := map[k := v'];
    SingletonText(k, v');
    assert Entry(k, v') == Entry(k, v) + rest;
    LessTotal(ks[0], ks[1]);
    assert ks[1] in m.Keys && ks[1] !in m'.Keys;
  }

  /** One label whose key holds an '=': the text can be cut earlier. */
  lemma KeyCollides(k: string, v: string) returns (m': LabelSet)
    requires '=' in k
    ensures m' != map[k := v] && Canonical(m') == Canonical(map[k := v])
  {
    var p :| 0 <= p < |k| && k[p] == '=';
    var k', v' := k[..p], k[p + 1..] + "=" + v;
    m' := map[k' := v'];
    SingletonText(k', v');
    SingletonText(k, v);
    assert k == k[..p] + "=" + k[p + 1..];
    assert Entry(k', v') == Entry(k, v);
    assert |k'| != |k|;
    assert k' in m' && k' !in map[k := v];
  }

  /** One label whose value holds an '=': the text can be cut later. */
  lemma ValueCollides(k: string, v: string) returns (m': LabelSet)
    requires '=' in v
    ensures m' != map[k := v] && Canonical(m') == Canonical(map[k := v])
  {
    var p :| 0 <= p < |v| && v[p] == '=';
    var k', v' := k + "=" + v[..p], v[p + 1..];
    m' := map[k' := v'];
    SingletonText(k', v');
    SingletonText(k, v);
    assert v == v[..p] + "=" + v[p + 1..];
    assert Entry(k', v') == Entry(k, v);
    assert |k'| != |k|;
    assert k' in m' && k' !in map[k := v];
  }

  /** Every other label set shares its text with some different one. */
  lemma OtherTextsCollide(m: LabelSet) returns (m': LabelSet)
    requires !OneEqualsSign(m)
    ensures m' != m && Canonical(m') == Canonical(m)
  {
    var ks := SortedKeys(m.Keys);
    NonEmptyListing(m);
    if |ks| > 1 {
      m' := SeveralCollide(m);
    } else {
      var k := ks[0];
      assert ks == [k] && forall x :: x in m.Keys <==> x in ks;
      assert m == map[k := m[k]];
      if '=' in k {
        m' := KeyCollides(k, m[k]);
      } else {
        m' := ValueCollides(k, m[k]);
      }
    }
  }

  /** Over unrestricted label sets the text is not injective: it pins down a label set exactly
      when that set is empty or is one label without '='. */
  lemma TextDeterminesIff(m: LabelSet)
    ensures TextDetermines(m) <==> OneEqualsSign(m)
  {
    if OneEqualsSign(m) {
      forall m': LabelSet | Canonical(m') == Canonical(m) ensures m' == m {
        OneEqualsSignDetermines(m, m');
      }
    } else {
      var m' := OtherTextsCollide(m);
    }
  }
}
