/** The offset table of the tail reader (internal/input/file/registry.go). The file holds the list
    of entries; its JSON text is taken to round-trip. */
module OffsetRegistry {
  import opened Options
  import opened Strings

  datatype OffsetEntry = OffsetEntry(path: string, inode: nat, off: int)

  // ----- keys -----

  function Digit(d: int): char
    requires 0 <= d < 10
  {
    "0123456789"[d]
  }

  function Decimal(n: nat): (s: string)
    ensures s != [] && ':' !in s
  {
    if n < 10 then [Digit(n)] else Decimal(n / 10) + [Digit(n % 10)]
  }

  function Key(path: string, inode: nat): string {
    path + [':'] + Decimal(inode)
  }

  function Value(s: string): int {
    if s == [] then 0 else Value(s[..|s| - 1]) * 10 + (s[|s| - 1] as int - '0' as int)
  }

  lemma DigitValue(d: int)
    requires 0 <= d < 10
    ensures Digit(d) as int - '0' as int == d
  {
  }

  lemma {:induction false} DecimalValue(n: nat)
    ensures Value(Decimal(n)) == n
  {
    var s := Decimal(n);
    DigitValue(n % 10);
    if n < 10 {
      assert s[..0] == [];
    } else {
      DecimalValue(n / 10);
      assert s[..|s| - 1] == Decimal(n / 10);
    }
  }

  /** Cutting at the last colon is unambiguous. */
  lemma LastColonUnique(p: string, d: string, p': string, d': string)
    requires ':' !in d && ':' !in d'
    requires p + [':'] + d == p' + [':'] + d'
    ensures p == p' && d == d'
  {
    var k, k' := p + [':'] + d, p' + [':'] + d';
    assert k[|p|] == ':' && k'[|p'|] == ':';
    assert forall m :: |p| < m < |k| ==> k[m] == d[m - |p| - 1] && k[m] in d;
    assert forall m :: |p'| < m < |k'| ==> k'[m] == d'[m - |p'| - 1] && k'[m] in d';
    assert |p| == |p'|;
    assert p == k[..|p|] && p' == k'[..|p'|];
    assert d == k[|p| + 1..] && d' == k'[|p'| + 1..];
  }

  /** "path:decimal-inode" is injective: a path may contain colons, the number cannot. */
  lemma KeyInjective(p: string, i: nat, p': string, i': nat)
    requires Key(p, i) == Key(p', i')
    ensures p == p' && i == i'
  {
    LastColonUnique(p, Decimal(i), p', Decimal(i'));
    DecimalValue(i);
    DecimalValue(i');
  }

  lemma {:induction false} DecimalDigits(n: nat)
    ensures forall c :: c in Decimal(n) ==> '0' <= c <= '9'
    ensures n > 0 ==> Decimal(n)[0] != '0'
    ensures n == 0 ==> Decimal(n) == "0"
  {
    if n >= 10 {
      DecimalDigits(n / 10);
    }
  }

  /** The key's text: the path, a colon, and the digits of the inode without leading zeros. */
  lemma KeyText(path: string, inode: nat) returns (digits: string)
    ensures Key(path, inode) == path + ":" + digits
    ensures digits != "" && (forall c :: c in digits ==> '0' <= c <= '9') && (digits[0] == '0' ==> digits == "0")
    ensures Value(digits) == inode
  {
    digits := Decimal(inode);
    DecimalDigits(inode);
    DecimalValue(inode);
  }

  // ----- the table -----

  ghost predicate Keyed(data: map<string, OffsetEntry>) {
    forall k :: k in data ==> k == Key(data[k].path, data[k].inode)
  }

  function LoadAll(data: map<string, OffsetEntry>, entries: seq<OffsetEntry>): map<string, OffsetEntry> {
    if entries == [] then data
    else
      var e := entries[|entries| - 1];
      LoadAll(data, entries[..|entries| - 1])[Key(e.path, e.inode) := e]
  }

  /** The table's entries, each once, in some order. */
  ghost predicate Lists(entries: seq<OffsetEntry>, data: map<string, OffsetEntry>) {
    && (forall e :: e in entries <==> e in data.Values)
    && forall i, j :: 0 <= i < j < |entries| ==> entries[i] != entries[j]
  }

  lemma {:induction false} LoadedEntries(data: map<string, OffsetEntry>, entries: seq<OffsetEntry>)
    ensures forall k :: k in LoadAll(data, entries) <==> k in data || exists e :: e in entries && Key(e.path, e.inode) == k
    ensures forall k :: k in LoadAll(data, entries) && !(k in data && LoadAll(data, entries)[k] == data[k]) ==>
              LoadAll(data, entries)[k] in entries && Key(LoadAll(data, entries)[k].path, LoadAll(data, entries)[k].inode) == k
  {
    hide Key;
    if entries != [] {
      var front, e := entries[..|entries| - 1], entries[|entries| - 1];
      LoadedEntries(data, front);
      assert entries == front + [e];
    }
  }

  /** Save then load, with the entries in any order, gives the same table, hence the same Get for
      every path and inode. */
  lemma SaveLoadRoundTrip(data: map<string, OffsetEntry>, entries: seq<OffsetEntry>)
    requires Keyed(data) && Lists(entries, data)
    ensures LoadAll(map[], entries) == data
  {
    var loaded := LoadAll(map[], entries);
    LoadedEntries(map[], entries);
    hide Key;
    forall k ensures k in loaded <==> k in data {
      if k in data {
        assert data[k] in entries;
      }
      if k in loaded {
        assert loaded[k] in data.Values;
      }
    }
    forall k | k in data ensures loaded[k] == data[k] {
      var k' :| k' in data && data[k'] == loaded[k];
    }
  }

  /** Entry k is the last one for the path and inode; -1 when there is none. */
  ghost predicate IsLastFor(entries: seq<OffsetEntry>, p: string, i: nat, k: int) {
    && -1 <= k < |entries| && (k >= 0 ==> entries[k].path == p && entries[k].inode == i)
    && forall m :: k < m < |entries| ==> !(entries[m].path == p && entries[m].inode == i)
  }

  /** The last entry for a path and inode is the one that counts, and other entries do not. */
  lemma {:induction false} LoadedIsLast(data: map<string, OffsetEntry>, entries: seq<OffsetEntry>, p: string, i: nat, k: int)
    requires IsLastFor(entries, p, i, k)
    ensures Get(LoadAll(data, entries), Key(p, i)) == if k >= 0 then Some(entries[k]) else Get(data, Key(p, i))
  {
    hide Key;
    if entries != [] {
      var front, e := entries[..|entries| - 1], entries[|entries| - 1];
      if k < |entries| - 1 {
        LoadedIsLast(data, front, p, i, k);
        if Key(e.path, e.inode) == Key(p, i) {
          KeyInjective(e.path, e.inode, p, i);
        }
      }
    }
  }

  class OffsetRegistry {
    var data: map<string, OffsetEntry>

    ghost predicate Valid()
      reads this
    {
      Keyed(data)
    }

    /** A missing file starts an empty table. */
    constructor (file: Option<seq<OffsetEntry>>)
      ensures Valid() && data == if file.Some? then LoadAll(map[], file.value) else map[]
      ensures file.None? ==> forall p, i: nat :: Lookup(p, i) == 0
    {
      data := map[];
      new;
      if file.Some? {
        Load(file.value);
      }
    }

    /** What Get returns, as a function of the table. */
    function Lookup(path: string, inode: nat): int
      reads this
    {
      if Key(path, inode) in data then data[Key(path, inode)].off else 0
    }

    method Load(entries: seq<OffsetEntry>)
      requires Valid()
      modifies this
      ensures Valid() && data == LoadAll(old(data), entries)
      ensures forall p, i: nat, k: int :: IsLastFor(entries, p, i, k) ==>
                Lookup(p, i) == if k >= 0 then entries[k].off else old(Lookup(p, i))
    {
      for i := 0 to |entries|
        invariant Valid() && data == LoadAll(old(data), entries[..i])
      {
        var e := entries[i];
        assert entries[..i + 1][..i] == entries[..i];
        data := data[Key(e.path, e.inode) := e];
      }
      assert entries[..|entries|] == entries;
      hide Key, LoadAll;
      forall p, i: nat, k: int | IsLastFor(entries, p, i, k)
        ensures Lookup(p, i) == if k >= 0 then entries[k].off else old(Lookup(p, i))
      {
        LoadedIsLast(old(data), entries, p, i, k);
      }
    }

    /** Afterwards that path and inode have the offset; every other pair is as before. */
    method Set(path: string, inode: nat, off: int)
      requires Valid()
      modifies this
      ensures Valid() && data == old(data)[Key(path, inode) := OffsetEntry(path, inode, off)]
      ensures forall p, i: nat :: Lookup(p, i) == if (p, i) == (path, inode) then off else old(Lookup(p, i))
    {
      data := data[Key(path, inode) := OffsetEntry(path, inode, off)];
      forall p, i: nat ensures Lookup(p, i) == if (p, i) == (path, inode) then off else old(Lookup(p, i)) {
        if Key(p, i) == Key(path, inode) {
          KeyInjective(p, i, path, inode);
        }
      }
    }

    method Save() returns (entries: seq<OffsetEntry>)
      requires Valid()
      ensures Lists(entries, data) && LoadAll(map[], entries) == data
    {
      entries := [];
      var todo := data.Keys;
      while todo != {}
        invariant todo <= data.Keys
        invariant forall e :: e in entries <==> exists k :: k in data && k !in todo && data[k] == e
        invariant forall i, j :: 0 <= i < j < |entries| ==> entries[i] != entries[j]
        decreases todo
      {
        var k :| k in todo;
        hide Key;
        assert forall k' :: k' in data && k' !in todo ==> data[k'] != data[k];
        assert data[k] !in entries;
        ghost var before := entries;
        entries := entries + [data[k]];
        assert forall e :: e in entries <==> e in before || e == data[k];
        todo := todo - {k};
      }
      assert forall e :: e in entries <==> e in data.Values;
      SaveLoadRoundTrip(data, entries);
    }
  }

  /** Lookup answers with the stored entry of that path and inode, and with 0 when there is none. */
  lemma LookupMeans(r: OffsetRegistry, p: string, i: nat)
    requires r.Valid()
    ensures forall k :: k in r.data && r.data[k].path == p && r.data[k].inode == i ==> r.Lookup(p, i) == r.data[k].off
    ensures (forall k :: k in r.data ==> !(r.data[k].path == p && r.data[k].inode == i)) ==> r.Lookup(p, i) == 0
  {
    hide Key;
    if Key(p, i) in r.data {
      KeyInjective(r.data[Key(p, i)].path, r.data[Key(p, i)].inode, p, i);
    }
  }
}
