/** The JSON text kept in the `labels_json` columns (encodeLabels and decodeLabels in
    web/alerts/store.go): objects and strings per sections 4 and 7 of RFC 8259, printed with
    the escapes of Go's `json.Marshal` and read with the rules of `json.Unmarshal`. */
module LabelsJson {
  import opened Options
  import opened Sequences
  import opened Strings
  import opened Labels

  // ----- printing -----

  function HexDigit(n: int): char
    requires 0 <= n < 16
  {
    "0123456789abcdef"[n]
  }

  function UnicodeEscape(n: int): (r: string)
    requires 0 <= n < 0x1_0000
    ensures |r| == 6
  {
    var m := n / 16;
    var k := m / 16;
    ['\\', 'u', HexDigit(k / 16), HexDigit(k % 16), HexDigit(m % 16), HexDigit(n % 16)]
  }

  /** Two-character escapes, the HTML-safe escapes, U+2028/2029; everything else is verbatim. */
  function Escape(c: char): string {
    var n := c as int;
    if c == '"' || c == '\\' then ['\\', c]
    else if n == 8 then ['\\', 'b']
    else if n == 12 then ['\\', 'f']
    else if c == '\n' then ['\\', 'n']
    else if c == '\r' then ['\\', 'r']
    else if c == '\t' then ['\\', 't']
    else if n < 0x20 || c == '<' || c == '>' || c == '&' || n == 0x2028 || n == 0x2029 then UnicodeEscape(n)
    else [c]
  }

  function EscapeAll(s: string): string {
    if s == [] then [] else Escape(s[0]) + EscapeAll(s[1..])
  }

  function Quote(s: string): string {
    ['"'] + EscapeAll(s) + ['"']
  }

  function Member(k: string, v: string): string {
    Quote(k) + ([':'] + Quote(v))
  }

  /** The texts after the first, each behind its comma. */
  function Following(parts: seq<string>): string {
    if parts == [] then [] else [','] + (parts[0] + Following(parts[1..]))
  }

  function CommaJoin(parts: seq<string>): string {
    if parts == [] then [] else parts[0] + Following(parts[1..])
  }

  /** The member texts, in the order of `keys`. */
  ghost function Parts(labels: LabelSet, keys: seq<string>): (r: seq<string>)
    requires forall k :: k in keys ==> k in labels
    ensures |r| == |keys|
    ensures forall i :: 0 <= i < |keys| ==> r[i] == Member(keys[i], labels[keys[i]])
  {
    seq(|keys|, i requires 0 <= i < |keys| => Member(keys[i], labels[keys[i]]))
  }

  ghost function Encoded(labels: LabelSet): string {
    if labels == map[] then "{}" else ['{'] + (CommaJoin(Parts(labels, SortedKeys(labels.Keys))) + ['}'])
  }

  lemma {:induction false} FollowingAppend(parts: seq<string>, p: string)
    ensures Following(parts + [p]) == Following(parts) + ([','] + p)
  {
    if parts == [] {
      assert parts + [p] == [p] && [p][1..] == [];
    } else {
      FollowingAppend(parts[1..], p);
      assert (parts + [p])[1..] == parts[1..] + [p];
      var x, y, z := parts[0], Following(parts[1..]), [','] + p;
      assert [','] + (x + (y + z)) == ([','] + (x + y)) + z;
    }
  }

  lemma CommaJoinAppend(parts: seq<string>, p: string)
    ensures CommaJoin(parts + [p]) == if parts == [] then p else CommaJoin(parts) + ([','] + p)
  {
    if parts == [] {
      assert parts + [p] == [p] && [p][1..] == [];
    } else {
      assert (parts + [p])[1..] == parts[1..] + [p];
      FollowingAppend(parts[1..], p);
    }
  }

  lemma CommaJoinPrefix(parts: seq<string>, i: nat)
    requires i < |parts|
    ensures CommaJoin(parts[..i + 1]) == if i == 0 then parts[i] else CommaJoin(parts[..i]) + ([','] + parts[i])
  {
    assert parts[..i + 1] == parts[..i] + [parts[i]];
    CommaJoinAppend(parts[..i], parts[i]);
  }

  // ----- the text spelled out -----

  /** One label: its member in braces. */
  lemma EncodedOne(k: string, v: string)
    ensures Encoded(map[k := v]) == "{" + ("\"" + EscapeAll(k) + "\":\"" + EscapeAll(v) + "\"" + "}")
  {
    var m := map[k := v];
    assert IsLeast(k, m.Keys);
    LeastComesFirst(m.Keys, k);
    assert m.Keys - {k} == {} && Parts(m, [k]) == [Member(k, v)];
    assert CommaJoin([Member(k, v)]) == Member(k, v) by { EmptyTail(Member(k, v)); }
    hide CommaJoin, EscapeAll;
    assert Member(k, v) == "\"" + EscapeAll(k) + "\":\"" + EscapeAll(v) + "\"";
  }

  lemma EmptyTail(p: string)
    ensures CommaJoin([p]) == p
  {
    assert [p][1..] == [];
  }

  lemma EncodedIs(m: LabelSet)
    requires m != map[]
    ensures Encoded(m) == ['{'] + (CommaJoin(Parts(m, SortedKeys(m.Keys))) + ['}'])
  {
  }

  lemma MemberText(k: string, v: string)
    ensures Member(k, v) == "\"" + EscapeAll(k) + "\":\"" + EscapeAll(v) + "\""
  {
    hide EscapeAll;
  }

  /** Several: the least key's member, a comma, and the members of the rest. */
  lemma EncodedText(m: LabelSet, k: string)
    requires IsLeast(k, m.Keys) && m - {k} != map[]
    ensures Encoded(m) == "{" + ("\"" + EscapeAll(k) + "\":\"" + EscapeAll(m[k]) + "\"" + ("," + Encoded(m - {k})[1..]))
  {
    hide CommaJoin, EscapeAll, Parts, Member, Encoded;
    var x, y := Member(k, m[k]), CommaJoin(Parts(m - {k}, SortedKeys(m.Keys - {k})));
    assert (m - {k}).Keys == m.Keys - {k};
    EncodedIs(m);
    EncodedIs(m - {k});
    FirstMember(m, k);
    MemberText(k, m[k]);
    TailOfConcat(['{'], y + ['}']);
    EmptyConcat(y + ['}']);
    assert ['{'][1..] == [];
    ConcatAssociates(x, [','] + y, ['}']);
    ConcatAssociates([','], y, ['}']);
  }

  lemma PartsFirst(m: LabelSet, k: string, rest: seq<string>)
    requires k in m && k !in rest && forall x :: x in rest ==> x in m
    ensures Parts(m, [k] + rest) == [Member(k, m[k])] + Parts(m - {k}, rest)
  {
    hide Member;
  }

  lemma FirstMember(m: LabelSet, k: string)
    requires IsLeast(k, m.Keys) && m - {k} != map[]
    ensures CommaJoin(Parts(m, SortedKeys(m.Keys))) ==
            Member(k, m[k]) + ([','] + CommaJoin(Parts(m - {k}, SortedKeys((m - {k}).Keys))))
  {
    var rest := SortedKeys(m.Keys - {k});
    LeastComesFirst(m.Keys, k);
    NonEmptyListing(m - {k});
    assert (m - {k}).Keys == m.Keys - {k};
    PartsFirst(m, k, rest);
    hide CommaJoin, Member, Parts, IsLeast, SortedKeys;
    JoinedFirst(Member(k, m[k]), Parts(m - {k}, rest));
  }

  lemma JoinedFirst(p: string, parts: seq<string>)
    requires parts != []
    ensures CommaJoin([p] + parts) == p + ([','] + CommaJoin(parts))
  {
    assert ([p] + parts)[1..] == parts;
  }

  lemma {:induction false} EscapeAllConcat(a: string, b: string)
    ensures EscapeAll(a + b) == EscapeAll(a) + EscapeAll(b)
  {
    hide Escape;
    if a == [] {
      EmptyConcat(b);
      EmptyConcat(EscapeAll(b));
    } else {
      EscapeAllConcat(a[1..], b);
      TailOfConcat(a, b);
      ConcatAssociates(Escape(a[0]), EscapeAll(a[1..]), EscapeAll(b));
    }
  }

  predicate LowerHex(c: char) { '0' <= c <= '9' || 'a' <= c <= 'f' }

  /** Character by character: the two-character escapes; four lower-case hexadecimal digits for the
      other control characters, for '<', '>' and '&' and for U+2028 and U+2029; all else as it is. */
  lemma EscapeTable(c: char)
    ensures c == '"' ==> EscapeAll([c]) == "\\\""
    ensures c == '\\' ==> EscapeAll([c]) == "\\\\"
    ensures (c as int) == 8 ==> EscapeAll([c]) == "\\b"
    ensures (c as int) == 12 ==> EscapeAll([c]) == "\\f"
    ensures c == '\n' ==> EscapeAll([c]) == "\\n"
    ensures c == '\r' ==> EscapeAll([c]) == "\\r"
    ensures c == '\t' ==> EscapeAll([c]) == "\\t"
    ensures ((c as int) < 0x20 && (c as int) !in {8, 9, 10, 12, 13}) || c in "<>&" || (c as int) in {0x2028, 0x2029} ==>
              var e := EscapeAll([c]);
              && |e| == 6 && e[..2] == "\\u" && UnicodeUnit(e) == Some(c as int)
              && LowerHex(e[2]) && LowerHex(e[3]) && LowerHex(e[4]) && LowerHex(e[5])
    ensures (c as int) >= 0x20 && c !in "\"\\<>&" && (c as int) !in {0x2028, 0x2029} ==> EscapeAll([c]) == [c]
  {
    EscapeOne(c);
    hide EscapeAll, HexDigit, UnicodeUnit, LowerHex;
    if NeedsHex(c) {
      UnicodeRoundTrip(c as int, []);
      EmptyConcat(UnicodeEscape(c as int));
      EscapeIsHex(c as int);
    }
    hide UnicodeEscape;
  }

  predicate NeedsHex(c: char) {
    ((c as int) < 0x20 && (c as int) !in {8, 9, 10, 12, 13}) || c in "<>&" || (c as int) in {0x2028, 0x2029}
  }

  lemma EscapeOne(c: char)
    ensures EscapeAll([c]) == Escape(c)
  {
    hide Escape;
    assert [c][1..] == [];
    EmptyConcat(Escape(c));
  }

  lemma EscapeIsHex(n: int)
    requires 0 <= n < 0x1_0000
    ensures var e := UnicodeEscape(n);
            e[..2] == "\\u" && LowerHex(e[2]) && LowerHex(e[3]) && LowerHex(e[4]) && LowerHex(e[5])
  {
    var m := n / 16;
    var k := m / 16;
    DigitIsHex(k / 16);
    DigitIsHex(k % 16);
    DigitIsHex(m % 16);
    DigitIsHex(n % 16);
    hide HexDigit;
  }

  lemma DigitIsHex(n: int)
    requires 0 <= n < 16
    ensures LowerHex(HexDigit(n))
  {
  }

  method JoinMembers(labels: LabelSet, keys: seq<string>) returns (buf: string)
    requires forall k :: k in keys ==> k in labels
    ensures buf == CommaJoin(Parts(labels, keys))
  {
    buf := [];
    ghost var parts := Parts(labels, keys);
    for i := 0 to |keys|
      invariant buf == CommaJoin(parts[..i])
    {
      var member := Member(keys[i], labels[keys[i]]);
      buf := if i > 0 then buf + ([','] + member) else member;
      assert buf == CommaJoin(parts[..i + 1]) by { CommaJoinPrefix(parts, i); }
    }
    assert parts[..|keys|] == parts;
  }

  method EncodeLabels(labels: LabelSet) returns (text: string)
    ensures text == Encoded(labels)
  {
    if labels == map[] {
      return "{}";
    }
    var keys := CollectKeys(labels);
    keys := SortStrings(keys);
    var members := JoinMembers(labels, keys);
    return ['{'] + (members + ['}']);
  }

  // ----- reading -----

  datatype Parsed<+T> = Parsed(value: T, rest: string)

  /** The digit's value, or -1. */
  function HexValue(c: char): (v: int)
    ensures -1 <= v < 16
  {
    if '0' <= c <= '9' then c as int - '0' as int
    else if 'a' <= c <= 'f' then c as int - 'a' as int + 10
    else if 'A' <= c <= 'F' then c as int - 'A' as int + 10
    else -1
  }

  /** The number written by a `\uXXXX` escape at the front of `t`, if there is one. */
  function UnicodeUnit(t: string): (r: Option<int>)
    ensures r.Some? ==> |t| >= 6 && 0 <= r.value < 0x1_0000
  {
    if |t| < 6 || t[0] != '\\' || t[1] != 'u' then None
    else
      var a, b, c, d := HexValue(t[2]), HexValue(t[3]), HexValue(t[4]), HexValue(t[5]);
      if a < 0 || b < 0 || c < 0 || d < 0 then None else Some(4096 * a + 256 * b + 16 * c + d)
  }

  predicate IsSurrogate(n: int) { 0xD800 <= n < 0xE000 }

  /** One escape sequence: the character it stands for and how much text it takes. A lone
      surrogate reads as U+FFFD, a high-low pair as the character it encodes. */
  function Unescape(t: string): (r: Option<Parsed<char>>)
    requires t != [] && t[0] == '\\'
    ensures r.Some? ==> |r.value.rest| < |t|
  {
    if |t| < 2 then None
    else
      match t[1]
      case '"' => Some(Parsed('"', t[2..]))
      case '\\' => Some(Parsed('\\', t[2..]))
      case '/' => Some(Parsed('/', t[2..]))
      case 'b' => Some(Parsed(8 as char, t[2..]))
      case 'f' => Some(Parsed(12 as char, t[2..]))
      case 'n' => Some(Parsed('\n', t[2..]))
      case 'r' => Some(Parsed('\r', t[2..]))
      case 't' => Some(Parsed('\t', t[2..]))
      case _ => UnescapeUnicode(t)
  }

  function UnescapeUnicode(t: string): (r: Option<Parsed<char>>)
    ensures r.Some? ==> |r.value.rest| < |t|
  {
    match UnicodeUnit(t)
    case None => None
    case Some(u) =>
      if !IsSurrogate(u) then Some(Parsed(u as char, t[6..]))
      else
        match UnicodeUnit(t[6..])
        case Some(v) =>
          if u < 0xDC00 && 0xDC00 <= v < 0xE000 then
            Some(Parsed((0x1_0000 + (u - 0xD800) * 0x400 + (v - 0xDC00)) as char, t[12..]))
          else Some(Parsed(0xFFFD as char, t[6..]))
        case None => Some(Parsed(0xFFFD as char, t[6..]))
  }

  function Prepend(c: char, r: Option<Parsed<string>>): Option<Parsed<string>> {
    if r.None? then None else Some(Parsed([c] + r.value.value, r.value.rest))
  }

  /** The characters of a string literal after its opening quote, up to the closing one. */
  function ParseChars(t: string): (r: Option<Parsed<string>>)
    ensures r.Some? ==> |r.value.rest| < |t|
    decreases |t|
  {
    if t == [] then None
    else if t[0] == '"' then Some(Parsed([], t[1..]))
    else if t[0] == '\\' then
      var e := Unescape(t);
      if e.None? then None else Prepend(e.value.value, ParseChars(e.value.rest))
    else if (t[0] as int) < 0x20 then None
    else Prepend(t[0], ParseChars(t[1..]))
  }

  function ParseString(t: string): (r: Option<Parsed<string>>)
    ensures r.Some? ==> |r.value.rest| < |t|
  {
    if t != [] && t[0] == '"' then ParseChars(t[1..]) else None
  }

  function SkipSpace(t: string): (r: string)
    ensures |r| <= |t|
    ensures t == [] || t[0] !in " \t\n\r" ==> r == t
  {
    if t != [] && t[0] in " \t\n\r" then SkipSpace(t[1..]) else t
  }

  /** One `"key": "value"` member. */
  function ParseMember(t: string): (r: Option<Parsed<(string, string)>>)
    ensures r.Some? ==> |r.value.rest| < |t|
  {
    match ParseString(t)
    case None => None
    case Some(key) =>
      var colon := SkipSpace(key.rest);
      if colon == [] || colon[0] != ':' then None
      else
        match ParseString(SkipSpace(colon[1..]))
        case None => None
        case Some(value) => Some(Parsed((key.value, value.value), value.rest))
  }

  /** Members up to the closing brace; a repeated key keeps its last value. */
  function ParseMembers(t: string, acc: LabelSet): Option<LabelSet>
    decreases |t|
  {
    match ParseMember(t)
    case None => None
    case Some(m) =>
      var acc' := acc[m.value.0 := m.value.1];
      var after := SkipSpace(m.rest);
      if after == [] then None
      else if after[0] == '}' then (if SkipSpace(after[1..]) == [] then Some(acc') else None)
      else if after[0] == ',' then ParseMembers(SkipSpace(after[1..]), acc')
      else None
  }

  function ParseObject(t: string): Option<LabelSet> {
    var s := SkipSpace(t);
    if s == [] || s[0] != '{' then None
    else
      var body := SkipSpace(s[1..]);
      if body != [] && body[0] == '}' then (if SkipSpace(body[1..]) == [] then Some(map[]) else None)
      else ParseMembers(body, map[])
  }

  /** decodeLabels: text that does not parse leaves the map empty. */
  function DecodeLabels(text: string): LabelSet {
    if text == "" then map[]
    else
      match ParseObject(text)
      case Some(m) => m
      case None => map[]
  }

  // ----- round trip -----

  lemma HexRoundTrip(n: int)
    requires 0 <= n < 16
    ensures HexValue(HexDigit(n)) == n
  {
  }

  lemma UnicodeRoundTrip(n: int, tail: string)
    requires 0 <= n < 0x1_0000
    ensures UnicodeUnit(UnicodeEscape(n) + tail) == Some(n)
  {
    var m := n / 16;
    var k := m / 16;
    HexRoundTrip(k / 16);
    HexRoundTrip(k % 16);
    HexRoundTrip(m % 16);
    HexRoundTrip(n % 16);
    var e := UnicodeEscape(n);
    var t := e + tail;
    assert t[0] == e[0] && t[1] == e[1] && t[2] == e[2] && t[3] == e[3] && t[4] == e[4] && t[5] == e[5];
  }

  lemma UnicodeEscapeStarts(n: int, tail: string)
    requires 0 <= n < 0x1_0000
    ensures var t := UnicodeEscape(n) + tail; |t| >= 6 && t[0] == '\\' && t[1] == 'u' && t[6..] == tail
  {
    hide HexDigit;
  }

  lemma UnicodeUnescapes(n: int, tail: string)
    requires 0 <= n < 0x1_0000 && !IsSurrogate(n)
    ensures var t := UnicodeEscape(n) + tail; t != [] && t[0] == '\\' && Unescape(t) == Some(Parsed(n as char, tail))
  {
    hide UnicodeUnit, UnicodeEscape;
    UnicodeEscapeStarts(n, tail);
    UnicodeRoundTrip(n, tail);
  }

  /** An escape sequence at the front reads as the character it stands for. */
  lemma EscapeRead(t: string, c: char, tail: string)
    requires t != [] && t[0] == '\\' && Unescape(t) == Some(Parsed(c, tail))
    ensures ParseChars(t) == Prepend(c, ParseChars(tail))
  {
    hide Unescape;
  }

  lemma ShortUnescapes(c: char, tail: string)
    requires |Escape(c)| == 2
    ensures var t := Escape(c) + tail; t != [] && t[0] == '\\' && Unescape(t) == Some(Parsed(c, tail))
  {
    hide UnescapeUnicode, UnicodeEscape;
    assert (Escape(c) + tail)[2..] == tail;
  }

  lemma VerbatimRead(c: char, tail: string)
    requires Escape(c) == [c]
    ensures ParseChars(Escape(c) + tail) == Prepend(c, ParseChars(tail))
  {
    hide Unescape, UnicodeEscape;
    assert ([c] + tail)[1..] == tail;
  }

  /** What Escape writes, by length. */
  lemma EscapeKinds(c: char)
    ensures Escape(c) == [c] || |Escape(c)| == 2 || ((c as int) < 0x1_0000 && !IsSurrogate(c as int) && Escape(c) == UnicodeEscape(c as int))
  {
    hide UnicodeEscape;
  }

  /** Two `\u` escapes: a high and a low surrogate are one character; a lone one reads as U+FFFD. */
  lemma SurrogatesRead(u: int, v: int, tail: string)
    requires 0xD800 <= u < 0xE000 && 0 <= v < 0x1_0000
    ensures UnescapeUnicode(UnicodeEscape(u) + (UnicodeEscape(v) + tail)) ==
            if u < 0xDC00 && 0xDC00 <= v < 0xE000
            then Some(Parsed((0x1_0000 + (u - 0xD800) * 0x400 + (v - 0xDC00)) as char, tail))
            else Some(Parsed(0xFFFD as char, UnicodeEscape(v) + tail))
  {
    UnicodeRoundTrip(u, UnicodeEscape(v) + tail);
    UnicodeRoundTrip(v, tail);
    UnicodeEscapeStarts(u, UnicodeEscape(v) + tail);
    UnicodeEscapeStarts(v, tail);
    hide UnicodeUnit, UnicodeEscape;
    var t := UnicodeEscape(u) + (UnicodeEscape(v) + tail);
    assert t[12..] == t[6..][6..];
  }

  /** White space before an object makes no difference. */
  lemma SpaceSkipped(c: char, t: string)
    requires c in " \t\n\r"
    ensures SkipSpace([c] + t) == SkipSpace(t) && ParseObject([c] + t) == ParseObject(t)
  {
    assert ([c] + t)[1..] == t;
  }

  lemma EscapeParses(c: char, tail: string)
    ensures ParseChars(Escape(c) + tail) == Prepend(c, ParseChars(tail))
  {
    hide Escape, UnicodeEscape, ParseChars, Unescape;
    EscapeKinds(c);
    if Escape(c) == [c] {
      VerbatimRead(c, tail);
    } else {
      if |Escape(c)| == 2 { ShortUnescapes(c, tail); } else { UnicodeUnescapes(c as int, tail); }
      EscapeRead(Escape(c) + tail, c, tail);
    }
  }

  lemma {:induction false} QuotedParses(s: string, rest: string)
    ensures ParseChars(EscapeAll(s) + (['"'] + rest)) == Some(Parsed(s, rest))
  {
    if s == [] {
      assert EscapeAll(s) + (['"'] + rest) == ['"'] + rest;
      assert (['"'] + rest)[1..] == rest;
    } else {
      var tail := EscapeAll(s[1..]) + (['"'] + rest);
      assert EscapeAll(s) + (['"'] + rest) == Escape(s[0]) + tail;
      EscapeParses(s[0], tail);
      QuotedParses(s[1..], rest);
      hide Escape, ParseChars;
      assert s == [s[0]] + s[1..];
    }
  }

  lemma QuoteParses(s: string, rest: string)
    ensures ParseString(Quote(s) + rest) == Some(Parsed(s, rest))
  {
    hide ParseChars, EscapeAll;
    QuotedParses(s, rest);
    assert (Quote(s) + rest)[1..] == EscapeAll(s) + (['"'] + rest);
  }

  lemma MemberParses(k: string, v: string, rest: string)
    ensures ParseMember(Member(k, v) + rest) == Some(Parsed((k, v), rest))
  {
    var value := Quote(v) + rest;
    var colon := [':'] + value;
    hide ParseString, EscapeAll, SkipSpace;
    assert Member(k, v) + rest == Quote(k) + colon;
    assert value[0] == '"';
    hide Member, Quote;
    QuoteParses(k, colon);
    assert colon[1..] == value;
    QuoteParses(v, rest);
  }

  ghost function Merge(acc: LabelSet, labels: LabelSet, keys: seq<string>): (r: LabelSet)
    requires forall k :: k in keys ==> k in labels
    ensures forall k :: k in r <==> k in acc || k in keys
    ensures forall k :: k in keys ==> r[k] == labels[k]
    ensures forall k :: k in acc && k !in keys ==> r[k] == acc[k]
    decreases |keys|
  {
    if keys == [] then acc else Merge(acc[keys[0] := labels[keys[0]]], labels, keys[1..])
  }

  /** Stepping over one member: to the closing brace, or past the comma to the next one. */
  lemma MembersStep(k: string, v: string, after: string, acc: LabelSet)
    requires after != []
    requires after[0] == '}' ==> after[1..] == []
    ensures after[0] == '}' ==> ParseMembers(Member(k, v) + after, acc) == Some(acc[k := v])
    ensures after[0] == ',' ==>
              ParseMembers(Member(k, v) + after, acc) == ParseMembers(SkipSpace(after[1..]), acc[k := v])
  {
    hide Member, ParseMember, DecodeLabels;
    MemberParses(k, v, after);
  }

  lemma {:induction false} MembersParse(labels: LabelSet, keys: seq<string>, acc: LabelSet)
    requires keys != [] && forall k :: k in keys ==> k in labels
    ensures ParseMembers(CommaJoin(Parts(labels, keys)) + ['}'], acc) == Some(Merge(acc, labels, keys))
    decreases |keys|
  {
    hide ParseMembers, SkipSpace, EscapeAll;
    var k, v, parts := keys[0], labels[keys[0]], Parts(labels, keys);
    assert parts[1..] == Parts(labels, keys[1..]);
    var after := Following(parts[1..]) + ['}'];
    assert CommaJoin(parts) + ['}'] == Member(k, v) + after;
    if |keys| == 1 {
      assert after == ['}'];
      MembersStep(k, v, after, acc);
    } else {
      var next := CommaJoin(parts[1..]) + ['}'];
      assert after == [','] + next && next[0] == '"';
      assert after[1..] == next && SkipSpace(next) == next;
      MembersStep(k, v, after, acc);
      MembersParse(labels, keys[1..], acc[k := v]);
    }
  }

  lemma MergeAll(labels: LabelSet)
    ensures Merge(map[], labels, SortedKeys(labels.Keys)) == labels
  {
  }

  lemma ObjectParses(members: string)
    requires members != [] && members[0] == '"'
    ensures ParseObject(['{'] + members) == ParseMembers(members, map[])
  {
    var s := ['{'] + members;
    assert SkipSpace(s) == s && s[1..] == members && SkipSpace(members) == members;
  }

  lemma EmptyRoundTrip()
    ensures DecodeLabels("{}") == map[]
  {
    hide ParseMembers;
    var text: string := "{}";
    assert SkipSpace(text) == text && text[1..] == "}" && SkipSpace("}") == "}" && "}"[1..] == [];
  }

  /** decodeLabels(encodeLabels(m)) == m for every label map. */
  lemma LabelsRoundTrip(labels: LabelSet)
    ensures DecodeLabels(Encoded(labels)) == labels
  {
    if labels == map[] {
      EmptyRoundTrip();
    } else {
      hide ParseMembers, ParseObject, SkipSpace, Member, Following, Merge;
      var keys := SortedKeys(labels.Keys);
      NonEmptyListing(labels);
      var members := CommaJoin(Parts(labels, keys)) + ['}'];
      assert members != [] && members[0] == '"' by { MembersStart(labels, keys); }
      ObjectParses(members);
      MembersParse(labels, keys, map[]);
      MergeAll(labels);
    }
  }

  lemma MembersStart(labels: LabelSet, keys: seq<string>)
    requires keys != [] && forall k :: k in keys ==> k in labels
    ensures var members := CommaJoin(Parts(labels, keys)) + ['}']; members != [] && members[0] == '"'
  {
    hide Following;
  }

  /** Hence the stored text determines the label map. */
  lemma EncodedInjective(a: LabelSet, b: LabelSet)
    requires Encoded(a) == Encoded(b)
    ensures a == b
  {
    LabelsRoundTrip(a);
    LabelsRoundTrip(b);
  }

  // ----- the text is plain -----

  /** No control character, nothing with a meaning in HTML, no line separator of JavaScript. */
  predicate Plain(s: string) {
    forall c :: c in s ==> PlainChar(c)
  }

  predicate PlainChar(c: char) {
    (c as int) >= 0x20 && c != '<' && c != '>' && c != '&' && (c as int) != 0x2028 && (c as int) != 0x2029
  }

  lemma HexPlain(n: int)
    requires 0 <= n < 16
    ensures PlainChar(HexDigit(n))
  {
  }

  lemma UnicodeEscapePlain(n: int)
    requires 0 <= n < 0x1_0000
    ensures Plain(UnicodeEscape(n))
  {
    var m := n / 16;
    var k := m / 16;
    HexPlain(k / 16);
    HexPlain(k % 16);
    HexPlain(m % 16);
    HexPlain(n % 16);
    hide HexDigit, PlainChar;
    assert PlainChar('\\') && PlainChar('u') by { SomePlain(); }
  }

  lemma SomePlain()
    ensures PlainChar('\\') && PlainChar('u')
  {
  }

  lemma ShortPlain(c: char)
    requires |Escape(c)| == 2 || Escape(c) == [c]
    ensures Plain(Escape(c))
  {
    hide UnicodeEscape;
  }

  lemma EscapePlain(c: char)
    ensures Plain(Escape(c))
  {
    EscapeKinds(c);
    hide Escape, UnicodeEscape, Plain, IsSurrogate;
    if Escape(c) != [c] && |Escape(c)| != 2 {
      UnicodeEscapePlain(c as int);
    } else {
      ShortPlain(c);
    }
  }

  lemma {:induction false} EscapeAllPlain(s: string)
    ensures Plain(EscapeAll(s))
  {
    if s != [] {
      EscapePlain(s[0]);
      EscapeAllPlain(s[1..]);
    }
  }

  lemma MemberPlain(k: string, v: string)
    ensures Plain(Member(k, v))
  {
    hide EscapeAll;
    EscapeAllPlain(k);
    EscapeAllPlain(v);
  }

  lemma {:induction false} FollowingPlain(parts: seq<string>)
    requires forall p :: p in parts ==> Plain(p)
    ensures Plain(Following(parts))
  {
    if parts != [] {
      FollowingPlain(parts[1..]);
      assert parts[0] in parts;
    }
  }

  lemma PartsPlain(parts: seq<string>)
    requires forall i :: 0 <= i < |parts| ==> Plain(parts[i])
    ensures Plain(CommaJoin(parts))
  {
    if parts != [] {
      forall p | p in parts[1..] ensures Plain(p) {
        var i :| 0 <= i < |parts[1..]| && parts[1..][i] == p;
        assert p == parts[i + 1];
      }
      FollowingPlain(parts[1..]);
    }
  }

  /** Whatever the labels contain, the stored text is free of raw control characters, of '<', '>'
      and '&', and of U+2028 and U+2029. */
  lemma EncodedPlain(labels: LabelSet)
    ensures Plain(Encoded(labels))
  {
    if labels != map[] {
      var keys := SortedKeys(labels.Keys);
      var parts := Parts(labels, keys);
      forall i | 0 <= i < |parts| ensures Plain(parts[i]) {
        MemberPlain(keys[i], labels[keys[i]]);
      }
      hide Parts, Member;
      PartsPlain(parts);
    }
  }
}
