/** Series keys: canonical bytes and their parser. */
module SeriesKeys {
  import opened Types

  const COMMA: byte := 44
  const EQUALS: byte := 61

  datatype ParseError = InvalidUtf8 | MalformedTag

  // ----- Byte order of strings -----

  predicate LexLeq(a: Text, b: Text) {
    a == [] || (b != [] && (a[0] < b[0] || (a[0] == b[0] && LexLeq(a[1..], b[1..]))))
  }

  lemma {:induction false} LexTotal(a: Text, b: Text)
    ensures LexLeq(a, b) || LexLeq(b, a)
    ensures LexLeq(a, b) && LexLeq(b, a) ==> a == b
  {
    if a != [] && b != [] && a[0] == b[0] {
      LexTotal(a[1..], b[1..]);
      assert a == [a[0]] + a[1..] && b == [b[0]] + b[1..];
    }
  }

  lemma {:induction false} LexTransitive(a: Text, b: Text, c: Text)
    requires LexLeq(a, b) && LexLeq(b, c)
    ensures LexLeq(a, c)
  {
    if a != [] && a[0] == b[0] == c[0] {
      LexTransitive(a[1..], b[1..], c[1..]);
    }
  }

  predicate IsLeast(s: set<Text>, m: Text) {
    m in s && forall x :: x in s ==> LexLeq(m, x)
  }

  lemma {:induction false} LeastExists(s: set<Text>)
    requires s != {}
    ensures exists m :: IsLeast(s, m)
  {
    var x :| x in s;
    LexTotal(x, x);
    if s == {x} {
      assert IsLeast(s, x);
    } else {
      LeastExists(s - {x});
      var m :| IsLeast(s - {x}, m);
      LexTotal(x, m);
      if LexLeq(m, x) {
        assert IsLeast(s, m);
      } else {
        forall y | y in s ensures LexLeq(x, y) {
          if y != x {
            LexTransitive(x, m, y);
          }
        }
        assert IsLeast(s, x);
      }
    }
  }

  function Least(s: set<Text>): (m: Text)
    requires s != {}
    ensures IsLeast(s, m)
  {
    LeastExists(s);
    assert forall m, m' :: IsLeast(s, m) && IsLeast(s, m') ==> m == m' by {
      forall m, m' | IsLeast(s, m) && IsLeast(s, m') ensures m == m' {
        LexTotal(m, m');
      }
    }
    var m :| IsLeast(s, m);
    m
  }

  predicate StrictlySorted(ks: seq<Text>) {
    forall i, j :: 0 <= i < j < |ks| ==> LexLeq(ks[i], ks[j]) && ks[i] != ks[j]
  }

  /** The iteration order of a tag map: every key once, in increasing byte order. */
  function SortedKeys(s: set<Text>): (ks: seq<Text>)
    ensures forall k :: k in ks <==> k in s
    ensures StrictlySorted(ks)
  {
    if s == {} then []
    else
      var m := Least(s);
      [m] + SortedKeys(s - {m})
  }

  lemma {:induction false} SortedLength(s: set<Text>)
    ensures |SortedKeys(s)| == |s|
  {
    if s != {} {
      SortedLength(s - {Least(s)});
    }
  }

  // ----- UTF-8 -----

  predicate Continuation(b: byte) {
    0x80 <= b < 0xC0
  }

  /** Length of the well-formed UTF-8 character at the start of `s`, or 0. */
  function CharWidth(s: Text): (w: nat)
    requires s != []
    ensures w <= |s| && w <= 4
  {
    if s[0] < 0x80 then 1
    else if 0xC2 <= s[0] < 0xE0 && |s| >= 2 && Continuation(s[1]) then 2
    else if 0xE0 <= s[0] < 0xF0 && |s| >= 3 && Continuation(s[1]) && Continuation(s[2])
            && (s[0] == 0xE0 ==> s[1] >= 0xA0) && (s[0] == 0xED ==> s[1] < 0xA0) then 3
    else if 0xF0 <= s[0] < 0xF5 && |s| >= 4 && Continuation(s[1]) && Continuation(s[2]) && Continuation(s[3])
            && (s[0] == 0xF0 ==> s[1] >= 0x90) && (s[0] == 0xF4 ==> s[1] < 0x90) then 4
    else 0
  }

  predicate Utf8(s: Text) {
    s == [] || (CharWidth(s) > 0 && Utf8(s[CharWidth(s)..]))
  }

  lemma {:induction false} Utf8Concat(a: Text, b: Text)
    requires Utf8(a) && Utf8(b)
    ensures Utf8(a + b)
  {
    if a == [] {
      assert a + b == b;
    } else {
      var w := CharWidth(a);
      assert CharWidth(a + b) == w;
      assert (a + b)[w..] == a[w..] + b;
      Utf8Concat(a[w..], b);
    }
  }

  // ----- Printing -----

  function TagPair(k: Text, v: Text): Text {
    k + [EQUALS] + v
  }

  function TagBytes(ks: seq<Text>, tags: map<Text, Text>): Text
    requires forall k :: k in ks ==> k in tags
  {
    if ks == [] then [] else [COMMA] + TagPair(ks[0], tags[ks[0]]) + TagBytes(ks[1..], tags)
  }

  lemma TagBytesStep(buf: Text, ks: seq<Text>, i: nat, tags: map<Text, Text>)
    requires i < |ks| && forall k :: k in ks ==> k in tags
    ensures buf + TagBytes(ks[i..], tags) == buf + [COMMA] + TagPair(ks[i], tags[ks[i]]) + TagBytes(ks[i + 1..], tags)
  {
    assert ks[i..][1..] == ks[i + 1..];
    Assoc(buf, [COMMA], TagPair(ks[i], tags[ks[i]]));
    Assoc(buf, [COMMA] + TagPair(ks[i], tags[ks[i]]), TagBytes(ks[i + 1..], tags));
  }

  /** `metric,k1=v1,k2=v2`, tags in key order. */
  function ToBytes(key: SeriesKey): Text {
    key.metric + TagBytes(SortedKeys(key.tags.Keys), key.tags)
  }

  method PrintKey(key: SeriesKey) returns (buf: Text)
    ensures buf == ToBytes(key)
  {
    var ks := SortedKeys(key.tags.Keys);
    buf := key.metric;
    assert ks[0..] == ks;
    for i := 0 to |ks|
      invariant buf + TagBytes(ks[i..], key.tags) == ToBytes(key)
    {
      hide TagPair, ToBytes;
      TagBytesStep(buf, ks, i, key.tags);
      buf := buf + [COMMA];
      buf := buf + TagPair(ks[i], key.tags[ks[i]]);
    }
    assert buf + TagBytes([], key.tags) == buf;
  }

  /** The series id hashes the same bytes, fed piecewise, as the one-shot hash of the printed key. */
  method SeriesIdFromParts(hash: Text -> u64, metric: Text, tags: map<Text, Text>) returns (id: SeriesId)
    ensures id == hash(ToBytes(SeriesKey(metric, tags)))
  {
    var ks := SortedKeys(tags.Keys);
    var fed := metric;
    assert ks[0..] == ks;
    for i := 0 to |ks|
      invariant fed + TagBytes(ks[i..], tags) == ToBytes(SeriesKey(metric, tags))
    {
      hide TagPair, ToBytes;
      TagBytesStep(fed, ks, i, tags);
      fed := fed + [COMMA];
      fed := fed + TagPair(ks[i], tags[ks[i]]);
    }
    assert fed + TagBytes([], tags) == fed;
    id := hash(fed);
  }

  // ----- Parsing -----

  function Split(s: Text, sep: byte): (parts: seq<Text>)
    ensures parts != []
  {
    if s == [] then [[]]
    else
      var rest := Split(s[1..], sep);
      if s[0] == sep then [[]] + rest else [[s[0]] + rest[0]] + rest[1..]
  }

  function SplitOnce(s: Text, sep: byte): Option<(Text, Text)> {
    if s == [] then None
    else if s[0] == sep then Some(([], s[1..]))
    else
      match SplitOnce(s[1..], sep)
      case None => None
      case Some((k, v)) => Some(([s[0]] + k, v))
  }

  function ParseTags(parts: seq<Text>, tags: map<Text, Text>): Result<map<Text, Text>, ParseError> {
    if parts == [] then Ok(tags)
    else
      match SplitOnce(parts[0], EQUALS)
      case None => Err(MalformedTag)
      case Some((k, v)) => ParseTags(parts[1..], tags[k := v])
  }

  function FromBytes(bytes: Text): Result<SeriesKey, ParseError> {
    if !Utf8(bytes) then Err(InvalidUtf8)
    else
      var parts := Split(bytes, COMMA);
      match ParseTags(parts[1..], map[])
      case Err(e) => Err(e)
      case Ok(tags) => Ok(SeriesKey(parts[0], tags))
  }

  method ParseKey(bytes: Text) returns (r: Result<SeriesKey, ParseError>)
    ensures r == FromBytes(bytes)
  {
    if !Utf8(bytes) {
      return Err(InvalidUtf8);
    }
    var parts := Split(bytes, COMMA);
    var tags: map<Text, Text> := map[];
    var i := 1;
    while i < |parts|
      invariant 1 <= i <= |parts|
      invariant ParseTags(parts[1..], map[]) == ParseTags(parts[i..], tags)
    {
      assert parts[i..][1..] == parts[i + 1..];
      match SplitOnce(parts[i], EQUALS) {
        case None =>
          return Err(MalformedTag);
        case Some((k, v)) =>
          tags := tags[k := v];
      }
      i := i + 1;
    }
    r := Ok(SeriesKey(parts[0], tags));
  }

  // ----- Round trip -----

  /** The keys the printed form can tell apart. */
  predicate Clean(key: SeriesKey) {
    && COMMA !in key.metric
    && forall k :: k in key.tags ==> COMMA !in k && EQUALS !in k && COMMA !in key.tags[k]
  }

  /** What the string types of the key guarantee. */
  predicate WellEncoded(key: SeriesKey) {
    Utf8(key.metric) && forall k :: k in key.tags ==> Utf8(k) && Utf8(key.tags[k])
  }

  lemma {:induction false} SplitPrefix(a: Text, s: Text, sep: byte)
    requires sep !in a
    ensures Split(a + s, sep) == [a + Split(s, sep)[0]] + Split(s, sep)[1..]
  {
    if a == [] {
      assert a + s == s && a + Split(s, sep)[0] == Split(s, sep)[0];
    } else {
      assert (a + s)[1..] == a[1..] + s;
      SplitPrefix(a[1..], s, sep);
      assert a == [a[0]] + a[1..];
      assert a + Split(s, sep)[0] == [a[0]] + (a[1..] + Split(s, sep)[0]);
    }
  }

  lemma {:induction false} SplitOncePrefix(k: Text, v: Text, sep: byte)
    requires sep !in k
    ensures SplitOnce(k + [sep] + v, sep) == Some((k, v))
  {
    var s := k + [sep] + v;
    if k == [] {
      assert s[1..] == v;
    } else {
      assert s[1..] == k[1..] + [sep] + v;
      SplitOncePrefix(k[1..], v, sep);
      assert k == [k[0]] + k[1..];
    }
  }

  function Pairs(ks: seq<Text>, tags: map<Text, Text>): (ps: seq<Text>)
    requires forall k :: k in ks ==> k in tags
    ensures |ps| == |ks|
  {
    if ks == [] then [] else [TagPair(ks[0], tags[ks[0]])] + Pairs(ks[1..], tags)
  }

  lemma {:induction false} SplitPrinted(head: Text, ks: seq<Text>, tags: map<Text, Text>)
    requires COMMA !in head
    requires forall k :: k in ks ==> k in tags && COMMA !in k && COMMA !in tags[k]
    ensures Split(head + TagBytes(ks, tags), COMMA) == [head] + Pairs(ks, tags)
    decreases |ks|
  {
    SplitPrefix(head, TagBytes(ks, tags), COMMA);
    if ks == [] {
      assert head + [] == head;
    } else {
      var pair := TagPair(ks[0], tags[ks[0]]);
      assert TagBytes(ks, tags) == [COMMA] + (pair + TagBytes(ks[1..], tags));
      assert TagBytes(ks, tags)[1..] == pair + TagBytes(ks[1..], tags);
      SplitPrinted(pair, ks[1..], tags);
      assert head + [] == head;
    }
  }

  lemma {:induction false} ParsePairs(ks: seq<Text>, tags: map<Text, Text>, acc: map<Text, Text>)
    requires forall k :: k in ks ==> k in tags && EQUALS !in k
    requires forall k :: k in acc ==> k in tags && acc[k] == tags[k]
    requires forall k :: k in tags ==> k in ks || k in acc
    ensures ParseTags(Pairs(ks, tags), acc) == Ok(tags)
  {
    if ks == [] {
      assert acc == tags;
    } else {
      SplitOncePrefix(ks[0], tags[ks[0]], EQUALS);
      ParsePairs(ks[1..], tags, acc[ks[0] := tags[ks[0]]]);
    }
  }

  lemma {:induction false} TagBytesUtf8(ks: seq<Text>, tags: map<Text, Text>)
    requires forall k :: k in ks ==> k in tags && Utf8(k) && Utf8(tags[k])
    ensures Utf8(TagBytes(ks, tags))
  {
    if ks != [] {
      TagBytesUtf8(ks[1..], tags);
      assert Utf8([COMMA]) && Utf8([EQUALS]);
      Utf8Concat(ks[0], [EQUALS]);
      Utf8Concat(ks[0] + [EQUALS], tags[ks[0]]);
      Utf8Concat([COMMA], TagPair(ks[0], tags[ks[0]]));
      Utf8Concat([COMMA] + TagPair(ks[0], tags[ks[0]]), TagBytes(ks[1..], tags));
    }
  }

  /** No part of a split contains the separator. */
  lemma {:induction false} SplitParts(s: Text, sep: byte)
    ensures forall i :: 0 <= i < |Split(s, sep)| ==> sep !in Split(s, sep)[i]
  {
    if s != [] {
      SplitParts(s[1..], sep);
    }
  }

  lemma {:induction false} SplitOnceParts(s: Text, sep: byte, other: byte)
    requires other !in s
    ensures SplitOnce(s, sep).Some? ==>
              sep !in SplitOnce(s, sep).value.0 && other !in SplitOnce(s, sep).value.0 && other !in SplitOnce(s, sep).value.1
  {
    if s != [] {
      SplitOnceParts(s[1..], sep, other);
    }
  }

  lemma {:induction false} ParsedTagsClean(parts: seq<Text>, acc: map<Text, Text>)
    requires forall i :: 0 <= i < |parts| ==> COMMA !in parts[i]
    requires Clean(SeriesKey([], acc))
    requires ParseTags(parts, acc).Ok?
    ensures Clean(SeriesKey([], ParseTags(parts, acc).value))
  {
    if parts != [] {
      SplitOnceParts(parts[0], EQUALS, COMMA);
      var (k, v) := SplitOnce(parts[0], EQUALS).value;
      ParsedTagsClean(parts[1..], acc[k := v]);
    }
  }

  /** The parser undoes the printer exactly on the clean keys. */
  lemma PrintParse(key: SeriesKey)
    requires WellEncoded(key)
    ensures FromBytes(ToBytes(key)) == Ok(key) <==> Clean(key)
  {
    hide Clean, FromBytes, WellEncoded;
    if Clean(key) {
      CleanParses(key);
    }
    if FromBytes(ToBytes(key)) == Ok(key) {
      ParsedClean(key);
    }
  }

  lemma CleanParses(key: SeriesKey)
    requires WellEncoded(key) && Clean(key)
    ensures FromBytes(ToBytes(key)) == Ok(key)
  {
    hide SortedKeys, Utf8, Split, TagBytes;
    var ks := SortedKeys(key.tags.Keys);
    TagBytesUtf8(ks, key.tags);
    Utf8Concat(key.metric, TagBytes(ks, key.tags));
    SplitPrinted(key.metric, ks, key.tags);
    ParsePairs(ks, key.tags, map[]);
  }

  lemma ParsedClean(key: SeriesKey)
    requires FromBytes(ToBytes(key)) == Ok(key)
    ensures Clean(key)
  {
    hide SortedKeys, Utf8, Split, TagBytes;
    var bytes := ToBytes(key);
    SplitParts(bytes, COMMA);
    ParsedTagsClean(Split(bytes, COMMA)[1..], map[]);
  }

  /** Clean keys print differently, which the chunk directory and the series ids rely on. */
  lemma PrintInjective(a: SeriesKey, b: SeriesKey)
    requires WellEncoded(a) && WellEncoded(b) && Clean(a) && Clean(b)
    ensures ToBytes(a) == ToBytes(b) ==> a == b
  {
    PrintParse(a);
    PrintParse(b);
  }

  lemma SortedSingleton(k: Text)
    ensures SortedKeys({k}) == [k]
  {
    assert Least({k}) == k;
    assert {k} - {k} == {};
  }

  lemma PrintOneTag(m: Text, k: Text, v: Text)
    ensures ToBytes(SeriesKey(m, map[k := v])) == m + [COMMA] + k + [EQUALS] + v
  {
    SortedSingleton(k);
    assert map[k := v].Keys == {k};
    assert TagBytes([k], map[k := v]) == [COMMA] + (k + [EQUALS] + v) + [];
  }

  lemma PrintNoTag(m: Text)
    ensures ToBytes(SeriesKey(m, map[])) == m
  {
  }

  /** Without the condition different series share one printed form: a comma in a metric name forges a tag. */
  lemma CommaInMetricCollides(m: Text, k: Text, v: Text)
    ensures var a, b := SeriesKey(m + [COMMA] + k + [EQUALS] + v, map[]), SeriesKey(m, map[k := v]);
      a != b && ToBytes(a) == ToBytes(b)
  {
    PrintOneTag(m, k, v);
    PrintNoTag(m + [COMMA] + k + [EQUALS] + v);
    assert k in map[k := v];
  }
}
