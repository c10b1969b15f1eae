/** Which byte strings are series keys, and which key each of them is. */
module KeyParsing {
  import opened Types
  import opened SeriesKeys

  // ----- Splitting -----

  /** The parts with a separator between neighbours. */
  ghost function Join(parts: seq<Text>, sep: byte): Text
    requires parts != []
  {
    if |parts| == 1 then parts[0] else parts[0] + [sep] + Join(parts[1..], sep)
  }

  ghost predicate Apart(parts: seq<Text>, sep: byte) {
    forall i :: 0 <= i < |parts| ==> sep !in parts[i]
  }

  /** Splitting undoes joining, so it is the only way to take a string apart at a separator. */
  lemma {:induction false} SplitJoined(parts: seq<Text>, sep: byte)
    requires parts != [] && Apart(parts, sep)
    ensures Split(Join(parts, sep), sep) == parts
  {
    if |parts| == 1 {
      SplitPrefix(parts[0], [], sep);
      assert parts[0] + [] == parts[0] && parts == [parts[0]] + [];
    } else {
      var rest := Join(parts[1..], sep);
      SplitJoined(parts[1..], sep);
      SplitPrefix(parts[0], [sep] + rest, sep);
      assert parts[0] + [sep] + rest == parts[0] + ([sep] + rest);
      assert ([sep] + rest)[1..] == rest;
      assert parts[0] + [] == parts[0] && parts == [parts[0]] + parts[1..];
    }
  }

  /** A string is split at its first separator, if it has one. */
  lemma {:induction false} SplitOnceExact(s: Text, sep: byte)
    ensures match SplitOnce(s, sep)
      case None => sep !in s
      case Some((k, v)) => sep !in k && s == k + [sep] + v
  {
    if s != [] {
      SplitOnceExact(s[1..], sep);
      assert s == [s[0]] + s[1..];
      if s[0] != sep && SplitOnce(s[1..], sep).Some? {
        var (k, v) := SplitOnce(s[1..], sep).value;
        assert s == [s[0]] + k + [sep] + v;
      }
    }
  }

  // ----- Parsing -----

  /** The part reads `k=v`, cut at its first equals sign. */
  ghost predicate IsTag(part: Text, k: Text, v: Text) {
    61 !in k && part == k + [61] + v
  }

  lemma TagIsSplit(part: Text, k: Text, v: Text)
    ensures IsTag(part, k, v) <==> SplitOnce(part, EQUALS) == Some((k, v))
  {
    SplitOnceExact(part, EQUALS);
    if IsTag(part, k, v) {
      SplitOncePrefix(k, v, EQUALS);
    }
  }

  lemma NoTag(part: Text)
    ensures SplitOnce(part, EQUALS).None? <==> 61 !in part
  {
    SplitOnceExact(part, EQUALS);
  }

  /** The last of the parts that sets tag `k` sets it to `v`. */
  ghost predicate SetsLast(parts: seq<Text>, k: Text, v: Text) {
    exists i :: 0 <= i < |parts| && IsTag(parts[i], k, v) && forall j, w :: i < j < |parts| ==> !IsTag(parts[j], k, w)
  }

  ghost predicate Sets(parts: seq<Text>, k: Text) {
    exists i, v :: 0 <= i < |parts| && IsTag(parts[i], k, v)
  }

  lemma {:induction false} ParseTagsExact(parts: seq<Text>, acc: map<Text, Text>)
    ensures var r := ParseTags(parts, acc);
      && (r.Ok? <==> forall i :: 0 <= i < |parts| ==> 61 in parts[i])
      && (r.Err? ==> r.error == MalformedTag)
      && (r.Ok? ==> Ends(parts, acc, r.value))
  {
    hide Sets, SetsLast;
    if parts == [] {
      forall k, v ensures !SetsLast(parts, k, v) && !Sets(parts, k) {
        NothingSet(k, v);
      }
    } else {
      NoTag(parts[0]);
      if SplitOnce(parts[0], EQUALS).Some? {
        var (k0, v0) := SplitOnce(parts[0], EQUALS).value;
        ParseTagsExact(parts[1..], acc[k0 := v0]);
        assert forall i :: 0 < i < |parts| ==> parts[i] == parts[1..][i - 1];
        assert ParseTags(parts, acc) == ParseTags(parts[1..], acc[k0 := v0]);
        if ParseTags(parts, acc).Ok? {
          TagsCons(parts, acc, k0, v0, ParseTags(parts, acc).value);
        }
      }
    }
  }

  /** The tags that parsing ends with, given those it started with. */
  ghost predicate Ends(parts: seq<Text>, acc: map<Text, Text>, tags: map<Text, Text>) {
    forall k, v :: (k in tags && tags[k] == v) <==> SetsLast(parts, k, v) || (!Sets(parts, k) && k in acc && acc[k] == v)
  }

  lemma NothingSet(k: Text, v: Text)
    ensures !SetsLast([], k, v) && !Sets([], k)
  {
  }

  lemma TagsCons(parts: seq<Text>, acc: map<Text, Text>, k0: Text, v0: Text, tags: map<Text, Text>)
    requires parts != [] && SplitOnce(parts[0], EQUALS) == Some((k0, v0)) && Ends(parts[1..], acc[k0 := v0], tags)
    ensures Ends(parts, acc, tags)
  {
    hide Sets, SetsLast;
    forall k, v ensures (k in tags && tags[k] == v) <==> SetsLast(parts, k, v) || (!Sets(parts, k) && k in acc && acc[k] == v) {
      SetsCons(parts, k0, v0, k, v);
      LastIsSet(parts[1..], k, v);
    }
  }

  lemma LastIsSet(parts: seq<Text>, k: Text, v: Text)
    ensures SetsLast(parts, k, v) ==> Sets(parts, k)
  {
  }

  /** How the first part matters. */
  lemma SetsCons(parts: seq<Text>, k0: Text, v0: Text, k: Text, v: Text)
    requires parts != [] && SplitOnce(parts[0], EQUALS) == Some((k0, v0))
    ensures Sets(parts, k) <==> k == k0 || Sets(parts[1..], k)
    ensures SetsLast(parts, k, v) <==> SetsLast(parts[1..], k, v) || (!Sets(parts[1..], k) && (k, v) == (k0, v0))
  {
    hide IsTag;
    var rest := parts[1..];
    forall k', v' ensures IsTag(parts[0], k', v') <==> (k', v') == (k0, v0) {
      TagIsSplit(parts[0], k', v');
    }
    assert forall i :: 0 <= i < |rest| ==> rest[i] == parts[i + 1];
    if i, w :| 0 <= i < |parts| && IsTag(parts[i], k, w) && i > 0 {
      assert IsTag(rest[i - 1], k, w);
    }
    if i, w :| 0 <= i < |rest| && IsTag(rest[i], k, w) {
      assert IsTag(parts[i + 1], k, w);
    }
    if k == k0 {
      assert IsTag(parts[0], k, v0);
    }
    LastCons(parts, k0, v0, k, v);
  }

  lemma LastCons(parts: seq<Text>, k0: Text, v0: Text, k: Text, v: Text)
    requires parts != [] && forall k', v' :: IsTag(parts[0], k', v') <==> (k', v') == (k0, v0)
    ensures SetsLast(parts, k, v) <==> SetsLast(parts[1..], k, v) || (!Sets(parts[1..], k) && (k, v) == (k0, v0))
  {
    hide IsTag;
    var rest := parts[1..];
    if SetsLast(parts, k, v) {
      var i :| 0 <= i < |parts| && IsTag(parts[i], k, v) && forall j, w :: i < j < |parts| ==> !IsTag(parts[j], k, w);
      if i > 0 {
        assert IsTag(rest[i - 1], k, v) && forall j, w :: i - 1 < j < |rest| ==> rest[j] == parts[j + 1] && !IsTag(rest[j], k, w);
      } else {
        assert forall j, w :: 0 <= j < |rest| ==> rest[j] == parts[j + 1] && !IsTag(rest[j], k, w);
      }
    }
    if SetsLast(rest, k, v) {
      var i :| 0 <= i < |rest| && IsTag(rest[i], k, v) && forall j, w :: i < j < |rest| ==> !IsTag(rest[j], k, w);
      assert IsTag(parts[i + 1], k, v) && forall j, w :: i + 1 < j < |parts| ==> parts[j] == rest[j - 1] && !IsTag(parts[j], k, w);
    }
    if !Sets(rest, k) && (k, v) == (k0, v0) {
      assert IsTag(parts[0], k, v) && forall j, w :: 0 < j < |parts| ==> parts[j] == rest[j - 1] && !IsTag(parts[j], k, w);
    }
  }

  /**
    Of any parts joined by commas: they are a key exactly when the whole is UTF-8 and every part after the first has an
    equals sign, with the errors told apart; the key has the first part as its metric, and a tag set twice has its last value.
  */
  lemma ParseExact(parts: seq<Text>)
    requires parts != [] && Apart(parts, 44)
    ensures var bytes := Join(parts, 44);
      var r, tagged := FromBytes(bytes), forall i :: 0 < i < |parts| ==> 61 in parts[i];
      && (r == Err(InvalidUtf8) <==> !Utf8(bytes))
      && (r == Err(MalformedTag) <==> Utf8(bytes) && !tagged)
      && (r.Ok? <==> Utf8(bytes) && tagged)
      && (r.Ok? ==> r.value.metric == parts[0] && forall k, v :: (k in r.value.tags && r.value.tags[k] == v) <==> SetsLast(parts[1..], k, v))
  {
    hide Split, Join, Utf8, SetsLast, Sets, ParseTags;
    SplitJoined(parts, COMMA);
    ParseTagsExact(parts[1..], map[]);
    assert forall i :: 0 < i < |parts| ==> parts[i] == parts[1..][i - 1];
  }

  // ----- UTF-8 -----

  /** A code point that is not half of a surrogate pair. */
  ghost predicate Scalar(c: nat) {
    c < 0xD800 || 0xE000 <= c < 0x11_0000
  }

  /** The encoding of section 3 of RFC 3629. */
  ghost function EncodeScalar(c: nat): (bs: Text)
    requires Scalar(c)
    ensures bs != []
  {
    if c < 0x80 then [c]
    else if c < 0x800 then [0xC0 + c / 64, 0x80 + c % 64]
    else if c < 0x1_0000 then [0xE0 + c / 4096, 0x80 + c / 64 % 64, 0x80 + c % 64]
    else [0xF0 + c / 262144, 0x80 + c / 4096 % 64, 0x80 + c / 64 % 64, 0x80 + c % 64]
  }

  ghost function EncodeScalars(cs: seq<nat>): Text
    requires forall i :: 0 <= i < |cs| ==> Scalar(cs[i])
  {
    if cs == [] then [] else EncodeScalar(cs[0]) + EncodeScalars(cs[1..])
  }

  /** The test recognises one encoded character, whatever follows. */
  lemma WidthOfEncoded(c: nat, rest: Text)
    requires Scalar(c)
    ensures CharWidth(EncodeScalar(c) + rest) == |EncodeScalar(c)|
  {
    var s := EncodeScalar(c) + rest;
    if 0x800 <= c < 0x1_0000 {
      assert s[0] == 0xE0 + c / 4096 && s[1] == 0x80 + c / 64 % 64 && s[2] == 0x80 + c % 64;
    } else if c >= 0x1_0000 {
      assert s[0] == 0xF0 + c / 262144 && s[1] == 0x80 + c / 4096 % 64 && s[2] == 0x80 + c / 64 % 64 && s[3] == 0x80 + c % 64;
    }
  }

  lemma EncodedOfTwo(a: byte, b: byte) returns (c: nat)
    requires 0xC2 <= a < 0xE0 && Continuation(b)
    ensures Scalar(c) && EncodeScalar(c) == [a, b]
  {
    var x: int, y: int := a, b;
    c := (x - 0xC0) * 64 + (y - 0x80);
  }

  lemma EncodedOfThree(a: byte, b: byte, d: byte) returns (c: nat)
    requires 0xE0 <= a < 0xF0 && Continuation(b) && Continuation(d) && (a == 0xE0 ==> b >= 0xA0) && (a == 0xED ==> b < 0xA0)
    ensures Scalar(c) && EncodeScalar(c) == [a, b, d]
  {
    var x: int, y: int, z: int := a, b, d;
    c := (x - 0xE0) * 4096 + (y - 0x80) * 64 + (z - 0x80);
    assert c / 64 == (x - 0xE0) * 64 + (y - 0x80) && c / 4096 == x - 0xE0;
  }

  lemma EncodedOfFour(a: byte, b: byte, d: byte, e: byte) returns (c: nat)
    requires 0xF0 <= a < 0xF5 && Continuation(b) && Continuation(d) && Continuation(e) && (a == 0xF0 ==> b >= 0x90) && (a == 0xF4 ==> b < 0x90)
    ensures Scalar(c) && EncodeScalar(c) == [a, b, d, e]
  {
    var x: int, y: int, z: int, w: int := a, b, d, e;
    c := (x - 0xF0) * 262144 + (y - 0x80) * 4096 + (z - 0x80) * 64 + (w - 0x80);
    assert c / 64 == (x - 0xF0) * 4096 + (y - 0x80) * 64 + (z - 0x80);
    assert c / 4096 == (x - 0xF0) * 64 + (y - 0x80) && c / 262144 == x - 0xF0;
  }

  /** Whatever the test recognises is an encoded character. */
  lemma EncodedOfWidth(s: Text) returns (c: nat)
    requires s != [] && CharWidth(s) > 0
    ensures Scalar(c) && EncodeScalar(c) == s[..CharWidth(s)]
  {
    var w := CharWidth(s);
    if w == 1 {
      c := s[0];
      assert s[..1] == [s[0]];
    } else if w == 2 {
      c := EncodedOfTwo(s[0], s[1]);
      assert s[..2] == [s[0], s[1]];
    } else if w == 3 {
      c := EncodedOfThree(s[0], s[1], s[2]);
      assert s[..3] == [s[0], s[1], s[2]];
    } else {
      c := EncodedOfFour(s[0], s[1], s[2], s[3]);
      assert s[..4] == [s[0], s[1], s[2], s[3]];
    }
  }

  lemma {:induction false} EncodedIsUtf8(cs: seq<nat>)
    requires forall i :: 0 <= i < |cs| ==> Scalar(cs[i])
    ensures Utf8(EncodeScalars(cs))
  {
    if cs != [] {
      hide EncodeScalar, CharWidth;
      EncodedIsUtf8(cs[1..]);
      var head, rest := EncodeScalar(cs[0]), EncodeScalars(cs[1..]);
      WidthOfEncoded(cs[0], rest);
      assert (head + rest)[|head|..] == rest;
    }
  }

  /** The test accepts exactly the encodings of sequences of Unicode scalar values. */
  lemma {:induction false} Utf8Exact(s: Text) returns (cs: seq<nat>)
    ensures Utf8(s) ==> (forall i :: 0 <= i < |cs| ==> Scalar(cs[i])) && EncodeScalars(cs) == s
    ensures forall xs :: (forall i :: 0 <= i < |xs| ==> Scalar(xs[i])) && EncodeScalars(xs) == s ==> Utf8(s)
  {
    cs := [];
    hide EncodeScalar, CharWidth;
    if Utf8(s) && s != [] {
      var w := CharWidth(s);
      var c := EncodedOfWidth(s);
      var rest := Utf8Exact(s[w..]);
      cs := [c] + rest;
      assert cs[1..] == rest && s == s[..w] + s[w..];
    }
    forall xs: seq<nat> | (forall i :: 0 <= i < |xs| ==> Scalar(xs[i])) && EncodeScalars(xs) == s ensures Utf8(s) {
      EncodedIsUtf8(xs);
    }
  }
}
