/** Mistyped texts: which replaced characters a Bech32 text never survives. */
module Bech32Typos {
  import opened Bytes
  import opened Bech32
  import opened Bech32Text

  /** The two characters are the same letter, in whatever case. */
  predicate SameAt(s: Bytes, t: Bytes, q: nat)
    requires q < |s| && q < |t|
  {
    LowerCase(s[q]) == LowerCase(t[q])
  }

  /** Equally long texts that are not the same up to case, yet are outside four places. */
  predicate FourReplaced(s: Bytes, t: Bytes, a: int, b: int, c: int, d: int) {
    |s| == |t| && Lower(s) != Lower(t)
        && forall q :: 0 <= q < |s| && q != a && q != b && q != c && q != d ==> SameAt(s, t, q)
  }

  /** The same outside six consecutive places. */
  predicate SixReplaced(s: Bytes, t: Bytes, a: nat) {
    |s| == |t| && Lower(s) != Lower(t) && a + 6 <= |s| && forall q ::
        0 <= q < |s| && !(a <= q < a + 6) ==> SameAt(s, t, q)
  }

  /** Three ascending positions that include those of a, b and c that are in range. */
  lemma Ascending(n: nat, a: int, b: int, c: int) returns (i: nat, j: nat, k: nat)
    requires n >= 3
    ensures i < j < k < n && (0 <= a < n ==> a in {i, j, k}) && (0 <= b < n ==> b in {i, j, k})
    ensures (0 <= c < n ==> c in {i, j, k})
  {
    var x := if 0 <= a < n then a else 0;
    var y := if 0 <= b < n && b != x then b else if x == 0 then 1 else 0;
    var z := if 0 <= c < n && c != x && c != y then c
             else if x != 0 && y != 0 then 0 else if x != 1 && y != 1 then 1 else 2;
    i := if x < y && x < z then x else if y < z then y else z;
    k := if x > y && x > z then x else if y > z then y else z;
    j := x + y + z - i - k;
  }

  /** Four ascending positions that include those of a, b, c and d that are in range. */
  lemma Ascending4(n: nat, a: int, b: int, c: int, d: int) returns (i: nat, j: nat, k: nat, l: nat)
    requires n >= 4
    ensures i < j < k < l < n && (0 <= a < n ==> a in {i, j, k, l}) && (0 <= b < n ==> b in {i, j, k, l})
    ensures (0 <= c < n ==> c in {i, j, k, l}) && (0 <= d < n ==> d in {i, j, k, l})
  {
    var x, y, z := Ascending(n, a, b, c);
    var w := if 0 <= d < n && d != x && d != y && d != z then d
             else if x != 0 then 0 else if y != 1 then 1 else if z != 2 then 2 else 3;
    i := if w < x then w else x;
    j := if w < x then x else if w < y then w else y;
    k := if w < y then y else if w < z then w else z;
    l := if w < z then z else w;
  }

  /** The data part with its checksum, and the name before it. */
  function Data(s: Bytes): Bytes { s[LastOne(s) + 1..] }
  function Name(s: Bytes): Bytes { if LastOne(s) < 0 then [] else Lower(s[..LastOne(s)]) }

  lemma DecodedParts(s: Bytes)
    requires DecodeText(s).Some?
    ensures 0 < LastOne(s) && LastOne(s) + 7 <= |s| <= 90 && AllInSet(Data(s))
    ensures ValidChecksum(Name(s), Values(Data(s)))
    ensures DecodeText(s).value.hrp == Name(s)
  {
    hide ValidChecksum, AllInSet, Values, Lower, WellCased, LastOne;
  }

  /** Decodable texts with the separator in the same place and the same name. */
  predicate Alongside(s: Bytes, t: Bytes) {
    DecodeText(s).Some? && DecodeText(t).Some? && |s| == |t| && LastOne(s) == LastOne(t) && Name(s) == Name(t)
  }

  lemma ValuesDiffer(s: Bytes, t: Bytes)
    requires Alongside(s, t) && Lower(s) != Lower(t)
    ensures AllInSet(Data(s)) && AllInSet(Data(t)) && |Data(s)| == |Data(t)| == |s| - LastOne(s) - 1 >= 6
    ensures Values(Data(s)) != Values(Data(t))
  {
    hide ValidChecksum, LowerCase, DecodeText, LastOne, AllInSet, Values, Lower;
    DecodedParts(s);
    DecodedParts(t);
    LowerSplit(s, LastOne(s));
    LowerSplit(t, LastOne(s));
    LowerIsChars(Data(s));
    LowerIsChars(Data(t));
  }

  lemma SameValue(u: Bytes, v: Bytes, q: nat)
    requires AllInSet(u) && AllInSet(v) && q < |u| && q < |v| && LowerCase(u[q]) == LowerCase(v[q])
    ensures Values(u)[q] == Values(v)[q]
  {
    hide LowerCase, RevLower, AllInSet;
    assert Rev(u[q]) == Rev(v[q]);
    hide Rev, Values;
  }

  /** Such texts differ in more than four characters. */
  lemma MoreThanFour(s: Bytes, t: Bytes, a: int, b: int, c: int, d: int)
    requires Alongside(s, t)
    ensures !FourReplaced(s, t, a, b, c, d)
  {
    hide ValidChecksum, DecodeText, LastOne, LowerCase, Lower;
    if FourReplaced(s, t, a, b, c, d) {
      var pos := LastOne(s);
      DecodedParts(s);
      DecodedParts(t);
      ValuesDiffer(s, t);
      var v, w := Values(Data(s)), Values(Data(t));
      var i, j, k, l := Ascending4(|v|, a - pos - 1, b - pos - 1, c - pos - 1, d - pos - 1);
      forall q | 0 <= q < |v| && q != i && q != j && q != k && q != l ensures v[q] == w[q] {
        var r := q + pos + 1;
        assert r != a && r != b && r != c && r != d;
        assert SameAt(s, t, r);
        SameValue(Data(s), Data(t), q);
      }
      hide Values, Data, Name;
      FourChangesDetected(Name(s), v, w, i, j, k, l);
    }
  }

  /** Such texts do not agree outside six consecutive data characters. */
  lemma MoreThanBurst(s: Bytes, t: Bytes, a: nat)
    requires Alongside(s, t)
    ensures !SixReplaced(s, t, a)
  {
    hide ValidChecksum, DecodeText, LastOne, LowerCase, Lower;
    if SixReplaced(s, t, a) {
      var pos := LastOne(s);
      DecodedParts(s);
      DecodedParts(t);
      ValuesDiffer(s, t);
      var v, w := Values(Data(s)), Values(Data(t));
      var i := if a <= pos then 0 else a - pos - 1;
      forall q | 0 <= q < |v| && !(i <= q < i + 6) ensures v[q] == w[q] {
        assert SameAt(s, t, q + pos + 1);
        SameValue(Data(s), Data(t), q);
      }
      BurstDetected(Name(s), v, w, i);
    }
  }

  /** Only data characters were replaced, none of them by a separator. */
  predicate DataOnly(s: Bytes, t: Bytes) {
    |s| == |t| && (forall q :: 0 <= q <= LastOne(s) ==> SameAt(s, t, q))
        && forall q :: LastOne(s) < q < |s| ==> t[q] != SEPARATOR
  }

  lemma SameName(s: Bytes, t: Bytes)
    requires DecodeText(s).Some? && DecodeText(t).Some? && DataOnly(s, t)
    ensures Alongside(s, t)
  {
    hide ValidChecksum, LowerCase, DecodeText;
    DecodedParts(s);
    var pos := LastOne(s);
    assert SameAt(s, t, pos);
    LowerKeepsOne(s[pos]);
    LowerKeepsOne(t[pos]);
    LastOneIs(t, pos);
    assert Lower(s[..pos]) == Lower(t[..pos]) by {
      forall q | 0 <= q < pos ensures LowerCase(s[q]) == LowerCase(t[q]) { assert SameAt(s, t, q); }
    }
  }

  /** A decodable text never decodes again once one to four of its data characters are replaced, or any within six
      consecutive ones, by characters other than the separator. */
  lemma TypoDetected(s: Bytes, t: Bytes, a: int, b: int, c: int, d: int, from: nat)
    requires DecodeText(s).Some? && DataOnly(s, t)
    requires FourReplaced(s, t, a, b, c, d) || SixReplaced(s, t, from)
    ensures DecodeText(t).None?
  {
    hide DecodeText, DataOnly, FourReplaced, SixReplaced;
    if DecodeText(t).Some? {
      SameName(s, t);
      MoreThanFour(s, t, a, b, c, d);
      MoreThanBurst(s, t, from);
    }
  }

  /** A data character replaced by a separator moves the end of the name: the text fails, or is read under a longer
      one. */
  lemma SeparatorTypo(s: Bytes, t: Bytes, q: nat)
    requires DecodeText(s).Some? && DecodeText(t).Some? && |s| == |t| && LastOne(s) < q < |t| && t[q] == SEPARATOR
    ensures |DecodeText(t).value.hrp| > |DecodeText(s).value.hrp|
  {
    hide ValidChecksum, DecodeText, Lower;
    DecodedParts(s);
    DecodedParts(t);
  }
}
