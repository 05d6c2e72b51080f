/**
 UTF-8 (RFC 3629) and the four-byte n-grams on which a page is fingerprinted.
 The n-grams are cut from the bytes of a text, so most cuts fall inside a
 character; `from_utf8` discards those.
 */
module Utf8 {
  import opened Wrappers
  import opened Selections

  type byte = b: nat | b < 0x100

  /** A Unicode scalar value: what a Rust `char` holds. */
  type Scalar = c: nat | c < 0xD800 || 0xE000 <= c < 0x11_0000

  // ----- Encoding (section 3 of RFC 3629) -----

  function Encode(c: Scalar): (bytes: seq<byte>)
    ensures 1 <= |bytes| <= 4
  {
    if c < 0x80 then [c]
    else if c < 0x800 then [0xC0 + c / 0x40, Tail(c)]
    else if c < 0x1_0000 then [0xE0 + c / 0x1000, Tail(c / 0x40), Tail(c)]
    else [0xF0 + c / 0x4_0000, Tail(c / 0x1000), Tail(c / 0x40), Tail(c)]
  }

  function Tail(c: nat): (b: byte)
    ensures IsTail(b)
  {
    0x80 + c % 0x40
  }

  predicate IsTail(b: byte) {
    0x80 <= b <= 0xBF
  }

  function EncodeAll(cs: seq<Scalar>): seq<byte> {
    if cs == [] then [] else Encode(cs[0]) + EncodeAll(cs[1..])
  }

  // ----- Well-formed sequences (the grammar in section 4 of RFC 3629) -----

  /** The length of the character at the start of `s`, or 0 if none is well formed there. */
  function FirstChar(s: seq<byte>): (n: nat)
    ensures n <= 4 && n <= |s|
  {
    if |s| == 0 then 0
    else if s[0] <= 0x7F then 1
    else if |s| < 2 then 0
    else if 0xC2 <= s[0] <= 0xDF && IsTail(s[1]) then 2
    else if |s| < 3 || !IsTail(s[2]) then 0
    else if s[0] == 0xE0 && 0xA0 <= s[1] <= 0xBF then 3
    else if 0xE1 <= s[0] <= 0xEC && IsTail(s[1]) then 3
    else if s[0] == 0xED && 0x80 <= s[1] <= 0x9F then 3
    else if 0xEE <= s[0] <= 0xEF && IsTail(s[1]) then 3
    else if |s| < 4 || !IsTail(s[3]) then 0
    else if s[0] == 0xF0 && 0x90 <= s[1] <= 0xBF then 4
    else if 0xF1 <= s[0] <= 0xF3 && IsTail(s[1]) then 4
    else if s[0] == 0xF4 && 0x80 <= s[1] <= 0x8F then 4
    else 0
  }

  /** `from_utf8(s).is_ok()` */
  predicate WellFormed(s: seq<byte>)
    decreases |s|
  {
    s == [] || (FirstChar(s) > 0 && WellFormed(s[FirstChar(s)..]))
  }

  // ----- N-grams -----

  /** The `k` bytes of `s` from offset `i` on. */
  function Window(s: seq<byte>, i: nat, k: nat): seq<byte>
    requires i + k <= |s|
  {
    s[i..i + k]
  }

  /** `bytes.windows(4).filter_map(|w| from_utf8(w).ok())`, from offset `i` on */
  function Ngrams(bytes: seq<byte>, i: nat): seq<seq<byte>>
    decreases |bytes| - i
  {
    if i + 4 > |bytes| then []
    else (if WellFormed(Window(bytes, i, 4)) then [Window(bytes, i, 4)] else []) + Ngrams(bytes, i + 1)
  }

  /** How many leading characters of `cs` encode to exactly `k` bytes, or -1 if no number of them does. */
  function CharsIn(cs: seq<Scalar>, k: nat): (n: int)
    ensures -1 <= n <= |cs|
  {
    if k == 0 then 0
    else if cs == [] || |Encode(cs[0])| > k then -1
    else
      var n := CharsIn(cs[1..], k - |Encode(cs[0])|);
      if n < 0 then -1 else n + 1
  }

  /** The runs of consecutive whole characters that encode to four bytes, in the order of their first characters. */
  function FourByteRuns(cs: seq<Scalar>): seq<seq<byte>> {
    if cs == [] then []
    else
      var n := CharsIn(cs, 4);
      (if n < 0 then [] else [EncodeAll(cs[..n])]) + FourByteRuns(cs[1..])
  }

  // ----- Proofs -----

  /** The lower digits of a number to the base 64. */
  lemma Digits(c: nat)
    ensures c == (c / 0x40) * 0x40 + c % 0x40
    ensures c == (c / 0x1000) * 0x1000 + ((c / 0x40) % 0x40) * 0x40 + c % 0x40
    ensures c == (c / 0x4_0000) * 0x4_0000 + ((c / 0x1000) % 0x40) * 0x1000 + ((c / 0x40) % 0x40) * 0x40 + c % 0x40
  {
    assert c / 0x1000 == (c / 0x40) / 0x40;
    assert c / 0x4_0000 == (c / 0x1000) / 0x40;
  }

  /** The bytes of a character carry its number, six bits in each byte after the first. */
  lemma EncodeCarriesNumber(c: Scalar)
    ensures |Encode(c)| == if c < 0x80 then 1 else if c < 0x800 then 2 else if c < 0x1_0000 then 3 else 4
    ensures var e := seq(|Encode(c)|, i requires 0 <= i < |Encode(c)| => Encode(c)[i] as int);
            c == if c < 0x80 then e[0]
                 else if c < 0x800 then (e[0] - 0xC0) * 0x40 + (e[1] - 0x80)
                 else if c < 0x1_0000 then (e[0] - 0xE0) * 0x1000 + (e[1] - 0x80) * 0x40 + (e[2] - 0x80)
                 else (e[0] - 0xF0) * 0x4_0000 + (e[1] - 0x80) * 0x1000 + (e[2] - 0x80) * 0x40 + (e[3] - 0x80)
    ensures forall i :: 1 <= i < |Encode(c)| ==> 0x80 <= Encode(c)[i] < 0xC0
  {
    Digits(c);
  }

  /** The character that well-formed bytes begin with. */
  lemma FirstCharIsEncoded(s: seq<byte>) returns (c: Scalar)
    requires FirstChar(s) > 0
    ensures Encode(c) == s[..FirstChar(s)]
  {
    var n := FirstChar(s);
    if n == 1 {
      c := s[0];
    } else if n == 2 {
      c := TwoByteChar(s[0] - 0xC0, s[1] - 0x80);
    } else if n == 3 {
      c := ThreeByteChar(s[0] - 0xE0, s[1] - 0x80, s[2] - 0x80);
    } else {
      c := FourByteChar(s[0] - 0xF0, s[1] - 0x80, s[2] - 0x80, s[3] - 0x80);
    }
  }

  lemma TwoByteChar(x: nat, y: nat) returns (c: Scalar)
    requires 2 <= x < 0x20 && y < 0x40
    ensures Encode(c) == [0xC0 + x, 0x80 + y]
  {
    c := x * 0x40 + y;
    assert c / 0x40 == x && c % 0x40 == y;
  }

  lemma ThreeByteChar(x: nat, y: nat, z: nat) returns (c: Scalar)
    requires x < 0x10 && y < 0x40 && z < 0x40
    requires x == 0 ==> 0x20 <= y
    requires x == 0xD ==> y < 0x20
    ensures Encode(c) == [0xE0 + x, 0x80 + y, 0x80 + z]
  {
    c := x * 0x1000 + y * 0x40 + z;
    assert c / 0x40 == x * 0x40 + y && c % 0x40 == z;
    assert c / 0x1000 == x && (c / 0x40) % 0x40 == y;
  }

  lemma FourByteChar(w: nat, x: nat, y: nat, z: nat) returns (c: Scalar)
    requires w <= 4 && x < 0x40 && y < 0x40 && z < 0x40
    requires w == 0 ==> 0x10 <= x
    requires w == 4 ==> x < 0x10
    ensures Encode(c) == [0xF0 + w, 0x80 + x, 0x80 + y, 0x80 + z]
  {
    c := w * 0x4_0000 + x * 0x1000 + y * 0x40 + z;
    assert c / 0x40 == w * 0x1000 + x * 0x40 + y && c % 0x40 == z;
    assert c / 0x1000 == w * 0x40 + x && (c / 0x40) % 0x40 == y;
    assert c / 0x4_0000 == w && (c / 0x1000) % 0x40 == x;
  }

  lemma {:induction false} WholeTextIsWellFormed(cs: seq<Scalar>)
    ensures WellFormed(EncodeAll(cs))
  {
    hide Encode, FirstChar;
    if cs != [] {
      var e, rest := Encode(cs[0]), EncodeAll(cs[1..]);
      WholeTextIsWellFormed(cs[1..]);
      EncodeIsFirstChar(cs[0], rest, |e + rest|);
      assert (e + rest)[..|e + rest|] == e + rest && (e + rest)[|e|..] == rest;
    }
  }

  lemma {:induction false} WellFormedIsText(s: seq<byte>) returns (cs: seq<Scalar>)
    requires WellFormed(s)
    ensures EncodeAll(cs) == s
    decreases |s|
  {
    hide Encode, FirstChar;
    cs := [];
    if s != [] {
      var n := FirstChar(s);
      var c := FirstCharIsEncoded(s);
      var rest := WellFormedIsText(s[n..]);
      cs := [c] + rest;
      assert cs[1..] == rest && s == s[..n] + s[n..];
    }
  }

  /** The grammar is exact: bytes are well formed if and only if they encode some text. */
  lemma WellFormedExactly(s: seq<byte>)
    ensures WellFormed(s) <==> exists cs :: EncodeAll(cs) == s
  {
    hide WellFormed, EncodeAll;
    if WellFormed(s) {
      var cs := WellFormedIsText(s);
    }
    if cs :| EncodeAll(cs) == s {
      WholeTextIsWellFormed(cs);
    }
  }

  function PickWindow(bytes: seq<byte>): nat -> Option<seq<byte>> {
    (k: nat) => if k + 4 <= |bytes| && WellFormed(bytes[k..k + 4]) then Some(bytes[k..k + 4]) else None
  }

  /** The n-grams are the windows of four bytes that are well formed, in the order of their offsets. */
  lemma {:induction false} NgramsAreWindows(bytes: seq<byte>, i: nat) returns (at: seq<nat>)
    requires i <= |bytes|
    ensures Selects(Ngrams(bytes, i), at, i, |bytes|, PickWindow(bytes))
    decreases |bytes| - i
  {
    hide WellFormed, Selects;
    if i == |bytes| {
      at := [];
      SelectsNothing(i, PickWindow(bytes));
    } else {
      at := NgramsAreWindows(bytes, i + 1);
      SelectsOneBefore(Ngrams(bytes, i + 1), at, i, |bytes|, PickWindow(bytes));
      if PickWindow(bytes)(i).Some? {
        at := [i] + at;
      } else {
        assert Ngrams(bytes, i) == Ngrams(bytes, i + 1);
      }
    }
  }

  /** An encoded character is well formed, and no shorter prefix of it is. */
  lemma EncodeIsFirstChar(c: Scalar, rest: seq<byte>, k: nat)
    requires k <= |Encode(c) + rest|
    ensures FirstChar((Encode(c) + rest)[..k]) == if |Encode(c)| <= k then |Encode(c)| else 0
  {
    var e := Encode(c);
    var s := (e + rest)[..k];
    assert forall i :: 0 <= i < |e| && i < k ==> s[i] == e[i];
  }

  lemma NothingStartsWithATail(s: seq<byte>)
    requires s != [] && IsTail(s[0])
    ensures !WellFormed(s)
  {
  }

  lemma EncodeStartsOnce(c: Scalar)
    ensures !IsTail(Encode(c)[0])
    ensures forall i :: 1 <= i < |Encode(c)| ==> IsTail(Encode(c)[i])
  {
  }

  /** Cutting an encoded text after `k` bytes gives well-formed UTF-8 exactly if the cut falls between characters. */
  lemma {:induction false} PrefixIsWellFormed(cs: seq<Scalar>, k: nat)
    requires k <= |EncodeAll(cs)|
    ensures WellFormed(EncodeAll(cs)[..k]) <==> CharsIn(cs, k) >= 0
    ensures CharsIn(cs, k) >= 0 ==> EncodeAll(cs)[..k] == EncodeAll(cs[..CharsIn(cs, k)])
  {
    hide FirstChar, Encode;
    if k > 0 {
      var e, rest := Encode(cs[0]), EncodeAll(cs[1..]);
      var s := EncodeAll(cs)[..k];
      EncodeIsFirstChar(cs[0], rest, k);
      if |e| <= k {
        PrefixIsWellFormed(cs[1..], k - |e|);
        assert s[|e|..] == rest[..k - |e|];
        assert s == e + s[|e|..];
        var n := CharsIn(cs, k);
        if n >= 0 {
          assert cs[..n][1..] == cs[1..][..n - 1];
        }
      }
    }
  }

  lemma WindowOfConcatenation(a: seq<byte>, b: seq<byte>, i: nat, k: nat)
    requires i + k <= |b|
    ensures Window(a + b, |a| + i, k) == Window(b, i, k)
  {
  }

  lemma {:induction false} NgramsOfSuffix(head: seq<byte>, bytes: seq<byte>, i: nat)
    ensures Ngrams(head + bytes, |head| + i) == Ngrams(bytes, i)
    decreases |bytes| - i
  {
    if i + 4 <= |bytes| {
      NgramsOfSuffix(head, bytes, i + 1);
      WindowOfConcatenation(head, bytes, i, 4);
    }
  }

  /** No n-gram starts inside a character. */
  lemma {:induction false} NgramsSkipTails(bytes: seq<byte>, i: nat, j: nat)
    requires i <= j <= |bytes|
    requires forall k :: i <= k < j ==> IsTail(bytes[k])
    ensures Ngrams(bytes, i) == Ngrams(bytes, j)
    decreases j - i
  {
    if i < j {
      NgramsSkipTails(bytes, i + 1, j);
      if i + 4 <= |bytes| {
        assert Window(bytes, i, 4)[0] == bytes[i];
        NothingStartsWithATail(Window(bytes, i, 4));
      } else if j + 4 <= |bytes| {
        assert false;
      }
    }
  }

  lemma CharsInShortText(cs: seq<Scalar>, k: nat)
    requires |EncodeAll(cs)| < k
    ensures CharsIn(cs, k) == -1
  {
  }

  /** The n-grams that survive are the runs of whole characters encoding to four bytes, in order. */
  lemma {:induction false} NgramsAreFourByteRuns(cs: seq<Scalar>)
    ensures Ngrams(EncodeAll(cs), 0) == FourByteRuns(cs)
  {
    hide FirstChar, Encode;
    if cs != [] {
      var e, rest := Encode(cs[0]), EncodeAll(cs[1..]);
      var bytes := EncodeAll(cs);
      NgramsAreFourByteRuns(cs[1..]);
      NgramsOfSuffix(e, rest, 0);
      EncodeStartsOnce(cs[0]);
      NgramsSkipTails(bytes, 1, |e|);
      if 4 <= |bytes| {
        PrefixIsWellFormed(cs, 4);
      } else {
        CharsInShortText(cs, 4);
      }
    }
  }

  /** Whether a cut after `k` bytes of the encoded text falls between two characters. */
  predicate IsBoundary(cs: seq<Scalar>, k: nat) {
    CharsIn(cs, k) >= 0
  }

  /** ... and the number of characters before it. */
  lemma {:induction false} BoundaryExactly(cs: seq<Scalar>, k: nat)
    ensures IsBoundary(cs, k) <==> exists n :: 0 <= n <= |cs| && |EncodeAll(cs[..n])| == k
  {
    hide Encode;
    assert cs[..0] == [];
    if k > 0 && cs != [] {
      var e := |Encode(cs[0])|;
      if e <= k {
        BoundaryExactly(cs[1..], k - e);
      }
      if IsBoundary(cs, k) {
        var m :| 0 <= m <= |cs[1..]| && |EncodeAll(cs[1..][..m])| == k - e;
        assert cs[..m + 1][0] == cs[0] && cs[..m + 1][1..] == cs[1..][..m];
        assert |EncodeAll(cs[..m + 1])| == k;
      }
      if n :| 0 <= n <= |cs| && |EncodeAll(cs[..n])| == k {
        assert cs[..n][0] == cs[0] && cs[..n][1..] == cs[1..][..n - 1];
      }
    }
  }

  lemma BoundaryOfRest(cs: seq<Scalar>, k: nat)
    requires cs != [] && 0 < k
    ensures IsBoundary(cs, k) <==> |Encode(cs[0])| <= k && IsBoundary(cs[1..], k - |Encode(cs[0])|)
  {
  }

  lemma WindowInsideFirst(cs: seq<Scalar>, i: nat, k: nat)
    requires cs != [] && 0 < i < |Encode(cs[0])| && 0 < k && i + k <= |EncodeAll(cs)|
    ensures !WellFormed(Window(EncodeAll(cs), i, k))
  {
    EncodeStartsOnce(cs[0]);
    assert Window(EncodeAll(cs), i, k)[0] == Encode(cs[0])[i];
    NothingStartsWithATail(Window(EncodeAll(cs), i, k));
  }

  /** A nonempty window of an encoded text is well formed exactly if both its ends are character boundaries. */
  lemma {:induction false} WindowIsWellFormed(cs: seq<Scalar>, i: nat, k: nat)
    requires 0 < k && i + k <= |EncodeAll(cs)|
    ensures WellFormed(Window(EncodeAll(cs), i, k)) <==> IsBoundary(cs, i) && IsBoundary(cs, i + k)
  {
    hide FirstChar, Encode;
    if i == 0 {
      PrefixIsWellFormed(cs, k);
      assert Window(EncodeAll(cs), 0, k) == EncodeAll(cs)[..k];
    } else {
      var n := |Encode(cs[0])|;
      BoundaryOfRest(cs, i);
      if i < n {
        WindowInsideFirst(cs, i, k);
      } else {
        BoundaryOfRest(cs, i + k);
        WindowOfConcatenation(Encode(cs[0]), EncodeAll(cs[1..]), i - n, k);
        WindowIsWellFormed(cs[1..], i - n, k);
      }
    }
  }

  lemma {:induction false} EncodeInTwo(cs: seq<Scalar>, j: nat)
    requires j <= |cs|
    ensures EncodeAll(cs) == EncodeAll(cs[..j]) + EncodeAll(cs[j..])
  {
    hide Encode;
    if j == 0 {
      assert cs[..0] == [] && cs[0..] == cs;
    } else {
      EncodeInTwo(cs[1..], j - 1);
      assert cs[..j][0] == cs[0] && cs[..j][1..] == cs[1..][..j - 1] && cs[1..][j - 1..] == cs[j..];
    }
  }

  /** A run from the first character on. */
  lemma FirstRun(cs: seq<Scalar>, j: nat)
    requires j <= |cs| && |EncodeAll(cs[..j])| == 4
    ensures CharsIn(cs, 4) >= 0 && EncodeAll(cs[..CharsIn(cs, 4)]) == EncodeAll(cs[..j])
  {
    hide Encode, FirstChar;
    EncodeInTwo(cs, j);
    BoundaryExactly(cs, 4);
    PrefixIsWellFormed(cs, 4);
    assert EncodeAll(cs)[..4] == EncodeAll(cs[..j]);
  }

  /** The runs are exactly what stretches of whole characters encode to, if that is four bytes. */
  lemma {:induction false} RunsExactly(cs: seq<Scalar>, r: seq<byte>)
    ensures r in FourByteRuns(cs) <==> exists i, j :: 0 <= i <= j <= |cs| && r == EncodeAll(cs[i..j]) && |r| == 4
  {
    hide Encode, FirstChar, EncodeAll, CharsIn;
    if cs == [] {
      assert forall i, j :: 0 <= i <= j <= |cs| ==> cs[i..j] == [];
      assert |EncodeAll([])| == 0 by { NothingEncoded(); }
    } else {
      RunsExactly(cs[1..], r);
      if r in FourByteRuns(cs) {
        if r in FourByteRuns(cs[1..]) {
          var i, j :| 0 <= i <= j <= |cs[1..]| && r == EncodeAll(cs[1..][i..j]) && |r| == 4;
          SliceOfRest(cs, i, j);
        } else {
          var n := CharsIn(cs, 4);
          RunHasFourBytes(cs);
          assert cs[..n] == cs[0..n];
        }
      }
      if i, j :| 0 <= i <= j <= |cs| && r == EncodeAll(cs[i..j]) && |r| == 4 {
        if i == 0 {
          assert cs[0..j] == cs[..j];
          FirstRun(cs, j);
        } else {
          SliceOfRest(cs, i - 1, j - 1);
        }
      }
    }
  }

  lemma SliceOfRest(cs: seq<Scalar>, i: nat, j: nat)
    requires i <= j < |cs|
    ensures cs[1..][i..j] == cs[i + 1..j + 1]
  {
  }

  lemma NothingEncoded()
    ensures EncodeAll([]) == []
  {
  }

  lemma RunHasFourBytes(cs: seq<Scalar>)
    requires CharsIn(cs, 4) >= 0
    ensures |EncodeAll(cs[..CharsIn(cs, 4)])| == 4
  {
    hide Encode, FirstChar;
    CharsInIsLength(cs, 4);
  }

  lemma {:induction false} CharsInIsLength(cs: seq<Scalar>, k: nat)
    requires CharsIn(cs, k) >= 0
    ensures |EncodeAll(cs[..CharsIn(cs, k)])| == k
  {
    hide Encode;
    if k > 0 {
      var n := CharsIn(cs, k);
      CharsInIsLength(cs[1..], k - |Encode(cs[0])|);
      assert cs[..n][0] == cs[0] && cs[..n][1..] == cs[1..][..n - 1];
    }
  }
}
