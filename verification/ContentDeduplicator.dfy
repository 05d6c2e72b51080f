/**
 The near-duplicate index: eight hash maps, one for each window of a
 fingerprint, from a window's value to the fingerprints that have it.
 */
module ContentDeduplication {
  import opened Wrappers
  import opened Multiples
  import opened Selections
  import opened Simhash
  import opened Utf8

  /** The text functions of unseen libraries: deterministic, otherwise unknown. */
  datatype Hasher = Hasher(
    isWhitespace: Scalar -> bool,
    isAlphanumeric: Scalar -> bool,
    toLowercase: seq<Scalar> -> seq<Scalar>,
    simhash: seq<Scalar> -> u64,
    simhashStream: seq<seq<byte>> -> u64)
  {
    function Filter(text: seq<Scalar>): seq<Scalar> {
      if text == [] then []
      else
        var c := text[|text| - 1];
        Filter(text[..|text| - 1]) + if isWhitespace(c) || isAlphanumeric(c) then [c] else []
    }

    function CleanedText(text: seq<Scalar>): seq<Scalar> {
      toLowercase(Filter(text))
    }

    function CalculateHash(text: seq<Scalar>): u64 {
      var bytes := EncodeAll(CleanedText(text));
      if |bytes| < 4 then simhash(text) else simhashStream(Ngrams(bytes, 0))
    }

    /** `kept` has the characters of `text` at the positions `at`: the white space, letters and digits, in order. */
    ghost predicate IsKept(text: seq<Scalar>, kept: seq<Scalar>, at: seq<nat>) {
      && |kept| == |at|
      && (forall i, j :: 0 <= i < j < |at| ==> at[i] < at[j])
      && (forall i :: 0 <= i < |at| ==> at[i] < |text| && kept[i] == text[at[i]])
      && (forall k :: 0 <= k < |text| ==> (k in at <==> isWhitespace(text[k]) || isAlphanumeric(text[k])))
    }

    function Pick(text: seq<Scalar>): nat -> Option<Scalar> {
      (k: nat) => if k < |text| && (isWhitespace(text[k]) || isAlphanumeric(text[k])) then Some(text[k]) else None
    }

    lemma {:induction false} FilterSelects(text: seq<Scalar>) returns (at: seq<nat>)
      ensures Selects(Filter(text), at, 0, |text|, Pick(text))
    {
      hide Selects;
      if text == [] {
        at := [];
        SelectsNothing(0, Pick(text));
      } else {
        var n := |text| - 1;
        at := FilterSelects(text[..n]);
        SelectsAlike(Filter(text[..n]), at, 0, n, Pick(text[..n]), Pick(text));
        SelectsOneMore(Filter(text[..n]), at, 0, n, Pick(text));
        if Pick(text)(n).Some? {
          at := at + [n];
        } else {
          assert Filter(text) == Filter(text[..n]);
        }
      }
    }

    lemma KeptIsFiltered(text: seq<Scalar>, kept: seq<Scalar>, at: seq<nat>)
      requires IsKept(text, kept, at)
      ensures kept == Filter(text)
    {
      hide Filter;
      var at' := FilterSelects(text);
      SelectionIsUnique(kept, at, Filter(text), at', 0, |text|, Pick(text));
    }

    lemma FilteredIsKept(text: seq<Scalar>) returns (at: seq<nat>)
      ensures IsKept(text, Filter(text), at)
    {
      hide Filter;
      at := FilterSelects(text);
      forall k | 0 <= k < |text|
        ensures k in at <==> isWhitespace(text[k]) || isAlphanumeric(text[k])
      {
        if k in at {
          var i :| 0 <= i < |at| && at[i] == k;
          assert Pick(text)(at[i]).Some?;
        } else {
          assert Pick(text)(k).None?;
        }
      }
    }

    /**
     The fingerprint of a text, given what is left of it without the characters that are rejected: it depends
     on the lower-cased rest alone, by its runs of whole characters that encode to four bytes, unless the rest
     encodes to less than four bytes.
     */
    lemma HashOfWholeCharacters(text: seq<Scalar>, kept: seq<Scalar>, at: seq<nat>)
      requires IsKept(text, kept, at)
      ensures CalculateHash(text) ==
              if |EncodeAll(toLowercase(kept))| < 4 then simhash(text)
              else simhashStream(FourByteRuns(toLowercase(kept)))
    {
      hide Encode, FirstChar, IsKept;
      KeptIsFiltered(text, kept, at);
      NgramsAreFourByteRuns(toLowercase(kept));
    }

    /** Texts whose kept characters lower-case alike have one fingerprint, if these encode to at least four bytes. */
    lemma SameLettersSameHash(text: seq<Scalar>, kept: seq<Scalar>, at: seq<nat>,
                              text': seq<Scalar>, kept': seq<Scalar>, at': seq<nat>)
      requires IsKept(text, kept, at) && IsKept(text', kept', at')
      requires toLowercase(kept) == toLowercase(kept') && |EncodeAll(toLowercase(kept))| >= 4
      ensures CalculateHash(text) == CalculateHash(text')
    {
      hide EncodeAll, FourByteRuns, IsKept;
      HashOfWholeCharacters(text, kept, at);
      HashOfWholeCharacters(text', kept', at');
    }

    lemma {:induction false} FilterBoth(a: seq<Scalar>, b: seq<Scalar>)
      ensures Filter(a + b) == Filter(a) + Filter(b)
    {
      if b == [] {
        assert a + b == a && Filter(a) + [] == Filter(a);
      } else {
        var n := |b| - 1;
        FilterBoth(a, b[..n]);
        assert (a + b)[..|a + b| - 1] == a + b[..n];
      }
    }

    /** Putting in a character that is rejected changes no fingerprint of such a text. */
    lemma RejectedChangesNothing(a: seq<Scalar>, c: Scalar, b: seq<Scalar>, kept: seq<Scalar>, at: seq<nat>)
      requires !isWhitespace(c) && !isAlphanumeric(c)
      requires IsKept(a + b, kept, at) && |EncodeAll(toLowercase(kept))| >= 4
      ensures CalculateHash(a + [c] + b) == CalculateHash(a + b)
    {
      hide EncodeAll, FourByteRuns, IsKept;
      FilterBoth(a, b);
      FilterBoth(a + [c], b);
      FilterBoth(a, [c]);
      assert [c][..0] == [] && Filter([c]) == [] && Filter(a) + [] == Filter(a);
      var at' := FilteredIsKept(a + [c] + b);
      KeptIsFiltered(a + b, kept, at);
      SameLettersSameHash(a + [c] + b, Filter(a + [c] + b), at', a + b, kept, at);
    }
  }

  type Band = map<u16, seq<u64>>

  // ----- What the index stands for -----

  /** The hashes whose window `b` has the value `w`, in order. */
  function Bucket(hashes: seq<u64>, b: nat, w: u16): seq<u64>
    requires b < BAND_NUM
  {
    if hashes == [] then []
    else
      var h := hashes[|hashes| - 1];
      Bucket(hashes[..|hashes| - 1], b, w) + if ExtractBand(h, b) == w then [h] else []
  }

  ghost predicate RepresentsBand(band: Band, hashes: seq<u64>, b: nat)
    requires b < BAND_NUM
  {
    && (forall w: u16 :: w in band <==> Bucket(hashes, b, w) != [])
    && (forall w: u16 :: w in band ==> band[w] == Bucket(hashes, b, w))
  }

  ghost predicate Represents(bands: seq<Band>, hashes: seq<u64>) {
    |bands| == BAND_NUM && forall b: nat :: b < BAND_NUM ==> RepresentsBand(bands[b], hashes, b)
  }

  /** A list of hashes determines its index: building it at once or one insert at a time is the same. */
  lemma RepresentationIsUnique(p: seq<Band>, q: seq<Band>, hashes: seq<u64>)
    requires Represents(p, hashes) && Represents(q, hashes)
    ensures p == q
  {
    forall b | 0 <= b < BAND_NUM
      ensures p[b] == q[b]
    {
      assert RepresentsBand(p[b], hashes, b) && RepresentsBand(q[b], hashes, b);
    }
  }

  /** `band.entry(w).or_default().push(h)` */
  function PushEntry(band: Band, w: u16, h: u64): Band {
    band[w := (if w in band then band[w] else []) + [h]]
  }

  lemma BucketOfAppended(hashes: seq<u64>, h: u64, b: nat, w: u16)
    requires b < BAND_NUM
    ensures Bucket(hashes + [h], b, w) == Bucket(hashes, b, w) + if ExtractBand(h, b) == w then [h] else []
  {
    assert (hashes + [h])[..|hashes|] == hashes;
  }

  lemma PushRepresents(band: Band, hashes: seq<u64>, h: u64, b: nat)
    requires b < BAND_NUM && RepresentsBand(band, hashes, b)
    ensures RepresentsBand(PushEntry(band, ExtractBand(h, b), h), hashes + [h], b)
  {
    hide ExtractBand, Bucket;
    forall w: u16
      ensures Bucket(hashes + [h], b, w) == Bucket(hashes, b, w) + if ExtractBand(h, b) == w then [h] else []
    {
      BucketOfAppended(hashes, h, b, w);
    }
  }

  lemma {:induction false} BucketMembers(hashes: seq<u64>, b: nat, w: u16, h: u64)
    requires b < BAND_NUM
    ensures h in Bucket(hashes, b, w) <==> h in hashes && ExtractBand(h, b) == w
  {
    hide ExtractBand;
    if hashes != [] {
      BucketMembers(hashes[..|hashes| - 1], b, w, h);
      assert hashes == hashes[..|hashes| - 1] + [hashes[|hashes| - 1]];
    }
  }

  // ----- Exactness -----

  /** What a linear scan over the hashes would answer. */
  ghost predicate Near(hashes: seq<u64>, t: u64, maxDist: nat) {
    exists h :: h in hashes && HammingDistance(h, t) <= maxDist
  }

  /** The hash `h` is near `t` and is in a bucket that is looked at for `t`. */
  ghost predicate IsCandidate(h: u64, t: u64, b: nat, maxDist: nat) {
    b < BAND_NUM && ExtractBand(h, b) == ExtractBand(t, b) && HammingDistance(h, t) <= maxDist
  }

  /** What the index answers. */
  ghost predicate NearInSomeBucket(hashes: seq<u64>, t: u64, maxDist: nat) {
    exists h, b: nat :: h in hashes && IsCandidate(h, t, b, maxDist)
  }

  /** Up to distance three, the index finds every hash that a linear scan finds. */
  lemma IndexIsExact(hashes: seq<u64>, t: u64, maxDist: nat)
    requires maxDist <= 3
    ensures NearInSomeBucket(hashes, t, maxDist) <==> Near(hashes, t, maxDist)
  {
    hide ExtractBand, HammingDistance;
    if Near(hashes, t, maxDist) {
      var h :| h in hashes && HammingDistance(h, t) <= maxDist;
      var b := NearHashesShareAWindow(h, t);
      assert IsCandidate(h, t, b, maxDist);
    }
  }

  /** Three is the largest distance for which the index can stand in for a linear scan. */
  lemma IndexIsExactUpToThree(maxDist: nat)
    ensures (forall hashes, t :: NearInSomeBucket(hashes, t, maxDist) <==> Near(hashes, t, maxDist)) <==> maxDist <= 3
  {
    hide ExtractBand, HammingDistance;
    if maxDist <= 3 {
      forall hashes, t
        ensures NearInSomeBucket(hashes, t, maxDist) <==> Near(hashes, t, maxDist)
      {
        IndexIsExact(hashes, t, maxDist);
      }
    } else {
      DistanceFourSharesNothing();
      assert Zero() in [Zero()];
      assert Near([Zero()], Spread(), maxDist);
      assert !NearInSomeBucket([Zero()], Spread(), maxDist);
    }
  }

  // ----- Bucket sizes -----

  /** The sizes of the buckets of window values below `n`, added up. */
  function TotalSize(hashes: seq<u64>, b: nat, n: nat): nat
    requires b < BAND_NUM && n <= 0x1_0000
  {
    if n == 0 then 0 else TotalSize(hashes, b, n - 1) + |Bucket(hashes, b, n - 1)|
  }

  lemma {:induction false} TotalSizeOfAppended(hashes: seq<u64>, h: u64, b: nat, n: nat)
    requires b < BAND_NUM && n <= 0x1_0000
    ensures TotalSize(hashes + [h], b, n) == TotalSize(hashes, b, n) + if ExtractBand(h, b) < n then 1 else 0
  {
    hide ExtractBand;
    if n > 0 {
      TotalSizeOfAppended(hashes, h, b, n - 1);
      BucketOfAppended(hashes, h, b, n - 1);
    }
  }

  lemma {:induction false} EmptyBuckets(b: nat, n: nat)
    requires b < BAND_NUM && n <= 0x1_0000
    ensures TotalSize([], b, n) == 0
  {
    if n > 0 {
      EmptyBuckets(b, n - 1);
    }
  }

  /** Every hash is in exactly one bucket of each band. */
  lemma {:induction false} BucketSizesAddUp(hashes: seq<u64>, b: nat, n: nat)
    requires b < BAND_NUM && n <= 0x1_0000
    requires forall h :: h in hashes ==> ExtractBand(h, b) < n
    ensures TotalSize(hashes, b, n) == |hashes|
  {
    hide ExtractBand;
    if hashes == [] {
      EmptyBuckets(b, n);
    } else {
      var init, last := hashes[..|hashes| - 1], hashes[|hashes| - 1];
      assert hashes == init + [last];
      BucketSizesAddUp(init, b, n);
      TotalSizeOfAppended(init, last, b, n);
    }
  }

  lemma {:induction false} TotalSizeBound(hashes: seq<u64>, b: nat, n: nat, m: nat)
    requires b < BAND_NUM && n <= 0x1_0000
    requires forall w: u16 :: |Bucket(hashes, b, w)| <= m
    ensures TotalSize(hashes, b, n) <= n * m
  {
    hide ExtractBand, Bucket;
    if n > 0 {
      TotalSizeBound(hashes, b, n - 1, m);
      assert |Bucket(hashes, b, n - 1)| <= m;
      OneMoreMultiple(n, m);
    }
  }

  /** The last window has only eight bits, hence at most 256 buckets to share among all hashes. */
  lemma LastBandIsCrowded(hashes: seq<u64>, m: nat)
    requires forall w: u16 :: |Bucket(hashes, 7, w)| <= m
    ensures |hashes| <= 256 * m
  {
    PowersOfTwo();
    assert forall h: u64 :: ExtractBand(h, 7) < 256;
    BucketSizesAddUp(hashes, 7, 256);
    TotalSizeBound(hashes, 7, 256, m);
  }

  // ----- The index in place -----

  class ContentDeduplicator {
    var bands: seq<Band>
    const maxDist: nat
    const hasher: Hasher
    ghost var hashes: seq<u64>  // all hashes ever loaded or inserted, in order

    ghost predicate Valid()
      reads this
    {
      Represents(bands, hashes)
    }

    constructor Init(hashes: seq<u64>, dist: nat, hasher: Hasher)
      ensures Valid() && this.hashes == hashes && maxDist == dist && this.hasher == hasher
    {
      hide ExtractBand;
      var bands: seq<Band> := seq(BAND_NUM, b => map[]);
      assert hashes[..0] == [];
      for i := 0 to |hashes|
        invariant Represents(bands, hashes[..i])
      {
        bands := AddToBands(bands, hashes[..i], hashes[i]);
        assert hashes[..i] + [hashes[i]] == hashes[..i + 1];
      }
      assert hashes[..|hashes|] == hashes;
      this.bands, this.maxDist, this.hasher, this.hashes := bands, dist, hasher, hashes;
    }

    /** The inner loop that `init` and `insert` share: push the hash into its bucket in every band. */
    static method AddToBands(before: seq<Band>, ghost hashes: seq<u64>, h: u64) returns (bands: seq<Band>)
      requires Represents(before, hashes)
      ensures Represents(bands, hashes + [h])
    {
      hide ExtractBand, Bucket, RepresentsBand, PushEntry;
      bands := before;
      for bandId := 0 to BAND_NUM
        invariant |bands| == BAND_NUM
        invariant forall b: nat :: b < bandId ==> RepresentsBand(bands[b], hashes + [h], b)
        invariant forall b: nat :: bandId <= b < BAND_NUM ==> RepresentsBand(bands[b], hashes, b)
      {
        PushRepresents(bands[bandId], hashes, h, bandId);
        bands := bands[bandId := PushEntry(bands[bandId], ExtractBand(h, bandId), h)];
      }
    }

    /** Whether some hash within `maxDist` shares a window with the text's hash. */
    method IsDuplicate(text: seq<Scalar>) returns (found: bool)
      requires Valid()
      ensures found <==> NearInSomeBucket(hashes, hasher.CalculateHash(text), maxDist)
      ensures found ==> exists h :: h in hashes && HammingDistance(h, hasher.CalculateHash(text)) <= maxDist
      ensures maxDist <= 3 ==> (found <==> Near(hashes, hasher.CalculateHash(text), maxDist))
    {
      hide ExtractBand, HammingDistance, Bucket;
      var textHash := hasher.CalculateHash(text);
      if maxDist <= 3 {
        IndexIsExact(hashes, textHash, maxDist);
      }
      for bandId := 0 to BAND_NUM
        invariant forall h, b: nat :: h in hashes && b < bandId ==> !IsCandidate(h, textHash, b, maxDist)
      {
        var bandValue := ExtractBand(textHash, bandId);
        assert RepresentsBand(bands[bandId], hashes, bandId);
        forall h
          ensures h in Bucket(hashes, bandId, bandValue) <==> h in hashes && ExtractBand(h, bandId) == bandValue
        {
          BucketMembers(hashes, bandId, bandValue, h);
        }
        if bandValue in bands[bandId] {
          var candidates := bands[bandId][bandValue];
          if exists h :: h in candidates && HammingDistance(h, textHash) <= maxDist {
            ghost var h :| h in candidates && HammingDistance(h, textHash) <= maxDist;
            assert IsCandidate(h, textHash, bandId, maxDist);
            return true;
          }
        }
      }
      return false;
    }

    method Insert(text: seq<Scalar>) returns (newHash: u64)
      requires Valid()
      modifies this
      ensures Valid()
      ensures newHash == hasher.CalculateHash(text)
      ensures hashes == old(hashes) + [newHash]
    {
      newHash := hasher.CalculateHash(text);
      bands := AddToBands(bands, hashes, newHash);
      hashes := hashes + [newHash];
    }

    /** The size of the largest bucket: never less than one 256th of the hashes. */
    method DebugMaxBucketSize() returns (m: nat)
      requires Valid()
      ensures forall b: nat, w: u16 :: b < BAND_NUM ==> |Bucket(hashes, b, w)| <= m
      ensures m > 0 ==> exists b: nat, w: u16 :: b < BAND_NUM && |Bucket(hashes, b, w)| == m
      ensures |hashes| <= 256 * m
    {
      hide ExtractBand;
      m := 0;
      for bandId := 0 to BAND_NUM
        invariant forall b: nat, w: u16 :: b < bandId ==> |Bucket(hashes, b, w)| <= m
        invariant m > 0 ==> exists b: nat, w: u16 :: b < BAND_NUM && |Bucket(hashes, b, w)| == m
      {
        var band := bands[bandId];
        assert RepresentsBand(band, hashes, bandId);
        var rest := band.Keys;
        while rest != {}
          invariant rest <= band.Keys
          invariant forall b: nat, w: u16 :: b < bandId ==> |Bucket(hashes, b, w)| <= m
          invariant forall w :: w in band && w !in rest ==> |band[w]| <= m
          invariant m > 0 ==> exists b: nat, w: u16 :: b < BAND_NUM && |Bucket(hashes, b, w)| == m
          decreases rest
        {
          var w :| w in rest;
          if m < |band[w]| {
            m := |band[w]|;
          }
          rest := rest - {w};
        }
      }
      LastBandIsCrowded(hashes, m);
    }
  }
}
