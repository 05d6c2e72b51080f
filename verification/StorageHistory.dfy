/**
 Near-duplicate pages over the whole life of a database: through any sequence of
 page events, failed writes and restarts, the fingerprints kept stay far apart.
 */
module StorageHistory {
  import opened Wrappers
  import opened Simhash
  import opened CrawlProtocol
  import opened ContentDeduplication
  import opened Database
  import opened Storage

  datatype Event =
    | Page(domId: int, page: PageData, hash: Option<u64>, written: bool)
    // the index is built again from the rows, in the order listed, or starts empty
    | Restart(rows: seq<Url>, loaded: bool)

  ghost predicate Possible(s: Indexed, e: Event) {
    e.Restart? && e.loaded ==> ListsHashes(s.pages, e.rows)
  }

  ghost function After(s: Indexed, e: Event): Indexed
    requires Possible(s, e)
  {
    match e
    case Page(domId, page, hash, written) => AfterPage(s, domId, page, hash, written)
    case Restart(rows, loaded) => Indexed(if loaded then HashesOf(s.pages, rows) else [], s.pages)
  }

  ghost predicate IsHistory(s: Indexed, events: seq<Event>)
    decreases |events|, 0
  {
    events == [] ||
    var n := |events| - 1;
    IsHistory(s, events[..n]) && Possible(Outcome(s, events[..n]), events[n])
  }

  ghost function Outcome(s: Indexed, events: seq<Event>): Indexed
    requires IsHistory(s, events)
    decreases |events|, 1
  {
    if events == [] then s
    else
      var n := |events| - 1;
      After(Outcome(s, events[..n]), events[n])
  }

  // ----- Separation -----

  predicate FarApart(a: u64, b: u64) {
    HammingDistance(a, b) > 3
  }

  ghost predicate PairwiseFar(hashes: seq<u64>) {
    forall i, j :: 0 <= i < j < |hashes| ==> FarApart(hashes[i], hashes[j])
  }

  ghost predicate PagesFar(pages: Pages) {
    forall u, v :: u in pages && v in pages && u != v && pages[u].hash.Some? && pages[v].hash.Some?
                   ==> FarApart(ToU64(pages[u].hash.value), ToU64(pages[v].hash.value))
  }

  ghost predicate StoredAreIndexed(s: Indexed) {
    forall u :: u in s.pages && s.pages[u].hash.Some? ==> ToU64(s.pages[u].hash.value) in s.hashes
  }

  ghost predicate Separated(s: Indexed) {
    PairwiseFar(s.hashes) && PagesFar(s.pages) && StoredAreIndexed(s)
  }

  lemma FarFromIndex(hashes: seq<u64>, h: u64)
    requires !Near(hashes, h, 3)
    ensures forall g :: g in hashes ==> FarApart(g, h) && FarApart(h, g)
  {
    forall g | g in hashes
      ensures FarApart(g, h) && FarApart(h, g)
    {
      assert HammingDistance(g, h) > 3;
      DifferencesCommute(g, h, 64);
    }
  }

  lemma PageKeepsSeparation(s: Indexed, domId: int, page: PageData, hash: Option<u64>, written: bool)
    requires Separated(s)
    ensures Separated(AfterPage(s, domId, page, hash, written))
  {
    hide HammingDistance, Near, ToU64, ToI64, FarApart;
    if hash.Some? && !Near(s.hashes, hash.value, 3) {
      FarFromIndex(s.hashes, hash.value);
      I64RoundTrip(hash.value);
      var t := AfterPage(s, domId, page, hash, written);
      assert hash.value in t.hashes && forall g :: g in s.hashes ==> g in t.hashes;
    }
  }

  lemma RestartKeepsSeparation(s: Indexed, rows: seq<Url>)
    requires Separated(s) && ListsHashes(s.pages, rows)
    ensures Separated(Indexed(HashesOf(s.pages, rows), s.pages))
  {
    hide HammingDistance, ToU64, HashesOf, FarApart;
    var hashes := HashesOf(s.pages, rows);
    forall u | u in s.pages && s.pages[u].hash.Some?
      ensures ToU64(s.pages[u].hash.value) in hashes
    {
      assert u in rows;
      var i :| 0 <= i < |rows| && rows[i] == u;
      assert hashes[i] == ToU64(s.pages[u].hash.value);
    }
    forall i, j | 0 <= i < j < |hashes|
      ensures FarApart(hashes[i], hashes[j])
    {
      assert rows[i] in rows && rows[j] in rows && rows[i] != rows[j];
    }
  }

  /** No row holds a fingerprint. */
  ghost predicate NoneStored(pages: Pages) {
    forall u :: u in pages ==> pages[u].hash.None?
  }

  /** An index that starts empty is in order exactly if no fingerprint is stored. */
  lemma UnloadedIsSeparated(pages: Pages)
    requires PagesFar(pages)
    ensures Separated(Indexed([], pages)) <==> NoneStored(pages)
  {
    if u :| u in pages && pages[u].hash.Some? {
      assert ToU64(pages[u].hash.value) !in Indexed([], pages).hashes;
    }
  }

  /** A restart is safe if it loads the rows or finds no fingerprint in them. */
  ghost predicate IsSafe(s: Indexed, e: Event) {
    e.Restart? ==> e.loaded || NoneStored(s.pages)
  }

  lemma EventKeepsSeparation(s: Indexed, e: Event)
    requires Separated(s) && Possible(s, e)
    ensures Separated(After(s, e)) <==> IsSafe(s, e)
  {
    hide AfterPage, ListsHashes, NoneStored, HashesOf;
    match e
    case Page(domId, page, hash, written) => PageKeepsSeparation(s, domId, page, hash, written);
    case Restart(rows, loaded) =>
      if loaded {
        RestartKeepsSeparation(s, rows);
      } else {
        UnloadedIsSeparated(s.pages);
      }
  }

  ghost predicate AllSafe(s: Indexed, events: seq<Event>)
    requires IsHistory(s, events)
    decreases |events|
  {
    events == [] ||
    var n := |events| - 1;
    AllSafe(s, events[..n]) && IsSafe(Outcome(s, events[..n]), events[n])
  }

  ghost predicate AlwaysSeparated(s: Indexed, events: seq<Event>)
    requires IsHistory(s, events)
    decreases |events|
  {
    Separated(Outcome(s, events)) && (events == [] || AlwaysSeparated(s, events[..|events| - 1]))
  }

  /**
   From an empty database, or any separated one, through any history: all fingerprints in the
   index, and all in the pages table, are pairwise more than three bits apart, and those stored are
   in the index. This holds at all times exactly if every restart is safe.
   */
  lemma {:induction false} SeparationOverHistories(s: Indexed, events: seq<Event>)
    requires Separated(s) && IsHistory(s, events)
    ensures AlwaysSeparated(s, events) <==> AllSafe(s, events)
    ensures AllSafe(s, events) ==> Separated(Outcome(s, events))
  {
    hide Separated, After, Possible, IsSafe;
    if events != [] {
      var n := |events| - 1;
      SeparationOverHistories(s, events[..n]);
      if AllSafe(s, events[..n]) {
        EventKeepsSeparation(Outcome(s, events[..n]), events[n]);
      }
    }
  }

  lemma EmptyIsSeparated()
    ensures Separated(Indexed([], map[]))
  {
  }

  /** After a restart that is not safe, the text of a stored page, under another URL, is stored a second time. */
  lemma UnsafeRestartStoresTwice(s: Indexed, u: Url, domId: int, page: PageData, hasher: Hasher)
    returns (events: seq<Event>)
    requires u in s.pages && s.pages[u].hash.Some? && page.url != u
    requires HashOfText(hasher, page) == Some(ToU64(s.pages[u].hash.value))
    ensures events == [Restart([], false), Page(domId, page, HashOfText(hasher, page), true)] && IsHistory(s, events)
    ensures Outcome(s, events).pages == s.pages[page.url := NewPageRow(domId, page, HashOfText(hasher, page))]
    ensures !PagesFar(Outcome(s, events).pages)
  {
    hide HammingDistance, ToU64, ToI64, HashOfText;
    var h := ToU64(s.pages[u].hash.value);
    var first, second := Restart([], false), Page(domId, page, Some(h), true);
    events := [first, second];
    assert events[..1] == [first] && [first][..0] == [];
    assert IsHistory(s, [first]) && Outcome(s, [first]) == Indexed([], s.pages);
    assert IsHistory(s, events) && Outcome(s, events).pages == s.pages[page.url := NewPageRow(domId, page, Some(h))];
    I64RoundTrip(h);
    DistanceToSelf(h);
    var pages := Outcome(s, events).pages;
    assert pages[u] == s.pages[u] && ToU64(pages[page.url].hash.value) == h;
    assert !FarApart(ToU64(pages[u].hash.value), ToU64(pages[page.url].hash.value));
  }
}
