/** The seen filter: a Bloom filter over URLs. */
module SeenFilter {
  import opened CrawlProtocol

  class SeenUrls {
    const hashes: Url -> set<nat>  // the positions of a URL in the filter
    var bits: set<nat>             // the positions that are set
    ghost var inserted: set<Url>

    ghost predicate Valid()
      reads this
    {
      forall u :: u in inserted ==> hashes(u) <= bits
    }

    constructor (hashes: Url -> set<nat>)
      ensures Valid() && inserted == {} && bits == {} && this.hashes == hashes
    {
      this.hashes, bits, inserted := hashes, {}, {};
    }

    /** Whether the URL was possibly there before: never a wrong no. */
    method InsertUrl(url: Url) returns (wasPresent: bool)
      requires Valid()
      modifies this
      ensures Valid() && inserted == old(inserted) + {url} && bits == old(bits) + hashes(url)
      ensures wasPresent <==> hashes(url) <= old(bits)
      ensures CanReply(old(inserted), url, if wasPresent then Seen else Fresh)
    {
      wasPresent := hashes(url) <= bits;
      bits := bits + hashes(url);
      inserted := inserted + {url};
    }

    /** A restart of the storage service, which keeps the filter in memory only. */
    method Reset()
      modifies this
      ensures Valid() && inserted == {} && bits == {}
    {
      bits, inserted := {}, {};
    }
  }
}
