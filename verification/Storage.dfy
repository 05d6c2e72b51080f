/**
 The storage service's state: the database, the domain cache in front of it, and the
 near-duplicate index.
 */
module Storage {
  import opened Wrappers
  import opened Simhash
  import opened Utf8
  import opened CrawlProtocol
  import opened ContentDeduplication
  import opened DomainCaching
  import opened Database

  type Cache = map<string, CachedData>

  datatype UrlAccess = Allowed | Disallowed | UnknownDomain | UrlWithoutHost

  datatype ParsedData = ParsedPage(page: PageData) | ParsedDomain(data: DomainData)

  // ----- Read-through lookups -----

  /** What a lookup without a cache answers. */
  function Direct(lib: Robots, domains: Domains, domain: string): Result<Option<CachedData>> {
    if domain !in domains then Success(None)
    else
      match OfRow(lib, domains[domain])
      case Success(cd) => Success(Some(cd))
      case Failure(e) => Failure(e)
  }

  /** What a lookup through the cache answers; `ok` says whether the database can be read. */
  function Lookup(lib: Robots, cache: Cache, domains: Domains, domain: string, ok: bool): Result<Option<CachedData>> {
    if domain in cache then Success(Some(cache[domain]))
    else if !ok then Failure(DbError)
    else Direct(lib, domains, domain)
  }

  /** The cache after the lookup: a row that was read is kept. */
  function Filled(cache: Cache, domain: string, found: Result<Option<CachedData>>): Cache {
    if found.Success? && found.value.Some? then cache[domain := found.value.value] else cache
  }

  function Access(lib: Robots, found: Option<CachedData>, path: string): UrlAccess {
    if found.None? then UnknownDomain
    else if found.value.robot.Some? && !lib.allowed(found.value.robot.value, path) then Disallowed
    else Allowed
  }

  /** Every entry of the cache is what its row gives. */
  ghost predicate Coherent(lib: Robots, cache: Cache, domains: Domains) {
    forall d :: d in cache ==> d in domains && OfRow(lib, domains[d]) == Success(cache[d])
  }

  /** Through a coherent cache, a lookup answers as without one, except that it can do without the database. */
  lemma CoherentLookup(lib: Robots, cache: Cache, domains: Domains, domain: string, ok: bool)
    requires Coherent(lib, cache, domains)
    ensures var found := Lookup(lib, cache, domains, domain, ok);
            && (found == Direct(lib, domains, domain) || (!ok && domain !in cache && found == Failure(DbError)))
            && Coherent(lib, Filled(cache, domain, found), domains)
  {
  }

  /** A lookup asks the cache, then the table, and caches the row that it finds there, if its robots.txt parses. */
  lemma LookupInFields(lib: Robots, cache: Cache, domains: Domains, domain: string, ok: bool)
    ensures var found := Lookup(lib, cache, domains, domain, ok);
            var cache' := Filled(cache, domain, found);
            if domain in cache then found == Success(Some(cache[domain])) && cache' == cache
            else if !ok then found == Failure(DbError) && cache' == cache
            else if domain !in domains then found == Success(None) && cache' == cache
            else
              var row := domains[domain];
              if row.robots.Some? && !lib.parses(row.robots.value)
              then found == Failure(RobotParseError) && cache' == cache
              else
                && cache' == cache[domain := CachedData(row.id, row.robots, row.delay)]
                && found == Success(Some(cache'[domain]))
  {
  }

  function AfterUpsert(domains: Domains, lastId: int, data: DomainData): Domains {
    domains[data.domain := UpsertedDomain(domains, lastId, data)]
  }

  /** The cache after `save_domain`, if the row was written: a robots.txt that does not parse is not cached. */
  function CacheAfterSave(lib: Robots, cache: Cache, domains: Domains, lastId: int, data: DomainData): Cache {
    match OfRow(lib, UpsertedDomain(domains, lastId, data))
    case Success(cd) => cache[data.domain := cd]
    case Failure(_) => cache
  }

  /** A save keeps the cache coherent exactly if the robots.txt parses or the domain was not cached. */
  lemma SaveKeepsCoherence(lib: Robots, cache: Cache, domains: Domains, lastId: int, data: DomainData)
    requires Coherent(lib, cache, domains)
    ensures Coherent(lib, CacheAfterSave(lib, cache, domains, lastId, data), AfterUpsert(domains, lastId, data)) <==>
            (data.robots.Some? ==> lib.parses(data.robots.value)) || data.domain !in cache
  {
    var row := UpsertedDomain(domains, lastId, data);
    var cache', domains' := CacheAfterSave(lib, cache, domains, lastId, data), AfterUpsert(domains, lastId, data);
    if OfRow(lib, row).Failure? && data.domain in cache {
      assert data.domain in cache' && OfRow(lib, domains'[data.domain]) != Success(cache'[data.domain]);
    }
  }

  // ----- Runs of operations that do not overlap -----

  datatype Op = Ask(domain: string, ok: bool) | Save(data: DomainData, ok: bool) | Evict(domain: string)

  datatype Known = Known(cache: Cache, domains: Domains, lastId: int)

  function Done(lib: Robots, k: Known, op: Op): Known {
    match op
    case Ask(d, ok) => k.(cache := Filled(k.cache, d, Lookup(lib, k.cache, k.domains, d, ok)))
    case Evict(d) => k.(cache := k.cache - {d})
    case Save(data, ok) =>
      if !ok then k
      else Known(CacheAfterSave(lib, k.cache, k.domains, k.lastId, data), AfterUpsert(k.domains, k.lastId, data),
                 if data.domain in k.domains then k.lastId else k.lastId + 1)
  }

  function AllDone(lib: Robots, k: Known, ops: seq<Op>): Known {
    if ops == [] then k else Done(lib, AllDone(lib, k, ops[..|ops| - 1]), ops[|ops| - 1])
  }

  predicate RobotsParse(lib: Robots, ops: seq<Op>) {
    forall i :: 0 <= i < |ops| && ops[i].Save? && ops[i].data.robots.Some? ==> lib.parses(ops[i].data.robots.value)
  }

  /**
   Cache transparency: after any run of lookups, saves and evictions, started on any table with an
   empty cache, every lookup answers as one in the table itself.
   */
  lemma {:induction false} CacheIsTransparent(lib: Robots, domains: Domains, lastId: int, ops: seq<Op>,
                                              domain: string, ok: bool)
    requires RobotsParse(lib, ops)
    ensures var k := AllDone(lib, Known(map[], domains, lastId), ops);
            && Coherent(lib, k.cache, k.domains)
            && var found := Lookup(lib, k.cache, k.domains, domain, ok);
               found == Direct(lib, k.domains, domain) || (!ok && domain !in k.cache && found == Failure(DbError))
  {
    if ops != [] {
      var n := |ops| - 1;
      var k := AllDone(lib, Known(map[], domains, lastId), ops[..n]);
      CacheIsTransparent(lib, domains, lastId, ops[..n], domain, ok);
      match ops[n]
      case Ask(d, readable) => CoherentLookup(lib, k.cache, k.domains, d, readable);
      case Save(data, _) => SaveKeepsCoherence(lib, k.cache, k.domains, k.lastId, data);
      case Evict(_) =>
    }
    var k := AllDone(lib, Known(map[], domains, lastId), ops);
    CoherentLookup(lib, k.cache, k.domains, domain, ok);
  }

  // ----- The service -----

  /** What a page event does: the index and the pages it leaves. */
  datatype Indexed = Indexed(hashes: seq<u64>, pages: Pages)

  function HashOfText(hasher: Hasher, page: PageData): Option<u64> {
    if page.cleanText.Some? then Some(hasher.CalculateHash(page.cleanText.value)) else None
  }

  /** The hash is that of a near duplicate. */
  ghost predicate IsOldHash(hashes: seq<u64>, hash: Option<u64>) {
    hash.Some? && Near(hashes, hash.value, 3)
  }

  /** The near-duplicate check comes first; the fingerprint of a new text enters the index before the row is written. */
  ghost function AfterPage(s: Indexed, domId: int, page: PageData, hash: Option<u64>, written: bool): Indexed {
    if IsOldHash(s.hashes, hash) then s
    else Indexed(
           if hash.Some? then s.hashes + [hash.value] else s.hashes,
           if written then s.pages[page.url := NewPageRow(domId, page, hash)] else s.pages)
  }

  /** A text near an indexed one changes nothing; any other is indexed, and written with the page's data if possible. */
  lemma PageInFields(hasher: Hasher, s: Indexed, domId: int, page: PageData, written: bool)
    ensures var s' := AfterPage(s, domId, page, HashOfText(hasher, page), written);
            if page.cleanText.Some?
               && exists h :: h in s.hashes && HammingDistance(h, hasher.CalculateHash(page.cleanText.value)) <= 3
            then s' == s
            else
              && s'.hashes == s.hashes
                   + (if page.cleanText.Some? then [hasher.CalculateHash(page.cleanText.value)] else [])
              && (!written ==> s'.pages == s.pages)
              && (written ==>
                    && page.url in s'.pages && s'.pages == s.pages[page.url := s'.pages[page.url]]
                    && var row := s'.pages[page.url];
                       && row.domId == domId && row.title == page.title && row.description == page.description
                       && row.cleanText == page.cleanText && (row.hash.Some? <==> page.cleanText.Some?)
                       && (row.hash.Some? ==> ToU64(row.hash.value) == hasher.CalculateHash(page.cleanText.value)))
  {
    hide ToU64, ToI64, HammingDistance;
    if page.cleanText.Some? {
      I64RoundTrip(hasher.CalculateHash(page.cleanText.value));
    }
  }

  /** All that the service knows. */
  datatype Contents = Contents(known: Known, indexed: Indexed, saved: nat)

  /** The answers of the database, and whether the cache drops a saved domain at once. */
  datatype Answers = Answers(readOk: bool, writeOk: bool, evicted: bool)

  /** What a domain event does, and the sitemaps it brings to light. */
  function AfterDomainEvent(lib: Robots, c: Contents, data: DomainData, a: Answers): (Contents, Result<seq<string>>) {
    var known := Done(lib, c.known, Save(data, a.writeOk));
    if !a.writeOk then (c, Failure(DbError))
    else if data.robots.Some? && !lib.parses(data.robots.value) then (c.(known := known), Failure(RobotParseError))
    else if a.evicted then (c.(known := Done(lib, known, Evict(data.domain))), Success([]))
    else (c.(known := known), Success(if data.robots.Some? then lib.sitemaps(data.robots.value) else []))
  }

  /**
   A domain event writes the row, unless the database fails, and leaves all else alone but for the cache, which gets
   the same data if the robots.txt parses; the sitemaps it answers with are those of that text.
   */
  lemma DomainEventInFields(lib: Robots, c: Contents, data: DomainData, a: Answers)
    ensures var (c', r) := AfterDomainEvent(lib, c, data, a);
            && c'.indexed == c.indexed && c'.saved == c.saved
            && (!a.writeOk ==> c' == c && r == Failure(DbError))
            && (a.writeOk ==>
                  && data.domain in c'.known.domains
                  && var row := c'.known.domains[data.domain];
                     && c'.known.domains == c.known.domains[data.domain := row]
                     && row.delay == data.delay && row.robots == data.robots
                     && row.id == (if data.domain in c.known.domains then c.known.domains[data.domain].id
                                   else c.known.lastId + 1)
                     && c'.known.lastId == c.known.lastId + (if data.domain in c.known.domains then 0 else 1)
                     && if data.robots.Some? && !lib.parses(data.robots.value)
                        then r == Failure(RobotParseError) && c'.known.cache == c.known.cache
                        else if a.evicted then r == Success([]) && c'.known.cache == c.known.cache - {data.domain}
                        else
                          && c'.known.cache == c.known.cache[data.domain := CachedData(row.id, data.robots, data.delay)]
                          && r == Success(if data.robots.Some? then lib.sitemaps(data.robots.value) else []))
  {
  }

  /** What a page event does. */
  ghost function AfterPageEvent(lib: Robots, hasher: Hasher, c: Contents, page: PageData, a: Answers)
    : (Contents, Result<seq<string>>)
  {
    if page.url.domain.None? then (c, Failure(UrlDoesntContainDomain))
    else
      var d := page.url.domain.value;
      var c' := c.(known := Done(lib, c.known, Ask(d, a.readOk)));
      match Lookup(lib, c.known.cache, c.known.domains, d, a.readOk)
      case Failure(e) => (c', Failure(e))
      case Success(None) => (c', Failure(UrlDoesntContainDomain))
      case Success(Some(cd)) =>
        var hash := HashOfText(hasher, page);
        var written := a.writeOk && IsDomainId(c.known.domains, cd.id);
        var c'' := c'.(indexed := AfterPage(c.indexed, cd.id, page, hash, written));
        if written || IsOldHash(c.indexed.hashes, hash) then (c''.(saved := c.saved + 1), Success([]))
        else (c'', Failure(DbError))
  }

  ghost function AfterEvent(lib: Robots, hasher: Hasher, c: Contents, event: ParsedData, a: Answers)
    : (Contents, Result<seq<string>>)
  {
    match event
    case ParsedPage(page) => AfterPageEvent(lib, hasher, c, page, a)
    case ParsedDomain(data) => AfterDomainEvent(lib, c, data, a)
  }

  /**
   A page event looks the host up, and fails with the domains unchanged if that does not give an id; else it
   is handled under the id, and counted if it succeeds, which only a failing write of a new page prevents.
   */
  lemma PageEventInFields(lib: Robots, hasher: Hasher, c: Contents, page: PageData, a: Answers)
    ensures var (c', r) := AfterPageEvent(lib, hasher, c, page, a);
            && c'.known.domains == c.known.domains && c'.known.lastId == c.known.lastId
            && c'.saved == c.saved + (if r.Success? then 1 else 0)
            && if page.url.domain.None? then c' == c && r == Failure(UrlDoesntContainDomain)
               else
                 var d := page.url.domain.value;
                 var found := Lookup(lib, c.known.cache, c.known.domains, d, a.readOk);
                 && c'.known.cache == Filled(c.known.cache, d, found)
                 && match found
                    case Failure(e) => c'.indexed == c.indexed && r == Failure(e)
                    case Success(None) => c'.indexed == c.indexed && r == Failure(UrlDoesntContainDomain)
                    case Success(Some(cd)) =>
                      var ok := a.writeOk && exists e :: e in c.known.domains && c.known.domains[e].id == cd.id;
                      var near := page.cleanText.Some? && exists h ::
                                    h in c.indexed.hashes
                                    && HammingDistance(h, hasher.CalculateHash(page.cleanText.value)) <= 3;
                      && c'.indexed == AfterPage(c.indexed, cd.id, page, HashOfText(hasher, page), ok)
                      && r == if ok || near then Success([]) else Failure(DbError)
  {
    hide HammingDistance;
  }

  /** The page's fingerprint, if it has text, is near one in the index. */
  ghost predicate IsIndexed(hasher: Hasher, hashes: seq<u64>, event: ParsedData) {
    event.ParsedPage? && event.page.cleanText.Some? ==>
      Near(hashes, hasher.CalculateHash(event.page.cleanText.value), 3)
  }

  /** The index only grows, and an event that succeeds is indexed. */
  lemma SuccessIsIndexed(lib: Robots, hasher: Hasher, c: Contents, event: ParsedData, a: Answers)
    ensures var (c', r) := AfterEvent(lib, hasher, c, event, a);
            && c.indexed.hashes <= c'.indexed.hashes
            && (r.Success? ==> IsIndexed(hasher, c'.indexed.hashes, event))
            && (r.Success? && event.ParsedPage? && event.page.cleanText.Some? ==>
                  exists h :: h in c'.indexed.hashes
                              && HammingDistance(h, hasher.CalculateHash(event.page.cleanText.value)) <= 3)
  {
    hide HammingDistance;
    if event.ParsedPage? && event.page.cleanText.Some? {
      var h := hasher.CalculateHash(event.page.cleanText.value);
      JustInserted(c.indexed.hashes + [h], h);
    }
  }

  /** The event is a page whose text is a near duplicate of an indexed one. */
  ghost predicate IsNearDuplicate(hasher: Hasher, hashes: seq<u64>, event: ParsedData) {
    event.ParsedPage? && IsOldHash(hashes, HashOfText(hasher, event.page))
  }

  /**
   Acknowledged without a write: an event that succeeds leaves the pages table as it was if it is a near
   duplicate or brings a domain; any other page's row is then as the event has it, with its fingerprint.
   */
  lemma SuccessfulPageIsWritten(lib: Robots, hasher: Hasher, c: Contents, event: ParsedData, a: Answers)
    ensures var (c', r) := AfterEvent(lib, hasher, c, event, a);
            r.Success? ==>
              if event.ParsedDomain? || IsNearDuplicate(hasher, c.indexed.hashes, event)
              then c'.indexed == c.indexed
              else
                var page := event.page;
                && page.url.domain.Some? && page.url in c'.indexed.pages
                && var row := c'.indexed.pages[page.url];
                   && c'.indexed.pages == c.indexed.pages[page.url := row]
                   && IsDomainId(c.known.domains, row.domId)
                   && row.title == page.title && row.description == page.description && row.cleanText == page.cleanText
                   && (row.hash.Some? <==> page.cleanText.Some?)
                   && (row.hash.Some? ==> ToU64(row.hash.value) == hasher.CalculateHash(page.cleanText.value))
  {
    hide Near, IsDomainId, ToU64, ToI64;
    if event.ParsedPage? && event.page.cleanText.Some? {
      I64RoundTrip(hasher.CalculateHash(event.page.cleanText.value));
    }
  }

  lemma JustInserted(hashes: seq<u64>, h: u64)
    requires h in hashes
    ensures Near(hashes, h, 3)
  {
    DistanceToSelf(h);
  }
}
