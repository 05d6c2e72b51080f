/** The two tables of the storage service's database, with the statements that read and write them. */
module Database {
  import opened Wrappers
  import opened Simhash
  import opened Utf8
  import opened CrawlProtocol
  import opened DomainCaching

  datatype DomainData = DomainData(domain: string, robots: Option<string>, delay: nat)

  datatype PageData = PageData(
    url: Url, title: Option<string>, description: Option<string>, cleanText: Option<seq<Scalar>>)

  datatype PageRow = PageRow(
    domId: int, title: Option<string>, description: Option<string>, cleanText: Option<seq<Scalar>>, hash: Option<i64>)

  type Domains = map<string, DomainRow>

  type Pages = map<Url, PageRow>

  /** `dom_id` is an AUTOINCREMENT key: ids are not used twice. */
  predicate GoodIds(domains: Domains, lastId: int) {
    && (forall d :: d in domains ==> domains[d].id <= lastId)
    && (forall d, e :: d in domains && e in domains && domains[d].id == domains[e].id ==> d == e)
  }

  /** The row that an upsert leaves: it keeps the id of a known domain. */
  function UpsertedDomain(domains: Domains, lastId: int, data: DomainData): DomainRow {
    DomainRow(if data.domain in domains then domains[data.domain].id else lastId + 1, data.delay, data.robots)
  }

  function NewPageRow(domId: int, page: PageData, hash: Option<u64>): PageRow {
    PageRow(domId, page.title, page.description, page.cleanText, if hash.Some? then Some(ToI64(hash.value)) else None)
  }

  /** `dom_id` is a foreign key. */
  predicate IsDomainId(domains: Domains, id: int) {
    exists d :: d in domains && domains[d].id == id
  }

  /** `rows` lists the rows that hold a fingerprint, each once. */
  ghost predicate ListsHashes(pages: Pages, rows: seq<Url>) {
    && NoRepeats(rows)
    && forall u :: u in rows <==> u in pages && pages[u].hash.Some?
  }

  function HashesOf(pages: Pages, rows: seq<Url>): (hashes: seq<u64>)
    requires forall u :: u in rows ==> u in pages && pages[u].hash.Some?
    ensures |hashes| == |rows|
    ensures forall i :: 0 <= i < |rows| ==> hashes[i] == ToU64(pages[rows[i]].hash.value)
  {
    if rows == [] then [] else [ToU64(pages[rows[0]].hash.value)] + HashesOf(pages, rows[1..])
  }

  /** `ok` says whether the database answers one of the attempts made; otherwise nothing has changed. */
  class CrawlerDB {
    var domains: Domains
    var pages: Pages
    var lastId: int

    ghost predicate Valid()
      reads this
    {
      GoodIds(domains, lastId)
    }

    constructor ()
      ensures Valid() && domains == map[] && pages == map[]
    {
      domains, pages, lastId := map[], map[], 0;
    }

    method SaveParsedPage(domId: int, page: PageData, hash: Option<u64>, ok: bool) returns (r: Result<()>)
      modifies this`pages
      ensures r == if ok && IsDomainId(domains, domId) then Success(()) else Failure(DbError)
      ensures r.Success? <==> ok && exists d :: d in domains && domains[d].id == domId
      ensures pages == if r.Success? then old(pages)[page.url := NewPageRow(domId, page, hash)] else old(pages)
      ensures r.Success? ==>
                && page.url in pages && pages == old(pages)[page.url := pages[page.url]]
                && pages[page.url].domId == domId
                && pages[page.url].title == page.title && pages[page.url].description == page.description
                && pages[page.url].cleanText == page.cleanText
                && (pages[page.url].hash.Some? <==> hash.Some?)
                && (hash.Some? ==> ToU64(pages[page.url].hash.value) == hash.value)
    {
      if !ok || !(exists d | d in domains.Keys :: domains[d].id == domId) {
        return Failure(DbError);
      }
      if hash.Some? {
        I64RoundTrip(hash.value);
      }
      var hashI64 := if hash.Some? then Some(ToI64(hash.value)) else None;
      pages := pages[page.url := PageRow(domId, page.title, page.description, page.cleanText, hashI64)];
      return Success(());
    }

    method SaveDomain(data: DomainData, ok: bool) returns (r: Result<int>)
      requires Valid()
      modifies this`domains, this`lastId
      ensures Valid()
      ensures !ok ==> r == Failure(DbError) && domains == old(domains) && lastId == old(lastId)
      ensures ok ==> domains == old(domains)[data.domain := UpsertedDomain(old(domains), old(lastId), data)]
                     && r == Success(domains[data.domain].id)
                     && lastId == old(lastId) + if data.domain in old(domains) then 0 else 1
      ensures ok ==>
                && data.domain in domains && domains == old(domains)[data.domain := domains[data.domain]]
                && domains[data.domain].delay == data.delay && domains[data.domain].robots == data.robots
                && if data.domain in old(domains) then domains[data.domain].id == old(domains)[data.domain].id
                   else forall d :: d in old(domains) ==> old(domains)[d].id < domains[data.domain].id
    {
      if !ok {
        return Failure(DbError);
      }
      var id;
      if data.domain in domains {
        id := domains[data.domain].id;
      } else {
        id := lastId + 1;
        lastId := id;
      }
      domains := domains[data.domain := DomainRow(id, data.delay, data.robots)];
      return Success(id);
    }

    method GetCacheInfoAboutDomain(domain: string, lib: Robots, ok: bool) returns (r: Result<Option<CachedData>>)
      ensures !ok ==> r == Failure(DbError)
      ensures ok && domain !in domains ==> r == Success(None)
      ensures ok && domain in domains ==>
                match OfRow(lib, domains[domain])
                case Success(cd) => r == Success(Some(cd))
                case Failure(e) => r == Failure(e)
      ensures ok && domain in domains ==>
                var row := domains[domain];
                r == if row.robots.Some? && !lib.parses(row.robots.value) then Failure(RobotParseError)
                     else Success(Some(CachedData(row.id, row.robots, row.delay)))
    {
      if !ok {
        return Failure(DbError);
      }
      if domain !in domains {
        return Success(None);
      }
      var row := domains[domain];
      var cd := NewCachedData(lib, row.id, row.robots, row.delay);
      if cd.Failure? {
        return Failure(cd.error);
      }
      return Success(Some(cd.value));
    }

    /** The stored fingerprints, in the order `rows` in which the database lists its rows. */
    method GetSimhashes(rows: seq<Url>, ok: bool) returns (r: Result<seq<u64>>)
      requires ListsHashes(pages, rows)
      ensures r == if ok then Success(HashesOf(pages, rows)) else Failure(DbError)
    {
      hide HashesOf, ToU64;
      if !ok {
        return Failure(DbError);
      }
      var hashes := [];
      for i := 0 to |rows|
        invariant hashes == HashesOf(pages, rows)[..i]
      {
        hashes := hashes + [ToU64(pages[rows[i]].hash.value)];
      }
      assert HashesOf(pages, rows)[..|rows|] == HashesOf(pages, rows);
      return Success(hashes);
    }
  }
}
