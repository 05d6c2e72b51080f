/** What the storage service knows about domains, and its cache of it. */
module DomainCaching {
  import opened Wrappers

  /** The robots.txt library: a text that parses is its own matcher. */
  datatype Robots = Robots(
    parses: string -> bool,
    allowed: (string, string) -> bool,  // of a robots.txt and a path
    sitemaps: string -> seq<string>)

  datatype DomainRow = DomainRow(id: int, delay: nat, robots: Option<string>)

  datatype CachedData = CachedData(id: int, robot: Option<string>, delay: nat)

  /** `CachedData::new`, which fails on a robots.txt that does not parse. */
  function NewCachedData(lib: Robots, id: int, robots: Option<string>, delay: nat): Result<CachedData> {
    if robots.Some? && !lib.parses(robots.value) then Failure(RobotParseError)
    else Success(CachedData(id, robots, delay))
  }

  function OfRow(lib: Robots, row: DomainRow): Result<CachedData> {
    NewCachedData(lib, row.id, row.robots, row.delay)
  }

  class DomainCache {
    var entries: map<string, CachedData>

    constructor ()
      ensures entries == map[]
    {
      entries := map[];
    }

    method AddDomain(domain: string, cd: CachedData)
      modifies this
      ensures entries == old(entries)[domain := cd]
    {
      entries := entries[domain := cd];
    }

    /** An entry can go at any time: it expires when idle, and space is limited. */
    method Evict(domain: string)
      modifies this
      ensures entries == old(entries) - {domain}
    {
      entries := entries - {domain};
    }

    function GetCachedDomain(domain: string): (cd: Option<CachedData>)
      reads this
      ensures cd.Some? <==> domain in entries
      ensures cd.Some? ==> cd.value == entries[domain]
    {
      if domain in entries then Some(entries[domain]) else None
    }

    function GetDomainId(domain: string): Option<int>
      reads this
    {
      if domain in entries then Some(entries[domain].id) else None
    }

    function GetDomainDelay(domain: string): Option<nat>
      reads this
    {
      if domain in entries then Some(entries[domain].delay) else None
    }

    function GetSitemaps(domain: string, lib: Robots): seq<string>
      reads this
    {
      if domain in entries && entries[domain].robot.Some? then lib.sitemaps(entries[domain].robot.value) else []
    }
  }
}
