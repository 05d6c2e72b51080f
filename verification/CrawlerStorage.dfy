/**
 The storage service's code. What its operations do to the domains, the cache and the pages' domain
 ids is paired, access by access, with actions of `CacheRaces`; between any two accesses, the
 operations under way elsewhere take actions of their own.
 */
module StorageService {
  import opened Wrappers
  import opened Simhash
  import opened Utf8
  import opened CrawlProtocol
  import opened ContentDeduplication
  import opened DomainCaching
  import opened SeenFilter
  import opened Database
  import opened Storage
  import Races = CacheRaces

  /** The domain id of every page's row is that of its own host. */
  ghost predicate PagesNameHosts(domains: Domains, pages: Pages) {
    forall u :: u in pages ==>
      u.domain.Some? && u.domain.value in domains && domains[u.domain.value].id == pages[u].domId
  }

  /** `ids` has the domain id of every page's row. */
  predicate PageIdsAgree(ids: map<Url, int>, pages: Pages) {
    ids.Keys == pages.Keys && forall u :: u in pages ==> ids[u] == pages[u].domId
  }

  lemma OneMoreRow(ids: map<Url, int>, pages: Pages, u: Url, row: PageRow)
    requires PageIdsAgree(ids, pages)
    ensures PageIdsAgree(ids[u := row.domId], pages[u := row])
  {
  }

  /** What the rows give at a start. */
  function VersionsOf(lib: Robots, domains: Domains): map<string, set<CachedData>> {
    map d | d in domains && OfRow(lib, domains[d]).Success? :: {OfRow(lib, domains[d]).value}
  }

  /**
   The actions that others may take meanwhile: those of the consumer only if a reader, `me`, is looking
   something up.
   */
  predicate IsOthers(me: Option<nat>, a: Races.Action) {
    match a
    case StartRead(t, _) => me != Some(t)
    case Fill(t) => me != Some(t)
    case Expire(_) => true
    case Crash => false
    case _ => me.Some?
  }

  /** What was once a version of a domain's row is ever after. */
  ghost predicate VersionsStay(s: Races.Shared, t: Races.Shared) {
    forall d, cd :: Races.IsVersion(s, d, cd) ==> Races.IsVersion(t, d, cd)
  }

  lemma ActionKeepsVersions(lib: Robots, s: Races.Shared, a: Races.Action)
    requires Races.Invariant(lib, s) && Races.Possible(lib, s, a)
    ensures VersionsStay(s, Races.After(lib, s, a))
  {
    hide Races.IsVersion, Races.IsIdOf, GoodIds, OfRow;
    if a.Upsert? {
      Races.UpsertKeepsVersions(lib, s, a.data);
    } else {
      Races.SameRows(s, Races.After(lib, s, a));
    }
  }

  /** What the consumer, or the reader `me`, can rely on while others act. */
  ghost predicate IsUndisturbed(s: Races.Shared, t: Races.Shared, me: Option<nat>) {
    && VersionsStay(s, t)
    && s.domains.Keys <= t.domains.Keys
    && (me.None? ==>
          t.consumer == s.consumer && t.domains == s.domains && t.lastId == s.lastId && t.pageIds == s.pageIds)
    && (me.Some? ==> (me.value in t.readers <==> me.value in s.readers))
    && (me.Some? && me.value in s.readers ==> t.readers[me.value] == s.readers[me.value])
  }

  lemma OthersDoNotDisturb(lib: Robots, s: Races.Shared, a: Races.Action, me: Option<nat>)
    requires Races.Invariant(lib, s) && Races.Possible(lib, s, a) && IsOthers(me, a)
    ensures IsUndisturbed(s, Races.After(lib, s, a), me)
    ensures a.WritePage? ==>
              s.consumer.HasId? && Races.After(lib, s, a).pageIds == s.pageIds[s.consumer.page := s.consumer.id]
    ensures !a.WritePage? ==> Races.After(lib, s, a).pageIds == s.pageIds
  {
    ActionKeepsVersions(lib, s, a);
    hide OfRow, Races.WithVersion, UpsertedDomain, VersionsStay, Races.Invariant;
  }

  lemma WritingEnds(lib: Robots, s: Races.Shared)
    requires s.consumer.HasId?
    ensures Races.Possible(lib, s, Races.WritePage)
    ensures Races.After(lib, s, Races.WritePage) ==
            s.(pageIds := s.pageIds[s.consumer.page := s.consumer.id], consumer := Races.Idle)
  {
  }

  lemma NothingDoesNotDisturb(s: Races.Shared, me: Option<nat>)
    ensures IsUndisturbed(s, s, me)
  {
  }

  class CrawlerStorage {
    const db: CrawlerDB
    const domainCache: DomainCache
    const dedup: ContentDeduplicator
    const seenUrls: SeenUrls
    const lib: Robots
    var savedCounter: nat
    var shared: Races.Shared                // the state of the racing operations that tables and cache stand for
    const others: nat -> seq<Races.Action>  // what the other operations do before each access
    var accesses: nat

    ghost predicate Valid()
      reads this`shared, db, domainCache, dedup
    {
      && db.Valid() && dedup.Valid() && dedup.maxDist == 3
      && Races.Invariant(lib, shared)
      && shared.domains == db.domains && shared.lastId == db.lastId && shared.cache == domainCache.entries
      && PageIdsAgree(shared.pageIds, db.pages)
    }

    /** The actions lead from `s` to where the service is now. */
    ghost predicate Follows(s: Races.Shared, actions: seq<Races.Action>)
      reads this`shared, db, domainCache, dedup
    {
      Valid() && Races.IsRun(lib, s, actions) && Races.Final(lib, s, actions) == shared
    }

    lemma AloneExactly()
      ensures Alone() <==> forall k: nat :: others(k) == []
    {
    }

    /** Nothing else goes on meanwhile. */
    ghost predicate Alone() {
      forall k: nat :: others(k) == []
    }

    constructor (db: CrawlerDB, hashes: seq<u64>, hasher: Hasher, positions: Url -> set<nat>, lib: Robots,
                 others: nat -> seq<Races.Action>)
      requires db.Valid() && PagesNameHosts(db.domains, db.pages)
      ensures Valid() && fresh(domainCache) && fresh(dedup) && shared.consumer.Idle? && shared.readers == map[]
      ensures fresh(seenUrls) && seenUrls.Valid() && seenUrls.inserted == {} && seenUrls.bits == {}
      ensures seenUrls.hashes == positions
      ensures this.db == db && this.lib == lib && dedup.hasher == hasher && this.others == others
      ensures dedup.hashes == hashes && domainCache.entries == map[] && savedCounter == 0
    {
      this.db := db;
      this.domainCache := new DomainCache();
      this.dedup := new ContentDeduplicator.Init(hashes, 3, hasher);
      this.seenUrls := new SeenUrls(positions);
      this.lib, this.others := lib, others;
      this.savedCounter, this.accesses := 0, 0;
      this.shared := Races.Shared(db.domains, db.lastId, map[], map[], Races.Idle,
                                  map u | u in db.pages :: db.pages[u].domId, VersionsOf(lib, db.domains));
    }

    /** The next state of the racing operations. */
    method Pair(a: Races.Action, ghost s: Races.Shared, ghost actions0: seq<Races.Action>)
      returns (ghost actions: seq<Races.Action>)
      requires Races.Possible(lib, shared, a) && Races.Invariant(lib, shared)
      requires Races.IsRun(lib, s, actions0) && Races.Final(lib, s, actions0) == shared
      modifies this`shared
      ensures shared == Races.After(lib, old(shared), a) && Races.Invariant(lib, shared)
              && VersionsStay(old(shared), shared)
      ensures Races.IsRun(lib, s, actions) && Races.Final(lib, s, actions) == shared
    {
      hide Races.IsRun, Races.Final, Races.Possible, Races.After, Races.Invariant, VersionsStay;
      ActionKeepsVersions(lib, shared, a);
      Races.ActionKeepsInvariant(lib, shared, a);
      ghost var after;
      actions, after := Races.Then(lib, s, actions0, shared, a);
      shared := Races.After(lib, shared, a);
    }

    /** Another operation takes an action, if it is possible. */
    method LetOtherAct(me: Option<nat>, a: Races.Action, ghost s: Races.Shared, ghost actions0: seq<Races.Action>)
      returns (ghost actions: seq<Races.Action>)
      requires Follows(s, actions0)
      modifies this`shared, db, domainCache
      ensures Follows(s, actions) && IsUndisturbed(old(shared), shared, me)
      ensures me.None? ==> db.domains == old(db.domains) && db.lastId == old(db.lastId) && db.pages == old(db.pages)
    {
      hide Races.IsRun, Races.Final, Races.Possible, Races.After, Races.Invariant, VersionsStay, PageIdsAgree;
      actions := actions0;
      NothingDoesNotDisturb(shared, me);
      if IsOthers(me, a) && Races.Possible(lib, shared, a) {
        OthersDoNotDisturb(lib, shared, a, me);
        if a.WritePage? {
          var u, id := shared.consumer.page, shared.consumer.id;
          var row := if u in db.pages then db.pages[u].(domId := id) else PageRow(id, None, None, None, None);
          OneMoreRow(shared.pageIds, db.pages, u, row);
          db.pages := db.pages[u := row];
        }
        actions := Pair(a, s, actions);
        db.domains, db.lastId, domainCache.entries := shared.domains, shared.lastId, shared.cache;
        GoodIdsKept();
      }
    }

    lemma GoodIdsKept()
      requires Races.Invariant(lib, shared)
      ensures GoodIds(shared.domains, shared.lastId)
    {
    }

    /** The other operations take their actions: `me` is the reader that waits, or none if it is the consumer. */
    method LetOthersRun(me: Option<nat>, ghost s: Races.Shared, ghost actions0: seq<Races.Action>)
      returns (ghost actions: seq<Races.Action>)
      requires Follows(s, actions0)
      modifies this`shared, this`accesses, db, domainCache
      ensures Follows(s, actions) && IsUndisturbed(old(shared), shared, me)
      ensures me.None? ==> db.domains == old(db.domains) && db.lastId == old(db.lastId) && db.pages == old(db.pages)
      ensures Alone() ==>
                && shared == old(shared) && domainCache.entries == old(domainCache.entries)
                && db.domains == old(db.domains) && db.lastId == old(db.lastId) && db.pages == old(db.pages)
    {
      hide Follows;
      actions := actions0;
      var o := others(accesses);
      accesses := accesses + 1;
      for k := 0 to |o|
        invariant Follows(s, actions) && IsUndisturbed(old(shared), shared, me)
        invariant me.None? ==> db.domains == old(db.domains) && db.lastId == old(db.lastId) && db.pages == old(db.pages)
        invariant k == 0 ==>
                    && shared == old(shared) && domainCache.entries == old(domainCache.entries)
                    && db.domains == old(db.domains) && db.lastId == old(db.lastId) && db.pages == old(db.pages)
        modifies this`shared, db, domainCache
      {
        actions := LetOtherAct(me, o[k], s, actions);
      }
    }

    /**
     Starts on what the database holds, with a filter that knows no URL. The rows, which the database
     lists in the order `rows`, are indexed only if there is a file called like it, as `found` says.
     */
    static method New(db: CrawlerDB, found: bool, rows: seq<Url>, ok: bool, hasher: Hasher, positions: Url -> set<nat>,
                      lib: Robots, others: nat -> seq<Races.Action>)
      returns (r: Result<CrawlerStorage>)
      requires db.Valid() && PagesNameHosts(db.domains, db.pages) && ListsHashes(db.pages, rows)
      ensures r.Failure? <==> found && !ok
      ensures r.Success? ==>
                var storage := r.value;
                && fresh(storage) && fresh(storage.domainCache) && fresh(storage.dedup)
                && storage.Valid() && storage.shared.consumer.Idle? && storage.shared.readers == map[]
                && fresh(storage.seenUrls) && storage.seenUrls.Valid() && storage.seenUrls.hashes == positions
                && storage.seenUrls.inserted == {} && storage.seenUrls.bits == {}
                && storage.db == db && storage.lib == lib && storage.dedup.hasher == hasher && storage.others == others
                && storage.dedup.hashes == (if found then HashesOf(db.pages, rows) else [])
                && storage.domainCache.entries == map[] && storage.savedCounter == 0
                && storage.View() == Contents(Known(map[], db.domains, db.lastId),
                                              Indexed(if found then HashesOf(db.pages, rows) else [], db.pages), 0)
    {
      var hashes := [];
      if found {
        var stored := db.GetSimhashes(rows, ok);
        if stored.Failure? {
          return Failure(stored.error);
        }
        hashes := stored.value;
      }
      var storage := new CrawlerStorage(db, hashes, hasher, positions, lib, others);
      return Success(storage);
    }

    method InsertUrlInSeenUrls(url: Url) returns (wasPresent: bool)
      requires seenUrls.Valid()
      modifies seenUrls
      ensures seenUrls.Valid()
      ensures seenUrls.inserted == old(seenUrls.inserted) + {url}
              && seenUrls.bits == old(seenUrls.bits) + seenUrls.hashes(url)
      ensures wasPresent <==> seenUrls.hashes(url) <= old(seenUrls.bits)
      ensures CanReply(old(seenUrls.inserted), url, if wasPresent then Seen else Fresh)
    {
      wasPresent := seenUrls.InsertUrl(url);
    }

    ghost function View(): Contents
      reads this, db, domainCache, dedup
    {
      Contents(Known(domainCache.entries, db.domains, db.lastId), Indexed(dedup.hashes, db.pages), savedCounter)
    }

    // ----- The consumer -----

    method TakeCachedId(page: Url, domain: string, ghost s: Races.Shared, ghost actions0: seq<Races.Action>)
      returns (id: Option<int>, ghost actions: seq<Races.Action>)
      requires Follows(s, actions0) && shared.consumer.Idle? && page.domain == Some(domain)
      modifies this`shared
      ensures Follows(s, actions)
      ensures id == if domain in domainCache.entries then Some(domainCache.entries[domain].id) else None
      ensures id.None? ==> shared.consumer.Idle?
      ensures id.Some? ==>
                && shared.consumer == Races.HasId(page, id.value)
                && domain in db.domains && id.value == db.domains[domain].id
    {
      hide Races.IsRun, Races.Final, Races.Invariant, VersionsStay;
      actions := actions0;
      id := domainCache.GetDomainId(domain);
      if id.Some? {
        CachedIdIsCurrent(domain);
        actions := Pair(Races.StartPage(page, true), s, actions);
      }
    }

    method ReadRow(page: Url, domain: string, ok: bool, ghost s: Races.Shared, ghost actions0: seq<Races.Action>)
      returns (r: Result<Option<CachedData>>, ghost actions: seq<Races.Action>)
      requires Follows(s, actions0) && shared.consumer.Idle? && page.domain == Some(domain)
      modifies this`shared
      ensures Follows(s, actions)
      ensures r == if ok then Direct(lib, db.domains, domain) else Failure(DbError)
      ensures shared.consumer == if r.Success? && r.value.Some? then Races.Filling(page, r.value.value) else Races.Idle
    {
      hide Races.IsRun, Races.Final, Races.Invariant, VersionsStay;
      actions := actions0;
      r := db.GetCacheInfoAboutDomain(domain, lib, ok);
      if r.Success? && r.value.Some? {
        actions := Pair(Races.StartPage(page, false), s, actions);
      }
    }

    method FillFromRow(page: Url, domain: string, cd: CachedData, ghost s: Races.Shared,
                       ghost actions0: seq<Races.Action>)
      returns (ghost actions: seq<Races.Action>)
      requires Follows(s, actions0) && shared.consumer == Races.Filling(page, cd) && page.domain == Some(domain)
      modifies this`shared, domainCache
      ensures Follows(s, actions)
      ensures shared.consumer == Races.HasId(page, cd.id)
              && domainCache.entries == old(domainCache.entries)[domain := cd]
    {
      hide Races.IsRun, Races.Final, Races.Invariant, VersionsStay;
      domainCache.AddDomain(domain, cd);
      actions := Pair(Races.FillPage, s, actions0);
    }

    /** The id found is that of the domain's row, whatever others do to the cache. */
    method GetDomainId(page: Url, domain: string, ok: bool, ghost s: Races.Shared, ghost actions0: seq<Races.Action>)
      returns (r: Result<Option<int>>, ghost actions: seq<Races.Action>)
      requires Follows(s, actions0) && shared.consumer.Idle? && page.domain == Some(domain)
      modifies this`shared, this`accesses, db, domainCache
      ensures Follows(s, actions)
      ensures db.domains == old(db.domains) && db.lastId == old(db.lastId) && db.pages == old(db.pages)
      ensures match r
              case Success(Some(id)) =>
                domain in db.domains && id == db.domains[domain].id && shared.consumer == Races.HasId(page, id)
              case Success(None) => domain !in db.domains && shared.consumer.Idle?
              case Failure(e) =>
                (if ok then Direct(lib, db.domains, domain) == Failure(e) else e == DbError) && shared.consumer.Idle?
      ensures Alone() ==>
                var found := Lookup(lib, old(domainCache.entries), db.domains, domain, ok);
                && domainCache.entries == Filled(old(domainCache.entries), domain, found)
                && match found
                   case Success(Some(cd)) => r == Success(Some(cd.id))
                   case Success(None) => r == Success(None)
                   case Failure(e) => r == Failure(e)
    {
      hide Follows, Alone, VersionsStay, OfRow;
      var id;
      id, actions := TakeCachedId(page, domain, s, actions0);
      if id.Some? {
        return Success(id), actions;
      }
      actions := LetOthersRun(None, s, actions);
      var temp;
      temp, actions := ReadRow(page, domain, ok, s, actions);
      if temp.Failure? {
        return Failure(temp.error), actions;
      }
      if temp.value.None? {
        return Success(None), actions;
      }
      actions := LetOthersRun(None, s, actions);
      actions := FillFromRow(page, domain, temp.value.value, s, actions);
      HeldIdIsCurrent(page, domain, s, actions);
      return Success(Some(temp.value.value.id)), actions;
    }

    lemma CachedIdIsCurrent(domain: string)
      requires Valid() && domain in domainCache.entries
      ensures domain in db.domains && domainCache.entries[domain].id == db.domains[domain].id
    {
    }

    lemma HeldIdIsCurrent(page: Url, domain: string, s: Races.Shared, actions: seq<Races.Action>)
      requires Follows(s, actions) && shared.consumer.HasId? && shared.consumer.page == page
               && page.domain == Some(domain)
      ensures shared.domains == db.domains && domain in db.domains && shared.consumer.id == db.domains[domain].id
    {
    }

    /** The foreign key holds. */
    lemma HeldIdIsOfARow(s: Races.Shared, actions: seq<Races.Action>)
      requires Follows(s, actions) && shared.consumer.HasId?
      ensures IsDomainId(db.domains, shared.consumer.id)
    {
    }

    /** A near duplicate is not written, and a new text enters the index before it is. */
    method CheckText(text: Option<seq<Scalar>>) returns (isDup: bool, hash: Option<u64>)
      requires dedup.Valid() && dedup.maxDist == 3
      modifies dedup
      ensures dedup.Valid()
      ensures var h := if text.Some? then Some(dedup.hasher.CalculateHash(text.value)) else None;
              && isDup == IsOldHash(old(dedup.hashes), h)
              && (!isDup ==> hash == h)
              && dedup.hashes == old(dedup.hashes) + (if h.Some? && !isDup then [h.value] else [])
              && (h.Some? ==> Near(dedup.hashes, h.value, 3))
    {
      hide Near;
      isDup, hash := false, None;
      if text.Some? {
        isDup := dedup.IsDuplicate(text.value);
        if !isDup {
          var h := dedup.Insert(text.value);
          JustInserted(dedup.hashes, h);
          hash := Some(h);
        }
      }
    }

    method Abandon(ghost s: Races.Shared, ghost actions0: seq<Races.Action>) returns (ghost actions: seq<Races.Action>)
      requires Follows(s, actions0) && shared.consumer.HasId?
      modifies this`shared
      ensures Follows(s, actions) && shared.consumer.Idle?
    {
      hide Races.IsRun, Races.Final, Races.Invariant, VersionsStay;
      actions := Pair(Races.AbandonPage, s, actions0);
    }

    method WriteRow(domId: int, page: PageData, hash: Option<u64>, ok: bool, ghost s: Races.Shared,
                    ghost actions0: seq<Races.Action>)
      returns (r: Result<()>, ghost actions: seq<Races.Action>)
      requires Follows(s, actions0) && shared.consumer == Races.HasId(page.url, domId)
      modifies this`shared, db`pages
      ensures Follows(s, actions) && shared.consumer.Idle? && IsDomainId(db.domains, domId)
      ensures r == if ok then Success(()) else Failure(DbError)
      ensures db.pages == if ok then old(db.pages)[page.url := NewPageRow(domId, page, hash)] else old(db.pages)
    {
      hide Races.IsRun, Races.Final, Races.Invariant, VersionsStay;
      hide IsDomainId, GoodIds, Races.Possible, Races.After, PageIdsAgree;
      WritingEnds(lib, shared);
      OneMoreRow(shared.pageIds, db.pages, page.url, NewPageRow(domId, page, hash));
      HeldIdIsOfARow(s, actions0);
      r := db.SaveParsedPage(domId, page, hash, ok);
      if r.Success? {
        actions := Pair(Races.WritePage, s, actions0);
      } else {
        actions := Abandon(s, actions0);
      }
    }

    method SaveParsedPage(domId: int, page: PageData, ok: bool, ghost s: Races.Shared,
                          ghost actions0: seq<Races.Action>)
      returns (r: Result<()>, ghost actions: seq<Races.Action>)
      requires Follows(s, actions0) && shared.consumer == Races.HasId(page.url, domId)
      modifies this`shared, this`accesses, db, domainCache, dedup
      ensures Follows(s, actions) && shared.consumer.Idle?
      ensures db.domains == old(db.domains) && db.lastId == old(db.lastId)
      ensures IsDomainId(db.domains, domId)
      ensures var hash := HashOfText(dedup.hasher, page);
              Indexed(dedup.hashes, db.pages) ==
              AfterPage(Indexed(old(dedup.hashes), old(db.pages)), domId, page, hash, ok)
      ensures page.cleanText.Some? ==> Near(dedup.hashes, dedup.hasher.CalculateHash(page.cleanText.value), 3)
      ensures r == if ok || IsOldHash(old(dedup.hashes), HashOfText(dedup.hasher, page)) then Success(())
                   else Failure(DbError)
      ensures Alone() ==> domainCache.entries == old(domainCache.entries)
    {
      hide Races.IsRun, Races.Final, Races.Invariant, VersionsStay, Alone, Near, IsDomainId;
      HeldIdIsOfARow(s, actions0);
      var isDup, hash := CheckText(page.cleanText);
      actions := actions0;
      if isDup {
        actions := Abandon(s, actions);
        return Success(()), actions;
      }
      actions := LetOthersRun(None, s, actions);
      r, actions := WriteRow(domId, page, hash, ok, s, actions);
    }

    method UpsertRow(data: DomainData, ok: bool, ghost s: Races.Shared, ghost actions0: seq<Races.Action>)
      returns (r: Result<int>, ghost actions: seq<Races.Action>)
      requires Follows(s, actions0) && shared.consumer.Idle?
      modifies this`shared, db`domains, db`lastId
      ensures Follows(s, actions)
      ensures r == if ok then Success(UpsertedDomain(old(db.domains), old(db.lastId), data).id) else Failure(DbError)
      ensures db.domains == if ok then AfterUpsert(old(db.domains), old(db.lastId), data) else old(db.domains)
      ensures db.lastId == old(db.lastId) + if ok && data.domain !in old(db.domains) then 1 else 0
      ensures shared.consumer ==
                if !ok then Races.Idle
                else match OfRow(lib, UpsertedDomain(old(db.domains), old(db.lastId), data))
                     case Success(cd) => Races.Saving(data.domain, cd)
                     case Failure(_) => Races.Idle
    {
      hide Races.IsRun, Races.Final, Races.Invariant, VersionsStay;
      r := db.SaveDomain(data, ok);
      actions := actions0;
      if ok {
        actions := Pair(Races.Upsert(data), s, actions);
      }
    }

    method CacheSaved(domain: string, cd: CachedData, evicted: bool, ghost s: Races.Shared,
                      ghost actions0: seq<Races.Action>)
      returns (ghost actions: seq<Races.Action>)
      requires Follows(s, actions0) && shared.consumer == Races.Saving(domain, cd)
      modifies this`shared, domainCache
      ensures Follows(s, actions) && shared.consumer.Idle?
      ensures domainCache.entries ==
              if evicted then old(domainCache.entries)[domain := cd] - {domain}
              else old(domainCache.entries)[domain := cd]
    {
      hide Races.IsRun, Races.Final, Races.Invariant, VersionsStay;
      domainCache.AddDomain(domain, cd);
      actions := Pair(Races.AddSaved, s, actions0);
      if evicted {
        domainCache.Evict(domain);
        actions := Pair(Races.Expire(domain), s, actions);
      }
    }

    /** The row is written before the robots.txt is parsed; the answer is what the cache then says of sitemaps. */
    method SaveDomain(data: DomainData, a: Answers, ghost s: Races.Shared, ghost actions0: seq<Races.Action>)
      returns (r: Result<seq<string>>, ghost actions: seq<Races.Action>)
      requires Follows(s, actions0) && shared.consumer.Idle?
      modifies this`shared, this`accesses, db, domainCache
      ensures Follows(s, actions) && shared.consumer.Idle?
      ensures db.pages == old(db.pages)
      ensures db.domains == if a.writeOk then AfterUpsert(old(db.domains), old(db.lastId), data) else old(db.domains)
      ensures r == Failure(DbError) <==> !a.writeOk
      ensures r == Failure(RobotParseError) <==> a.writeOk && data.robots.Some? && !lib.parses(data.robots.value)
      ensures r.Success? && r.value != [] ==> ComesFromVersion(data.domain, r.value)
      ensures Alone() ==> (View(), r) == AfterDomainEvent(lib, old(View()), data, a)
      ensures Alone() && a.writeOk && (data.robots.Some? ==> lib.parses(data.robots.value)) ==>
                r == Success(if data.robots.Some? && !a.evicted then lib.sitemaps(data.robots.value) else [])
      ensures a.writeOk ==>
                && data.domain in db.domains && db.domains == old(db.domains)[data.domain := db.domains[data.domain]]
                && db.domains[data.domain].delay == data.delay && db.domains[data.domain].robots == data.robots
    {
      hide Follows, VersionsStay, Alone;
      actions := LetOthersRun(None, s, actions0);
      var id;
      id, actions := UpsertRow(data, a.writeOk, s, actions);
      if id.Failure? {
        return Failure(id.error), actions;
      }
      var cd := NewCachedData(lib, id.value, data.robots, data.delay);
      if cd.Failure? {
        return Failure(cd.error), actions;
      }
      actions := LetOthersRun(None, s, actions);
      actions := CacheSaved(data.domain, cd.value, a.evicted, s, actions);
      actions := LetOthersRun(None, s, actions);
      CachedIsVersion(data.domain, s, actions);
      return Success(domainCache.GetSitemaps(data.domain, lib)), actions;
    }

    /** The sitemaps are those of a robots.txt that the domain's row has had. */
    ghost predicate ComesFromVersion(domain: string, sitemaps: seq<string>)
      reads this`shared
    {
      exists cd :: Races.IsVersion(shared, domain, cd) && cd.robot.Some? && sitemaps == lib.sitemaps(cd.robot.value)
    }

    lemma CachedIsVersion(domain: string, s: Races.Shared, actions: seq<Races.Action>)
      requires Follows(s, actions)
      ensures domain in domainCache.entries ==> Races.IsVersion(shared, domain, domainCache.entries[domain])
    {
    }

    /** One event of the stream. */
    method SaveParsedData(event: ParsedData, a: Answers)
      returns (r: Result<seq<string>>, ghost actions: seq<Races.Action>)
      requires Valid() && shared.consumer.Idle?
      modifies this`savedCounter, this`shared, this`accesses, db, domainCache, dedup
      ensures Follows(old(shared), actions) && shared.consumer.Idle?
      ensures old(dedup.hashes) <= dedup.hashes && (r.Success? ==> IsIndexed(dedup.hasher, dedup.hashes, event))
      ensures r.Success? && event.ParsedPage? && event.page.cleanText.Some? ==>
                exists h :: h in dedup.hashes
                            && HammingDistance(h, dedup.hasher.CalculateHash(event.page.cleanText.value)) <= 3
      ensures savedCounter == old(savedCounter) + if event.ParsedPage? && r.Success? then 1 else 0
      ensures event.ParsedPage? && r.Success? ==>
                var host := event.page.url.domain;
                && r.value == [] && host.Some? && host.value in db.domains
                && WrittenUnder(old(Indexed(dedup.hashes, db.pages)), db.domains[host.value].id, event.page)
      ensures event.ParsedDomain? ==> Indexed(dedup.hashes, db.pages) == old(Indexed(dedup.hashes, db.pages))
      ensures event.ParsedDomain? && r.Success? ==>
                && db.domains == AfterUpsert(old(db.domains), old(db.lastId), event.data)
                && (r.value != [] ==> ComesFromVersion(event.data.domain, r.value))
      ensures Alone() ==> (View(), r) == AfterEvent(lib, dedup.hasher, old(View()), event, a)
    {
      hide Races.IsRun, Races.Final, Races.Invariant, VersionsStay, Alone, HammingDistance;
      ghost var s := shared;
      actions := [];
      Races.NoActions(lib, s);
      match event {
        case ParsedPage(page) => r, actions := SavePage(page, a, s, actions);
        case ParsedDomain(data) => r, actions := SaveDomain(data, a, s, actions);
      }
    }

    /** The page went through the near-duplicate check, and was then written, from the state `before`. */
    ghost predicate WrittenUnder(before: Indexed, domId: int, page: PageData)
      reads dedup, db
    {
      Indexed(dedup.hashes, db.pages) == AfterPage(before, domId, page, HashOfText(dedup.hasher, page), true)
    }

    method SavePage(page: PageData, a: Answers, ghost s: Races.Shared, ghost actions0: seq<Races.Action>)
      returns (r: Result<seq<string>>, ghost actions: seq<Races.Action>)
      requires Follows(s, actions0) && shared.consumer.Idle?
      modifies this`savedCounter, this`shared, this`accesses, db, domainCache, dedup
      ensures Follows(s, actions) && shared.consumer.Idle?
      ensures old(dedup.hashes) <= dedup.hashes
              && (r.Success? ==> IsIndexed(dedup.hasher, dedup.hashes, ParsedPage(page)))
      ensures savedCounter == old(savedCounter) + if r.Success? then 1 else 0
      ensures r.Success? ==>
                && r.value == [] && page.url.domain.Some? && page.url.domain.value in db.domains
                && WrittenUnder(old(Indexed(dedup.hashes, db.pages)), db.domains[page.url.domain.value].id, page)
      ensures Alone() ==> (View(), r) == AfterPageEvent(lib, dedup.hasher, old(View()), page, a)
    {
      hide Follows, VersionsStay, Alone, Near, IsDomainId;
      actions := actions0;
      if page.url.domain.None? {
        return Failure(UrlDoesntContainDomain), actions;
      }
      var id;
      id, actions := GetDomainId(page.url, page.url.domain.value, a.readOk, s, actions);
      if id.Failure? {
        return Failure(id.error), actions;
      }
      if id.value.None? {
        return Failure(UrlDoesntContainDomain), actions;
      }
      actions := LetOthersRun(None, s, actions);
      var saved;
      saved, actions := SaveParsedPage(id.value.value, page, a.writeOk, s, actions);
      if saved.Failure? {
        return Failure(saved.error), actions;
      }
      savedCounter := savedCounter + 1;
      return Success([]), actions;
    }

    // ----- Readers -----

    method StartLookup(t: nat, domain: string, ok: bool, ghost s: Races.Shared, ghost actions0: seq<Races.Action>)
      returns (r: Result<Option<CachedData>>, ghost actions: seq<Races.Action>)
      requires Follows(s, actions0) && t !in shared.readers
      modifies this`shared
      ensures Follows(s, actions)
      ensures r == if ok then Direct(lib, db.domains, domain) else Failure(DbError)
      ensures if r.Success? && r.value.Some?
              then t in shared.readers && shared.readers[t] == Races.Read(domain, r.value.value)
              else t !in shared.readers
    {
      hide Races.IsRun, Races.Final, Races.Invariant, VersionsStay;
      actions := actions0;
      r := db.GetCacheInfoAboutDomain(domain, lib, ok);
      if r.Success? && r.value.Some? {
        actions := Pair(Races.StartRead(t, domain), s, actions);
      }
    }

    method EndLookup(t: nat, domain: string, cd: CachedData, ghost s: Races.Shared, ghost actions0: seq<Races.Action>)
      returns (ghost actions: seq<Races.Action>)
      requires Follows(s, actions0) && t in shared.readers && shared.readers[t] == Races.Read(domain, cd)
      modifies this`shared, domainCache
      ensures Follows(s, actions) && t !in shared.readers
      ensures Races.IsVersion(shared, domain, cd) && domainCache.entries == old(domainCache.entries)[domain := cd]
    {
      hide Races.IsRun, Races.Final, Races.Invariant, VersionsStay;
      domainCache.AddDomain(domain, cd);
      actions := Pair(Races.Fill(t), s, actions0);
      CachedIsVersion(domain, s, actions);
    }

    lemma TablesAgree(s: Races.Shared, actions: seq<Races.Action>)
      requires Follows(s, actions)
      ensures shared.domains == db.domains
    {
    }

    /** What reader `t` does after a miss: the row that it reads may be an old one by the time it is cached. */
    method ReadThrough(t: nat, domain: string, ok: bool, ghost s: Races.Shared, ghost actions0: seq<Races.Action>)
      returns (r: Result<Option<CachedData>>, ghost actions: seq<Races.Action>)
      requires Follows(s, actions0) && t !in shared.readers
      modifies this`shared, this`accesses, db, domainCache
      ensures Follows(s, actions) && t !in shared.readers
      ensures !ok ==> r == Failure(DbError)
      ensures r.Success? && r.value.Some? ==> Races.IsVersion(shared, domain, r.value.value)
      ensures r == Success(None) ==> domain !in old(shared.domains)
      ensures Alone() ==>
                && r == (if ok then Direct(lib, db.domains, domain) else Failure(DbError))
                && domainCache.entries == Filled(old(domainCache.entries), domain, r)
                && db.domains == old(db.domains) && db.lastId == old(db.lastId) && db.pages == old(db.pages)
    {
      hide Follows, VersionsStay, Alone, OfRow;
      actions := LetOthersRun(Some(t), s, actions0);
      TablesAgree(s, actions);
      r, actions := StartLookup(t, domain, ok, s, actions);
      if r.Success? && r.value.Some? {
        actions := LetOthersRun(Some(t), s, actions);
        actions := EndLookup(t, domain, r.value.value, s, actions);
      }
    }

    /**
     The access is the one that some version of the domain's row gives, and that of an unknown domain if it had
     no row; without races, that of the current row.
     */
    method CheckIfUrlAllowed(t: nat, domain: Option<string>, path: string, ok: bool)
      returns (r: Result<UrlAccess>, ghost actions: seq<Races.Action>)
      requires Valid() && t !in shared.readers
      modifies this`shared, this`accesses, db, domainCache
      ensures Follows(old(shared), actions) && t !in shared.readers
      ensures domain.None? <==> r == Success(UrlWithoutHost)
      ensures domain.Some? && r.Success? && !r.value.UnknownDomain? ==>
                exists cd :: Races.IsVersion(shared, domain.value, cd) && r.value == Access(lib, Some(cd), path)
      ensures domain.Some? && r == Success(Allowed) ==>
                exists cd :: Races.IsVersion(shared, domain.value, cd)
                             && (cd.robot.None? || lib.allowed(cd.robot.value, path))
      ensures domain.Some? && r == Success(Disallowed) ==>
                exists cd :: Races.IsVersion(shared, domain.value, cd)
                             && cd.robot.Some? && !lib.allowed(cd.robot.value, path)
      ensures domain.Some? && r == Success(UnknownDomain) ==> domain.value !in old(shared.domains)
      ensures Alone() && domain.Some? ==>
                var found := Lookup(lib, old(domainCache.entries), db.domains, domain.value, ok);
                && domainCache.entries == Filled(old(domainCache.entries), domain.value, found)
                && db.domains == old(db.domains)
                && match found
                   case Success(cd) => r == Success(Access(lib, cd, path))
                   case Failure(e) => r == Failure(e)
      ensures Alone() && domain.Some? ==>
                var d, cache := domain.value, old(domainCache.entries);
                if d in cache then
                  r == Success(if cache[d].robot.Some? && !lib.allowed(cache[d].robot.value, path) then Disallowed
                               else Allowed)
                else if !ok then r == Failure(DbError)
                else if d !in db.domains then r == Success(UnknownDomain)
                else
                  var robots := db.domains[d].robots;
                  r == if robots.None? then Success(Allowed)
                       else if !lib.parses(robots.value) then Failure(RobotParseError)
                       else Success(if lib.allowed(robots.value, path) then Allowed else Disallowed)
    {
      hide Races.IsRun, Races.Final, Races.Invariant, VersionsStay, Alone, Races.IsVersion;
      Races.NoActions(lib, shared);
      actions := [];
      if domain.None? {
        return Success(UrlWithoutHost), actions;
      }
      var cachedData := domainCache.GetCachedDomain(domain.value);
      CachedIsVersion(domain.value, shared, actions);
      if cachedData.None? {
        var dbData;
        dbData, actions := ReadThrough(t, domain.value, ok, old(shared), actions);
        if dbData.Failure? {
          return Failure(dbData.error), actions;
        }
        if dbData.value.None? {
          return Success(UnknownDomain), actions;
        }
        cachedData := dbData.value;
      }
      assert Races.IsVersion(shared, domain.value, cachedData.value);
      var robot := cachedData.value.robot;
      if robot.None? {
        return Success(Allowed), actions;
      }
      return Success(if lib.allowed(robot.value, path) then Allowed else Disallowed), actions;
    }

    /** One second is the delay of an unknown domain. */
    method GetDelay(t: nat, domain: string, second: nat, ok: bool)
      returns (r: Result<nat>, ghost actions: seq<Races.Action>)
      requires Valid() && t !in shared.readers
      modifies this`shared, this`accesses, db, domainCache
      ensures Follows(old(shared), actions) && t !in shared.readers
      ensures r.Success? ==>
                || (r.value == second && domain !in old(shared.domains))
                || exists cd :: Races.IsVersion(shared, domain, cd) && r.value == cd.delay
      ensures Alone() ==>
                var found := Lookup(lib, old(domainCache.entries), db.domains, domain, ok);
                && domainCache.entries == Filled(old(domainCache.entries), domain, found)
                && db.domains == old(db.domains)
                && match found
                   case Success(Some(cd)) => r == Success(cd.delay)
                   case Success(None) => r == Success(second)
                   case Failure(e) => r == Failure(e)
      ensures Alone() ==>
                var cache := old(domainCache.entries);
                if domain in cache then r == Success(cache[domain].delay)
                else if !ok then r == Failure(DbError)
                else if domain !in db.domains then r == Success(second)
                else
                  var row := db.domains[domain];
                  r == if row.robots.Some? && !lib.parses(row.robots.value) then Failure(RobotParseError)
                       else Success(row.delay)
    {
      hide Races.IsRun, Races.Final, Races.Invariant, VersionsStay, Alone, Races.IsVersion;
      Races.NoActions(lib, shared);
      actions := [];
      var delay := domainCache.GetDomainDelay(domain);
      CachedIsVersion(domain, shared, actions);
      if delay.Some? {
        assert Races.IsVersion(shared, domain, domainCache.entries[domain]);
        return Success(delay.value), actions;
      }
      var cd;
      cd, actions := ReadThrough(t, domain, ok, old(shared), actions);
      if cd.Failure? {
        return Failure(cd.error), actions;
      }
      if cd.value.None? {
        return Success(second), actions;
      }
      return Success(cd.value.value.delay), actions;
    }
  }
}
