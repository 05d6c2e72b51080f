/**
 The domain cache when operations overlap. Any number of readers fill it with rows
 they read earlier, while the one consumer of the event stream saves domains and pages;
 entries are evicted at any time, and the process may restart.
 */
module CacheRaces {
  import opened Wrappers
  import opened CrawlProtocol
  import opened DomainCaching
  import opened Database
  import opened Storage

  /** Where the consumer is in the event it processes. */
  datatype Consumer =
    | Idle
    | Saving(domain: string, cd: CachedData)  // row written, entry not yet added
    | Filling(page: Url, cd: CachedData)      // row read for a page, entry not yet added
    | HasId(page: Url, id: int)               // about to write the page's row

  /** A row read by a reader, not yet added to the cache. */
  datatype Read = Read(domain: string, cd: CachedData)

  datatype Shared = Shared(
    domains: Domains,
    lastId: int,
    cache: Cache,
    readers: map<nat, Read>,
    consumer: Consumer,
    pageIds: map<Url, int>,                   // the `dom_id` column of the pages table
    versions: map<string, set<CachedData>>)   // history: what each domain's row has given, at any time

  datatype Action =
    | StartRead(reader: nat, domain: string)
    | Fill(reader: nat)
    | Expire(domain: string)
    | Upsert(data: DomainData)
    | AddSaved
    | StartPage(page: Url, hit: bool)
    | FillPage
    | WritePage
    | AbandonPage
    | Crash

  /**
   After a miss, the row may be read when another operation has already filled the cache: so it may be read at
   any time.
   */
  predicate Readable(lib: Robots, s: Shared, domain: string) {
    domain in s.domains && OfRow(lib, s.domains[domain]).Success?
  }

  predicate Possible(lib: Robots, s: Shared, a: Action) {
    match a
    case StartRead(t, d) => t !in s.readers && Readable(lib, s, d)
    case Fill(t) => t in s.readers
    case Expire(_) => true
    case Upsert(_) => s.consumer.Idle?
    case AddSaved => s.consumer.Saving?
    case StartPage(page, hit) =>
      && s.consumer.Idle? && page.domain.Some?
      && if hit then page.domain.value in s.cache else Readable(lib, s, page.domain.value)
    case FillPage => s.consumer.Filling? && s.consumer.page.domain.Some?
    case WritePage => s.consumer.HasId?
    case AbandonPage => s.consumer.HasId?
    case Crash => true
  }

  function WithVersion(versions: map<string, set<CachedData>>, d: string, cd: Result<CachedData>)
    : map<string, set<CachedData>>
  {
    if cd.Failure? then versions
    else versions[d := (if d in versions then versions[d] else {}) + {cd.value}]
  }

  function After(lib: Robots, s: Shared, a: Action): Shared
    requires Possible(lib, s, a)
  {
    match a
    case StartRead(t, d) => s.(readers := s.readers[t := Read(d, OfRow(lib, s.domains[d]).value)])
    case Fill(t) => s.(cache := s.cache[s.readers[t].domain := s.readers[t].cd], readers := s.readers - {t})
    case Expire(d) => s.(cache := s.cache - {d})
    case Upsert(data) =>
      var row := UpsertedDomain(s.domains, s.lastId, data);
      var cd := OfRow(lib, row);
      s.(domains := s.domains[data.domain := row],
         lastId := if data.domain in s.domains then s.lastId else s.lastId + 1,
         versions := WithVersion(s.versions, data.domain, cd),
         consumer := if cd.Success? then Saving(data.domain, cd.value) else Idle)
    case AddSaved => s.(cache := s.cache[s.consumer.domain := s.consumer.cd], consumer := Idle)
    case StartPage(page, hit) =>
      var d := page.domain.value;
      s.(consumer := if hit then HasId(page, s.cache[d].id) else Filling(page, OfRow(lib, s.domains[d]).value))
    case FillPage =>
      s.(cache := s.cache[s.consumer.page.domain.value := s.consumer.cd],
         consumer := HasId(s.consumer.page, s.consumer.cd.id))
    case WritePage => s.(pageIds := s.pageIds[s.consumer.page := s.consumer.id], consumer := Idle)
    case AbandonPage => s.(consumer := Idle)
    case Crash => s.(cache := map[], readers := map[], consumer := Idle)
  }

  ghost predicate IsRun(lib: Robots, s: Shared, actions: seq<Action>)
    decreases |actions|, 0
  {
    actions == [] ||
    var n := |actions| - 1;
    IsRun(lib, s, actions[..n]) && Possible(lib, Final(lib, s, actions[..n]), actions[n])
  }

  ghost function Final(lib: Robots, s: Shared, actions: seq<Action>): Shared
    requires IsRun(lib, s, actions)
    decreases |actions|, 1
  {
    if actions == [] then s
    else
      var n := |actions| - 1;
      After(lib, Final(lib, s, actions[..n]), actions[n])
  }

  lemma NoActions(lib: Robots, s: Shared)
    ensures IsRun(lib, s, []) && Final(lib, s, []) == s
  {
  }

  // ----- What every action keeps -----

  /** `cd` was given by the row of `d` at some time, and has the row's id. */
  ghost predicate IsVersion(s: Shared, d: string, cd: CachedData) {
    d in s.versions && cd in s.versions[d] && d in s.domains && cd.id == s.domains[d].id
  }

  predicate IsIdOf(s: Shared, page: Url, id: int) {
    page.domain.Some? && page.domain.value in s.domains && s.domains[page.domain.value].id == id
  }

  ghost predicate ConsumerInvariant(s: Shared) {
    match s.consumer
    case Idle => true
    case Saving(d, cd) => IsVersion(s, d, cd)
    case Filling(page, cd) => page.domain.Some? && IsVersion(s, page.domain.value, cd)
    case HasId(page, id) => IsIdOf(s, page, id)
  }

  ghost predicate Invariant(lib: Robots, s: Shared) {
    && GoodIds(s.domains, s.lastId)
    && (forall d :: d in s.domains && OfRow(lib, s.domains[d]).Success? ==>
           IsVersion(s, d, OfRow(lib, s.domains[d]).value))
    && (forall d :: d in s.cache ==> IsVersion(s, d, s.cache[d]))
    && (forall t :: t in s.readers ==> IsVersion(s, s.readers[t].domain, s.readers[t].cd))
    && (forall page :: page in s.pageIds ==> IsIdOf(s, page, s.pageIds[page]))
    && ConsumerInvariant(s)
  }

  /** An upsert changes no domain's id, so what was a version stays one. */
  lemma UpsertKeepsVersions(lib: Robots, s: Shared, data: DomainData)
    requires s.consumer.Idle? && GoodIds(s.domains, s.lastId)
    ensures var t := After(lib, s, Upsert(data));
            && GoodIds(t.domains, t.lastId)
            && (forall d, cd :: IsVersion(s, d, cd) ==> IsVersion(t, d, cd))
            && (forall page, id :: IsIdOf(s, page, id) ==> IsIdOf(t, page, id))
  {
  }

  lemma UpsertedIsVersion(lib: Robots, s: Shared, data: DomainData)
    requires s.consumer.Idle?
    ensures var t := After(lib, s, Upsert(data));
            var cd := OfRow(lib, t.domains[data.domain]);
            cd.Success? ==> IsVersion(t, data.domain, cd.value)
  {
  }

  lemma UpsertKeepsInvariant(lib: Robots, s: Shared, data: DomainData)
    requires Invariant(lib, s) && s.consumer.Idle?
    ensures Invariant(lib, After(lib, s, Upsert(data)))
  {
    hide IsVersion, IsIdOf, GoodIds, OfRow, WithVersion;
    UpsertKeepsVersions(lib, s, data);
    UpsertedIsVersion(lib, s, data);
  }

  lemma SameRows(s: Shared, t: Shared)
    requires s.domains == t.domains && s.versions == t.versions
    ensures forall d, cd :: IsVersion(s, d, cd) <==> IsVersion(t, d, cd)
    ensures forall page, id :: IsIdOf(s, page, id) <==> IsIdOf(t, page, id)
  {
  }

  lemma VersionHasId(s: Shared, page: Url, cd: CachedData)
    requires page.domain.Some? && IsVersion(s, page.domain.value, cd)
    ensures IsIdOf(s, page, cd.id)
  {
  }

  lemma ReaderActionKeepsInvariant(lib: Robots, s: Shared, a: Action)
    requires Invariant(lib, s) && Possible(lib, s, a) && (a.StartRead? || a.Fill? || a.Expire? || a.Crash?)
    ensures Invariant(lib, After(lib, s, a))
  {
    hide GoodIds, OfRow, WithVersion, UpsertedDomain, IsVersion, IsIdOf;
    SameRows(s, After(lib, s, a));
  }

  lemma ConsumerActionKeepsInvariant(lib: Robots, s: Shared, a: Action)
    requires Invariant(lib, s) && Possible(lib, s, a)
    requires a.AddSaved? || a.StartPage? || a.FillPage? || a.WritePage? || a.AbandonPage?
    ensures Invariant(lib, After(lib, s, a))
  {
    hide GoodIds, OfRow, WithVersion, UpsertedDomain, IsVersion, IsIdOf;
    SameRows(s, After(lib, s, a));
    if a.FillPage? {
      VersionHasId(s, s.consumer.page, s.consumer.cd);
    } else if a.StartPage? && a.hit {
      VersionHasId(s, a.page, s.cache[a.page.domain.value]);
    }
  }

  lemma ActionKeepsInvariant(lib: Robots, s: Shared, a: Action)
    requires Invariant(lib, s) && Possible(lib, s, a)
    ensures Invariant(lib, After(lib, s, a))
  {
    hide Invariant, After;
    if a.Upsert? {
      UpsertKeepsInvariant(lib, s, a.data);
    } else if a.StartRead? || a.Fill? || a.Expire? || a.Crash? {
      ReaderActionKeepsInvariant(lib, s, a);
    } else {
      ConsumerActionKeepsInvariant(lib, s, a);
    }
  }

  function Empty(): Shared {
    Shared(map[], 0, map[], map[], Idle, map[], map[])
  }

  lemma {:induction false} RunKeepsInvariant(lib: Robots, actions: seq<Action>)
    requires IsRun(lib, Empty(), actions)
    ensures Invariant(lib, Final(lib, Empty(), actions))
  {
    hide Invariant, Possible, After;
    if actions == [] {
      EmptyIsGood(lib);
    } else {
      var n := |actions| - 1;
      RunKeepsInvariant(lib, actions[..n]);
      ActionKeepsInvariant(lib, Final(lib, Empty(), actions[..n]), actions[n]);
    }
  }

  lemma EmptyIsGood(lib: Robots)
    ensures Invariant(lib, Empty())
  {
  }

  /**
   Domain ids never go stale: under any interleaving, a cached id is that of the domain's row, and no
   other row has it; so every page's `dom_id` names the row of its own host.
   */
  lemma DomainIdsNeverGoStale(lib: Robots, actions: seq<Action>)
    requires IsRun(lib, Empty(), actions)
    ensures var s := Final(lib, Empty(), actions);
            && (forall d :: d in s.cache ==> d in s.domains && s.cache[d].id == s.domains[d].id)
            && (forall page, d :: page in s.pageIds && d in s.domains ==>
                                    (s.domains[d].id == s.pageIds[page] <==> page.domain == Some(d)))
  {
    RunKeepsInvariant(lib, actions);
  }

  /** ... and every cached entry equals what the domain's row gave at some time. */
  lemma CachedIsSomeVersion(lib: Robots, actions: seq<Action>, d: string)
    requires IsRun(lib, Empty(), actions)
    ensures var s := Final(lib, Empty(), actions);
            d in s.cache ==> d in s.versions && s.cache[d] in s.versions[d]
  {
    RunKeepsInvariant(lib, actions);
  }

  /** The foreign key never fails: the id that the consumer writes is that of some row. */
  lemma ForeignKeyHolds(lib: Robots, actions: seq<Action>)
    requires IsRun(lib, Empty(), actions)
    ensures var s := Final(lib, Empty(), actions);
            s.consumer.HasId? ==> IsDomainId(s.domains, s.consumer.id)
  {
    RunKeepsInvariant(lib, actions);
  }

  // ----- When overlapping lookups are transparent -----

  /** `cd` is what the domain's row gives now. */
  ghost predicate IsCurrent(lib: Robots, s: Shared, d: string, cd: CachedData) {
    d in s.domains && OfRow(lib, s.domains[d]) == Success(cd)
  }

  /** What is cached or about to be is current; only the entry of the domain just saved may wait to be replaced. */
  ghost predicate UpToDate(lib: Robots, s: Shared) {
    && (forall d :: d in s.cache && !(s.consumer.Saving? && s.consumer.domain == d) ==>
           IsCurrent(lib, s, d, s.cache[d]))
    && (forall t :: t in s.readers ==> IsCurrent(lib, s, s.readers[t].domain, s.readers[t].cd))
    && (s.consumer.Saving? ==> IsCurrent(lib, s, s.consumer.domain, s.consumer.cd))
    && (s.consumer.Filling? ==>
          s.consumer.page.domain.Some? && IsCurrent(lib, s, s.consumer.page.domain.value, s.consumer.cd))
  }

  /**
   A domain is saved while no reader holds a different version of its row, and with a robots.txt that
   parses unless it is not cached.
   */
  ghost predicate IsSafe(lib: Robots, s: Shared, a: Action) {
    a.Upsert? ==>
      var given := OfRow(lib, UpsertedDomain(s.domains, s.lastId, a.data));
      && (forall t :: t in s.readers && s.readers[t].domain == a.data.domain ==> given == Success(s.readers[t].cd))
      && (given.Failure? ==> a.data.domain !in s.cache)
  }

  /**
   From a coherent cache, what a reader puts into it keeps it coherent exactly if the row it read is the
   current one.
   */
  lemma FillKeepsCoherence(lib: Robots, s: Shared, t: nat)
    requires Coherent(lib, s.cache, s.domains) && t in s.readers
    ensures Coherent(lib, After(lib, s, Fill(t)).cache, s.domains) <==>
            IsCurrent(lib, s, s.readers[t].domain, s.readers[t].cd)
  {
    var d, cache := s.readers[t].domain, After(lib, s, Fill(t)).cache;
    assert d in cache && cache[d] == s.readers[t].cd;
  }

  /** An action keeps everything up to date exactly if it is safe. */
  lemma SafeActionsKeepUpToDate(lib: Robots, s: Shared, a: Action)
    requires UpToDate(lib, s) && Possible(lib, s, a)
    ensures UpToDate(lib, After(lib, s, a)) <==> IsSafe(lib, s, a)
  {
    hide OfRow, WithVersion, UpsertedDomain;
    if a.Upsert? {
      UpsertKeepsUpToDate(lib, s, a.data);
    }
  }

  lemma UpsertKeepsUpToDate(lib: Robots, s: Shared, data: DomainData)
    requires UpToDate(lib, s) && s.consumer.Idle?
    ensures UpToDate(lib, After(lib, s, Upsert(data))) <==> IsSafe(lib, s, Upsert(data))
  {
    hide OfRow, WithVersion, UpsertedDomain;
    var s', d := After(lib, s, Upsert(data)), data.domain;
    var given := OfRow(lib, s'.domains[d]);
    assert forall e, cd :: e != d ==> (IsCurrent(lib, s', e, cd) <==> IsCurrent(lib, s, e, cd));
    assert forall cd :: IsCurrent(lib, s', d, cd) <==> given == Success(cd);
  }

  ghost predicate AllSafe(lib: Robots, s: Shared, actions: seq<Action>)
    requires IsRun(lib, s, actions)
    decreases |actions|
  {
    actions == [] ||
    var n := |actions| - 1;
    AllSafe(lib, s, actions[..n]) && IsSafe(lib, Final(lib, s, actions[..n]), actions[n])
  }

  ghost predicate AlwaysUpToDate(lib: Robots, s: Shared, actions: seq<Action>)
    requires IsRun(lib, s, actions)
    decreases |actions|
  {
    UpToDate(lib, Final(lib, s, actions)) && (actions == [] || AlwaysUpToDate(lib, s, actions[..|actions| - 1]))
  }

  /** Over a whole run: the cache is never behind, but for the domain just saved, exactly if every save is safe. */
  lemma {:induction false} SafeRunsStayUpToDate(lib: Robots, s: Shared, actions: seq<Action>)
    requires UpToDate(lib, s) && IsRun(lib, s, actions)
    ensures AlwaysUpToDate(lib, s, actions) <==> AllSafe(lib, s, actions)
    ensures AllSafe(lib, s, actions) ==> UpToDate(lib, Final(lib, s, actions))
  {
    hide UpToDate, IsSafe, Possible, After;
    if actions != [] {
      var n := |actions| - 1;
      SafeRunsStayUpToDate(lib, s, actions[..n]);
      if AllSafe(lib, s, actions[..n]) {
        SafeActionsKeepUpToDate(lib, Final(lib, s, actions[..n]), actions[n]);
      }
    }
  }

  /** The answer of a lookup is that of the table, or there is none as the database cannot be read. */
  predicate AnswersAsTable(lib: Robots, s: Shared, d: string, ok: bool) {
    var found := Lookup(lib, s.cache, s.domains, d, ok);
    found == Direct(lib, s.domains, d) || (!ok && d !in s.cache && found == Failure(DbError))
  }

  /**
   Cache transparency under overlap: after any run whose saves are all safe, from a service with an
   empty cache or any state that is up to date, however its readers interleave, a lookup of any
   domain answers as one in the table itself, unless the domain's new row has been written and not
   yet cached.
   */
  lemma SafeRunsAreTransparent(lib: Robots, s: Shared, actions: seq<Action>, d: string, ok: bool)
    requires UpToDate(lib, s) && IsRun(lib, s, actions) && AllSafe(lib, s, actions)
    ensures var t := Final(lib, s, actions);
            AnswersAsTable(lib, t, d, ok) || (t.consumer.Saving? && t.consumer.domain == d)
  {
    hide IsRun, Final, AllSafe;
    SafeRunsStayUpToDate(lib, s, actions);
  }

  /** What a start leaves of any state is up to date. */
  lemma RestartIsUpToDate(lib: Robots, s: Shared)
    ensures UpToDate(lib, After(lib, s, Crash))
  {
  }

  /**
   ... and from any state that is up to date, a save that is not safe can be followed by a wrong answer that
   lasts.
   */
  lemma UnsafeSaveGoesStale(lib: Robots, s: Shared, data: DomainData) returns (actions: seq<Action>)
    requires UpToDate(lib, s) && s.consumer.Idle? && !IsSafe(lib, s, Upsert(data))
    ensures actions != [] && actions[0] == Upsert(data) && IsRun(lib, s, actions)
    ensures var t := Final(lib, s, actions);
            && t.consumer.Idle? && t.readers.Keys <= s.readers.Keys
            && forall ok :: !AnswersAsTable(lib, t, data.domain, ok)
  {
    hide UpsertedDomain, WithVersion, OfRow;
    var d, t := data.domain, s;
    actions := [];
    var given := OfRow(lib, UpsertedDomain(s.domains, s.lastId, data));
    actions, t := Then(lib, s, actions, t, Upsert(data));
    if given.Success? {
      actions, t := Then(lib, s, actions, t, AddSaved);
    }
    if r :| r in s.readers && s.readers[r].domain == d && given != Success(s.readers[r].cd) {
      actions, t := Then(lib, s, actions, t, Fill(r));
    }
  }

  /** For one, a fill that races with a save can leave an outdated entry. */
  lemma RacingFillIsStale(lib: Robots, d: string) returns (actions: seq<Action>)
    ensures IsRun(lib, Empty(), actions)
    ensures var s := Final(lib, Empty(), actions);
            && s.consumer.Idle? && s.readers == map[] && d in s.cache
            && d in s.domains && s.cache[d].delay == 1 && s.domains[d].delay == 2
  {
    var s := Empty();
    actions := [];
    actions, s := Then(lib, Empty(), actions, s, Upsert(DomainData(d, None, 1)));
    actions, s := Then(lib, Empty(), actions, s, AddSaved);
    actions, s := Then(lib, Empty(), actions, s, Expire(d));
    actions, s := Then(lib, Empty(), actions, s, StartRead(0, d));
    actions, s := Then(lib, Empty(), actions, s, Upsert(DomainData(d, None, 2)));
    actions, s := Then(lib, Empty(), actions, s, AddSaved);
    actions, s := Then(lib, Empty(), actions, s, Fill(0));
  }

  lemma Then(lib: Robots, s0: Shared, actions: seq<Action>, s: Shared, a: Action)
    returns (actions': seq<Action>, s': Shared)
    requires IsRun(lib, s0, actions) && s == Final(lib, s0, actions) && Possible(lib, s, a)
    ensures actions' == actions + [a]
    ensures IsRun(lib, s0, actions') && s' == Final(lib, s0, actions') == After(lib, s, a)
  {
    hide After, Possible;
    actions', s' := actions + [a], After(lib, s, a);
    assert actions'[..|actions|] == actions;
  }
}
