/**
 Concrete runs which show that the conditions of `TerminationDetection` are needed:
 what the counter of active tasks can read when one of them is missing.
 */
module CrawlTraces {
  import opened Wrappers
  import opened CrawlProtocol
  import opened CrawlCounting

  function Page(name: string): Url {
    Url(name, Some("host"))
  }

  /** A fresh crawl of one URL, with `n` workers and no page limit. */
  function Crawl(n: nat): State {
    State([Page("a")], 1, 0, false, None, {Page("a")}, seq(n, i => Top), None, 0, [], [])
  }

  lemma CrawlIsFreshStart(n: nat)
    ensures IsFreshStart(Crawl(n))
  {
  }

  /** One more step of a run that has come to the state `t`. */
  lemma Then(s: State, steps: seq<Step>, t: State, step: Step) returns (steps': seq<Step>, t': State)
    requires IsRun(s, steps) && Final(s, steps) == t && Enabled(t, step)
    ensures IsRun(s, steps') && Final(s, steps') == t' == Next(t, step)
  {
    RunExtended(s, steps, step);
    steps', t' := steps + [step], Next(t, step);
  }

  /** A worker takes the URL at the head of the queue, and a fetch of it begins. */
  lemma Takes(s: State, steps: seq<Step>, t: State, w: nat) returns (steps': seq<Step>, t': State)
    requires IsRun(s, steps) && Final(s, steps) == t && !t.cancelled
    requires w < |t.workers| && t.workers[w] == Top && t.queue != [] && t.queue[0].domain.Some?
    ensures IsRun(s, steps') && Final(s, steps') == t'
    ensures t' == t.(workers := t.workers[w := Fetching(t.queue[0], false)], queue := t.queue[1..],
                     calls := t.calls + [Call(w, t.queue[0])])
  {
    hide IsRun, Final;
    steps', t' := Then(s, steps, t, Work(w, CheckShutdown));
    steps', t' := Then(s, steps', t', Work(w, Pop));
    steps', t' := Then(s, steps', t', Work(w, Acquire(true)));
  }

  /** A fetch fails, and the worker drops its task guard. */
  lemma Fails(s: State, steps: seq<Step>, t: State, w: nat) returns (steps': seq<Step>, t': State)
    requires IsRun(s, steps) && Final(s, steps) == t
    requires w < |t.workers| && t.workers[w].Fetching? && !t.workers[w].counted
    ensures IsRun(s, steps') && Final(s, steps') == t'
    ensures t' == t.(workers := t.workers[w := Top], active := FetchAdd(t.active, -1))
  {
    hide IsRun, Final;
    steps', t' := Then(s, steps, t, Work(w, FetchError));
    steps', t' := Then(s, steps', t', Work(w, DropGuard));
  }

  /** The filter admits the next link. */
  lemma Keeps(s: State, steps: seq<Step>, t: State, url: Url, u: Url, rest: seq<Url>, kept: seq<Url>)
    returns (steps': seq<Step>, t': State)
    requires IsRun(s, steps) && Final(s, steps) == t
    requires 0 < |t.workers| && t.workers[0] == Filtering(url, [u] + rest, kept) && u !in t.seen
    ensures IsRun(s, steps') && Final(s, steps') == t'
    ensures t' == t.(workers := t.workers[0 := Filtering(url, rest, kept + [u])], seen := t.seen + {u})
  {
    hide IsRun, Final;
    assert ([u] + rest)[1..] == rest;
    steps', t' := Then(s, steps, t, Work(0, InsertUrl(Fresh)));
  }

  /** The links kept are pushed; the worker has yet to add them to the counter. */
  lemma PushesKept(s: State, steps: seq<Step>, t: State, url: Url, kept: seq<Url>)
    returns (steps': seq<Step>, t': State)
    requires IsRun(s, steps) && Final(s, steps) == t
    requires 0 < |t.workers| && t.workers[0] == Filtering(url, [], kept) && kept != []
    ensures IsRun(s, steps') && Final(s, steps') == t'
    ensures t' == t.(workers := t.workers[0 := Adding(url, |kept|)], queue := t.queue + kept)
  {
    hide IsRun, Final;
    steps', t' := Then(s, steps, t, Work(0, FilterDone));
    steps', t' := Then(s, steps', t', Work(0, PushBulk(true)));
  }

  /** A page's two new links pass the filter and are pushed; the worker has yet to add them to the counter. */
  lemma PushesTwoLinks(s: State, steps: seq<Step>, t: State, b: Url, c: Url) returns (steps': seq<Step>, t': State)
    requires IsRun(s, steps) && Final(s, steps) == t
    requires 0 < |t.workers| && t.workers[0].Fetching? && b != c && b !in t.seen && c !in t.seen
    ensures IsRun(s, steps') && Final(s, steps') == t'
    ensures t' == t.(workers := t.workers[0 := Adding(t.workers[0].url, 2)], queue := t.queue + [b, c],
                     seen := t.seen + {b} + {c})
  {
    hide IsRun, Final;
    var a := t.workers[0].url;
    assert NoRepeats([b, c]) && [b, c] == [b] + [c] && [c] == [c] + [] && [] + [b] == [b];
    steps', t' := Then(s, steps, t, Work(0, FetchOk([b, c])));
    steps', t' := Keeps(s, steps', t', a, b, [c], []);
    steps', t' := Keeps(s, steps', t', a, c, [], [b]);
    steps', t' := PushesKept(s, steps', t', a, [b] + [c]);
  }

  /**
   In the gap between `push_bulk` and `fetch_add`, another worker can bring the counter to 0
   while a URL is still queued; a tick of the monitor then ends the crawl.
   */
  lemma GapHidesWork() returns (steps: seq<Step>)
    ensures IsFreshStart(Crawl(2)) && IsRun(Crawl(2), steps)
    ensures var t := Final(Crawl(2), steps);
            && t.active == 0 && t.queue == [Page("c")] && t.storagePushes == 0
            && Next(t, MonitorTick).cancelled
  {
    hide IsRun, Final;
    var s := Crawl(2);
    CrawlIsFreshStart(2);
    var t := s;
    steps := [];
    NoSteps(s);
    assert Page("a").text != Page("b").text && Page("a").text != Page("c").text && Page("b").text != Page("c").text;
    steps, t := Takes(s, steps, t, 0);
    steps, t := PushesTwoLinks(s, steps, t, Page("b"), Page("c"));
    assert t.queue == [Page("b"), Page("c")];
    steps, t := Takes(s, steps, t, 1);
    assert [Page("b"), Page("c")][1..] == [Page("c")];
    steps, t := Fails(s, steps, t, 1);
  }

  /** A storage push is not counted: the counter can read 0 with the pushed URL still queued, outside any gap. */
  lemma StoragePushHidesWork() returns (steps: seq<Step>, t: State)
    ensures IsFreshStart(Crawl(1)) && IsRun(Crawl(1), steps) && Final(Crawl(1), steps) == t
    ensures t.active == 0 && t.queue == [Page("c")] && t.workers == [Top] && !t.cancelled
    ensures Next(t, MonitorTick).cancelled
  {
    hide IsRun, Final;
    var s := Crawl(1);
    CrawlIsFreshStart(1);
    t, steps := s, [];
    NoSteps(s);
    assert Page("c") != Page("a");
    steps, t := Then(s, steps, t, StorageInsert(Page("c"), Fresh));
    steps, t := Then(s, steps, t, StoragePush(true));
    assert t.queue == [Page("a"), Page("c")];
    steps, t := Takes(s, steps, t, 0);
    steps, t := Fails(s, steps, t, 0);
  }

  /** ... and once the pushed URL is processed too, the counter has wrapped around below 0. */
  lemma StoragePushWrapsCounter() returns (steps: seq<Step>)
    ensures IsFreshStart(Crawl(1)) && IsRun(Crawl(1), steps)
    ensures var t := Final(Crawl(1), steps);
            t.active == MODULUS - 1 && t.queue == [] && t.workers == [Top]
  {
    hide IsRun, Final;
    var t: State;
    steps, t := StoragePushHidesWork();
    steps, t := Takes(Crawl(1), steps, t, 0);
    steps, t := Fails(Crawl(1), steps, t, 0);
  }

  /** A popped URL that does not parse stays counted: with nothing left to do, the monitor never stops the run. */
  lemma LostPopKeepsCounter() returns (steps: seq<Step>)
    ensures IsFreshStart(Crawl(1)) && IsRun(Crawl(1), steps)
    ensures var t := Final(Crawl(1), steps);
            && t.active == 1 && t.queue == [] && AllExited(t) && NothingUncounted(t)
            && !MonitorStops(t)
  {
    hide IsRun, Final;
    var s := Crawl(1);
    CrawlIsFreshStart(1);
    var t := s;
    steps := [];
    NoSteps(s);
    steps, t := Then(s, steps, t, Work(0, CheckShutdown));
    steps, t := Then(s, steps, t, Work(0, PopUnparsable));
    ExitedHoldNothing(Gap, t.workers);
  }

  /** The second URL queued at the start of a resumed crawl is not known to the filter: it can be processed twice. */
  function Resumed(): State {
    State([Page("a"), Page("b")], 2, 0, false, None, {}, [Top], None, 0, [], [])
  }

  lemma ResumedCrawlRepeats() returns (steps: seq<Step>)
    ensures IsStart(Resumed()) && IsRun(Resumed(), steps)
    ensures Occurrences(Page("b"), Final(Resumed(), steps)) == 2
  {
    hide IsRun, Final, Occurrences;
    var s := Resumed();
    var t := s;
    var a, b := Page("a"), Page("b");
    steps := [];
    NoSteps(s);
    assert [a, b][1..] == [b] && [b] == [b] + [] && [] + [b] == [b];
    steps, t := Takes(s, steps, t, 0);
    steps, t := Then(s, steps, t, Work(0, FetchOk([b])));
    steps, t := Keeps(s, steps, t, a, b, [], []);
    OneQueuedOneKept(t, a, b);
  }

  lemma OneQueuedOneKept(t: State, a: Url, b: Url)
    requires a != b && t.queue == [b] && t.workers == [Filtering(a, [], [b])]
    requires t.calls == [Call(0, a)] && t.dropped == [] && t.storage.None?
    ensures Occurrences(b, t) == 2
  {
    assert TimesIn(b, [b]) == 1;
    assert t.workers[..0] == [] && t.calls[..0] == [];
    assert Total(Copies(b), t.workers) == Total(Copies(b), []) + Weight(Copies(b), t.workers[0]);
    assert CallsOf(b, t.calls) == CallsOf(b, []) + 0;
  }
}
