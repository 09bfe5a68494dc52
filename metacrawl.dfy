/**
 * The crawl tasks and the service registry of package metacrawl
 * (services/metacrawl/task.go and services/metacrawl/metacrawl.go).
 *
 * A task's URLs are handled one after the other. Everything the Go code asks of
 * the outside world for one URL (`govalidator.IsURL`, `url.Parse`, the HTTP
 * fetch, the charset conversion and the tokens of the page) is given to the
 * model as a `Probe`. The CSV writer is replaced by the list of rows it is
 * given, and a `time.Ticker` by an object that only knows its period.
 */
module Metacrawl {
  import opened Wrappers
  import opened HtmlTokens
  import opened GoStrings
  import opened MetaExtract

  const TaskNotStarted: string := "not started"
  const TaskInProgress: string := "in progress"
  const TaskCompleted: string := "completed"

  /** The first row `Process` writes. */
  const Header: seq<string> :=
    ["HTTP Status Code", "URL", "Page Title", "Meta Description", "Meta Keywords", "Og:image"]

  /** The timeout `AddTask` gives every task: five seconds. */
  const TaskTimeoutMillis: nat := 5000

  /** The period of every per-domain limiter: one second. */
  const LimiterPeriodMillis: nat := 1000

  /** A `time.Ticker`, reduced to its identity and its period. */
  class Ticker {
    const period: nat

    constructor (period: nat)
      ensures this.period == period
    {
      this.period := period;
    }
  }

  // ---------------------------------------------------------------------------
  // One URL: processURL
  // ---------------------------------------------------------------------------

  /** A fetched page: its HTTP status, whether its charset could be converted, and its tokens. */
  datatype Page = Page(statusCode: int, charsetOk: bool, body: seq<Token>)

  /**
   * What the outside world answers for one URL: whether `govalidator.IsURL`
   * accepts it, the host `url.Parse` finds (`None` when it fails), and the
   * page `http.Client.Get` fetches (`None` when the request fails).
   */
  datatype Probe = Probe(isURL: bool, host: Option<string>, fetched: Option<Page>)

  /** What `processURL` does for one URL: append one row, append nothing, or never return. */
  datatype UrlOutcome = Appended(row: seq<string>) | Dropped | Hangs

  /** The row written for a URL that fails validation (`code` is "-1") or whose fetch fails (`code` is "0"). */
  function ErrorRow(code: string, rawURL: string): seq<string> {
    [code, rawURL, "", "", "", ""]
  }

  /**
   * `processURL`: an invalid URL gives a "-1" row, a failed fetch a "0" row, a
   * failed `url.Parse` or charset conversion no row at all, and a page the
   * extractor cannot finish makes the call hang. Otherwise the row is the
   * status code, the URL and the four extracted fields.
   */
  function UrlOutcomeOf(rawURL: string, p: Probe, registry: Registry): (o: UrlOutcome)
    ensures o.Appended? ==> |o.row| == 6 && o.row[1] == rawURL
    ensures o.Dropped? <==> p.isURL && (p.host.None? || (p.fetched.Some? && !p.fetched.value.charsetOk))
    ensures o.Hangs? <==>
      p.isURL && p.host.Some? && p.fetched.Some? && p.fetched.value.charsetOk &&
      MetaTagsOf(p.fetched.value.body, registry).None?
  {
    if !p.isURL then Appended(ErrorRow("-1", rawURL))
    else if p.host.None? then Dropped
    else if p.fetched.None? then Appended(ErrorRow("0", rawURL))
    else if !p.fetched.value.charsetOk then Dropped
    else
      var page := p.fetched.value;
      match MetaTagsOf(page.body, registry)
      case None => Hangs
      case Some(fields) =>
        MetaTagsOfReturns(page.body, registry);
        Appended([Itoa(page.statusCode), rawURL] + fields)
  }

  /**
   * An invalid URL appends `["-1", url, "", "", "", ""]` and a URL whose fetch
   * fails appends `["0", url, "", "", "", ""]`: the status code and the URL,
   * with all four metadata fields empty.
   */
  lemma FailureRows(rawURL: string, p: Probe, registry: Registry)
    ensures !p.isURL ==> UrlOutcomeOf(rawURL, p, registry) == Appended(["-1", rawURL, "", "", "", ""])
    ensures p.isURL && p.host.Some? && p.fetched.None? ==>
      UrlOutcomeOf(rawURL, p, registry) == Appended(["0", rawURL, "", "", "", ""])
  {
  }

  /** The rows an outcome adds to the result. */
  function OutcomeRows(o: UrlOutcome): seq<seq<string>> {
    if o.Appended? then [o.row] else []
  }

  /**
   * The first field of a row tells the three kinds of row apart: it reads
   * back as -1 for an invalid URL, 0 for a failed fetch, and the HTTP status
   * code otherwise.
   */
  lemma StatusFieldReadsBack(rawURL: string, p: Probe, registry: Registry)
    requires UrlOutcomeOf(rawURL, p, registry).Appended?
    ensures var row := UrlOutcomeOf(rawURL, p, registry).row;
      && row[0] != []
      && (AllDigits(row[0]) || (row[0][0] == '-' && AllDigits(row[0][1..])))
      && ParseDecimal(row[0]) == (if !p.isURL then -1 else if p.fetched.None? then 0 else p.fetched.value.statusCode)
  {
    if p.isURL && p.fetched.Some? {
      ItoaRoundTrip(p.fetched.value.statusCode);
    } else {
      assert "-1"[1..] == "1";
    }
  }

  /** A row for a fetched page carries the page's status code and the extractor's four fields. */
  lemma FetchedRowHoldsMetaTags(rawURL: string, p: Probe, registry: Registry)
    requires p.isURL && p.host.Some? && p.fetched.Some? && p.fetched.value.charsetOk
    requires MetaTagsOf(p.fetched.value.body, registry).Some?
    ensures var row := UrlOutcomeOf(rawURL, p, registry).row;
      && row[2..] == MetaTagsOf(p.fetched.value.body, registry).value
      && WellFormedResult(p.fetched.value.body, registry, row[2..])
      && (p.fetched.value.statusCode > 0 ==> row[0] != "-1" && row[0] != "0")
  {
    var page := p.fetched.value;
    var row := UrlOutcomeOf(rawURL, p, registry).row;
    MetaTagsOfReturns(page.body, registry);
    StatusFieldReadsBack(rawURL, p, registry);
    assert row[2..] == MetaTagsOf(page.body, registry).value;
  }

  // ---------------------------------------------------------------------------
  // All the URLs of a task: Process
  // ---------------------------------------------------------------------------

  /** The rows the URLs add, in the order they are handled. */
  function CrawlRows(urls: seq<string>, probes: seq<Probe>, registry: Registry): seq<seq<string>>
    requires |probes| == |urls|
  {
    if urls == [] then []
    else
      var n := |urls| - 1;
      CrawlRows(urls[..n], probes[..n], registry) + OutcomeRows(UrlOutcomeOf(urls[n], probes[n], registry))
  }

  /** Whether `processURL` returns for every URL, so that `wg.Wait` returns. */
  predicate AllReturn(urls: seq<string>, probes: seq<Probe>, registry: Registry)
    requires |probes| == |urls|
  {
    forall k :: 0 <= k < |urls| ==> !UrlOutcomeOf(urls[k], probes[k], registry).Hangs?
  }

  /** The hosts whose limiter is asked for: those of the URLs that pass validation and parse. */
  function CrawledHosts(probes: seq<Probe>): set<string> {
    set k | 0 <= k < |probes| && probes[k].isURL && probes[k].host.Some? :: probes[k].host.value
  }

  /**
   * The limiter map `after` keeps every entry of `before` and adds entries for
   * exactly the `hosts` it did not have.
   */
  predicate LimitersExtend(before: map<string, Ticker>, after: map<string, Ticker>, hosts: set<string>) {
    && after.Keys == before.Keys + hosts
    && forall d :: d in before ==> after[d] == before[d]
  }

  lemma CrawledHostsOfOne(p: Probe)
    ensures CrawledHosts([p]) == if p.isURL && p.host.Some? then {p.host.value} else {}
  {
    if p.isURL && p.host.Some? {
      assert [p][0] == p;
    }
  }

  /** Asking for one more URL's limiter extends the map by that URL's host. */
  lemma LimitersExtendStep(m1: map<string, Ticker>, m2: map<string, Ticker>, m3: map<string, Ticker>, probes: seq<Probe>, i: nat)
    requires i < |probes|
    requires LimitersExtend(m1, m2, CrawledHosts(probes[..i])) && LimitersExtend(m2, m3, CrawledHosts([probes[i]]))
    ensures LimitersExtend(m1, m3, CrawledHosts(probes[..i + 1]))
  {
    assert probes[..i + 1][..i] == probes[..i];
    CrawledHostsOfOne(probes[i]);
    assert CrawledHosts(probes[..i + 1]) == CrawledHosts(probes[..i]) + CrawledHosts([probes[i]]);
  }

  lemma RowsRegroup(written: seq<seq<string>>, crawled: seq<seq<string>>, added: seq<seq<string>>)
    ensures written + crawled + added == written + (crawled + added)
  {
  }

  /** Handling one more URL extends the rows by that URL's row, if any. */
  lemma CrawlPrefixStep(urls: seq<string>, probes: seq<Probe>, registry: Registry, i: nat)
    requires |probes| == |urls| && i < |urls|
    ensures CrawlRows(urls[..i + 1], probes[..i + 1], registry)
         == CrawlRows(urls[..i], probes[..i], registry) + OutcomeRows(UrlOutcomeOf(urls[i], probes[i], registry))
  {
    assert urls[..i + 1][..i] == urls[..i];
    assert probes[..i + 1][..i] == probes[..i];
  }

  /** Handling one more URL keeps "every call returned" exactly when that URL's call returns. */
  lemma AllReturnPrefixStep(urls: seq<string>, probes: seq<Probe>, registry: Registry, i: nat)
    requires |probes| == |urls| && i < |urls|
    ensures AllReturn(urls[..i + 1], probes[..i + 1], registry)
        <==> AllReturn(urls[..i], probes[..i], registry) && !UrlOutcomeOf(urls[i], probes[i], registry).Hangs?
  {
    assert forall k :: 0 <= k < i ==> urls[..i + 1][k] == urls[..i][k] && probes[..i + 1][k] == probes[..i][k];
  }

  /** At most one row per URL. */
  lemma {:induction false} CrawlRowsAtMostOnePerUrl(urls: seq<string>, probes: seq<Probe>, registry: Registry)
    requires |probes| == |urls|
    ensures |CrawlRows(urls, probes, registry)| <= |urls|
    decreases |urls|
  {
    if urls != [] {
      var n := |urls| - 1;
      CrawlRowsAtMostOnePerUrl(urls[..n], probes[..n], registry);
    }
  }

  /** Every row has six fields, and its second field is one of the task's URLs. */
  lemma {:induction false} CrawlRowsShape(urls: seq<string>, probes: seq<Probe>, registry: Registry)
    requires |probes| == |urls|
    ensures forall r :: r in CrawlRows(urls, probes, registry) ==> |r| == 6 && r[1] in urls
    decreases |urls|
  {
    if urls != [] {
      var n := |urls| - 1;
      CrawlRowsShape(urls[..n], probes[..n], registry);
      forall r | r in CrawlRows(urls, probes, registry)
        ensures |r| == 6 && r[1] in urls
      {
        if r in CrawlRows(urls[..n], probes[..n], registry) {
          assert r[1] in urls[..n];
        }
      }
    }
  }

  /** When no URL is dropped and none hangs, the k-th row belongs to the k-th URL. */
  lemma {:induction false} CrawlRowsOnePerUrl(urls: seq<string>, probes: seq<Probe>, registry: Registry)
    requires |probes| == |urls|
    requires forall k :: 0 <= k < |urls| ==> UrlOutcomeOf(urls[k], probes[k], registry).Appended?
    ensures |CrawlRows(urls, probes, registry)| == |urls|
    ensures forall k :: 0 <= k < |urls| ==>
      CrawlRows(urls, probes, registry)[k] == UrlOutcomeOf(urls[k], probes[k], registry).row
    decreases |urls|
  {
    if urls != [] {
      var n := |urls| - 1;
      CrawlRowsOnePerUrl(urls[..n], probes[..n], registry);
      forall k | 0 <= k < n
        ensures UrlOutcomeOf(urls[..n][k], probes[..n][k], registry) == UrlOutcomeOf(urls[k], probes[k], registry)
      {
      }
    }
  }

  /** Every invalid URL of the task gets its "-1" row. */
  lemma {:induction false} InvalidUrlsReported(urls: seq<string>, probes: seq<Probe>, registry: Registry, k: nat)
    requires |probes| == |urls|
    requires k < |urls| && !probes[k].isURL
    ensures ErrorRow("-1", urls[k]) in CrawlRows(urls, probes, registry)
    decreases |urls|
  {
    var n := |urls| - 1;
    if k < n {
      InvalidUrlsReported(urls[..n], probes[..n], registry, k);
    }
  }

  // ---------------------------------------------------------------------------
  // MCTask
  // ---------------------------------------------------------------------------

  /** A crawl task: its URLs, its status, and the rows written to its result so far. */
  class MCTask {
    var status: string
    var rows: seq<seq<string>>
    const timeout: nat
    const metaCrawlSvc: MetaCrawl
    const metaAttrRegistry: Registry
    const urls: seq<string>

    /** `NewMetaCrawlTask`: not started, no result, the fixed meta registry. */
    constructor (mCrawl: MetaCrawl, urls: seq<string>, timeout: nat)
      ensures metaCrawlSvc == mCrawl && this.urls == urls && this.timeout == timeout
      ensures metaAttrRegistry == MetaAttrRegistry()
      ensures status == TaskNotStarted && rows == []
    {
      metaCrawlSvc := mCrawl;
      this.urls := urls;
      this.timeout := timeout;
      metaAttrRegistry := MetaAttrRegistry();
      status := TaskNotStarted;
      rows := [];
    }

    /** The status last stored by `SetStatus` or the constructor. */
    function Status(): (s: string)
      reads this
      ensures s == status
    {
      status
    }

    /** The result written so far, one row per CSV record. */
    function Render(): (r: seq<seq<string>>)
      reads this
      ensures r == rows
    {
      rows
    }

    method SetStatus(s: string)
      modifies this`status
      ensures Status() == s
    {
      status := s;
    }

    /** `appendToResult`: one more record at the end of the result. */
    method AppendToResult(row: seq<string>)
      modifies this`rows
      ensures Render() == old(Render()) + [row]
    {
      rows := rows + [row];
    }

    /**
     * `processURL`, with the answers of the outside world given by `probe`.
     * `returned` is false where the Go call never returns.
     */
    method ProcessURL(rawURL: string, probe: Probe) returns (returned: bool)
      modifies this`rows, metaCrawlSvc
      ensures var o := UrlOutcomeOf(rawURL, probe, metaAttrRegistry);
        && rows == old(rows) + OutcomeRows(o)
        && (returned <==> !o.Hangs?)
      ensures metaCrawlSvc.tasks == old(metaCrawlSvc.tasks)
      ensures LimitersExtend(old(metaCrawlSvc.domainRateLimiter), metaCrawlSvc.domainRateLimiter, CrawledHosts([probe]))
      ensures old(metaCrawlSvc.Valid()) ==> metaCrawlSvc.Valid()
    {
      CrawledHostsOfOne(probe);
      if !probe.isURL {
        AppendToResult(ErrorRow("-1", rawURL));
        return true;
      }
      if probe.host.None? {
        return true;
      }
      var limiter := metaCrawlSvc.RateLimitterForDomain(probe.host.value);
      if probe.fetched.None? {
        AppendToResult(ErrorRow("0", rawURL));
        return true;
      }
      var page := probe.fetched.value;
      if !page.charsetOk {
        return true;
      }
      var record := [Itoa(page.statusCode), rawURL];
      var metaTags := ParseMetaTags(page.body, metaAttrRegistry);
      if metaTags.None? {
        return false;
      }
      record := record + metaTags.value;
      AppendToResult(record);
      returned := true;
    }

    /**
     * `Process`: the header row, then "in progress", then every URL in turn,
     * then "completed" once every URL has returned. `probes[k]` answers for
     * `urls[k]`.
     */
    method Process(probes: seq<Probe>) returns (err: Option<string>)
      requires |probes| == |urls|
      modifies this, metaCrawlSvc
      ensures rows == old(rows) + [Header] + CrawlRows(urls, probes, metaAttrRegistry)
      ensures status == (if AllReturn(urls, probes, metaAttrRegistry) then TaskCompleted else TaskInProgress)
      ensures err == None
      ensures metaCrawlSvc.tasks == old(metaCrawlSvc.tasks)
      ensures LimitersExtend(old(metaCrawlSvc.domainRateLimiter), metaCrawlSvc.domainRateLimiter, CrawledHosts(probes))
      ensures old(metaCrawlSvc.Valid()) ==> metaCrawlSvc.Valid()
    {
      AppendToResult(Header);
      SetStatus(TaskInProgress);
      var waited := ProcessURLs(probes);
      if waited {
        SetStatus(TaskCompleted);
      }
      err := None;
    }

    /**
     * The part of `Process` that starts one `processURL` goroutine per URL and
     * waits for them, run here one URL after the other. `waited` is whether
     * `wg.Wait` returns, that is whether every call returns.
     */
    method ProcessURLs(probes: seq<Probe>) returns (waited: bool)
      requires |probes| == |urls|
      modifies this`rows, metaCrawlSvc
      ensures rows == old(rows) + CrawlRows(urls, probes, metaAttrRegistry)
      ensures waited <==> AllReturn(urls, probes, metaAttrRegistry)
      ensures metaCrawlSvc.tasks == old(metaCrawlSvc.tasks)
      ensures LimitersExtend(old(metaCrawlSvc.domainRateLimiter), metaCrawlSvc.domainRateLimiter, CrawledHosts(probes))
      ensures old(metaCrawlSvc.Valid()) ==> metaCrawlSvc.Valid()
    {
      waited := true;
      var i := 0;
      while i < |urls|
        invariant i <= |urls|
        invariant rows == old(rows) + CrawlRows(urls[..i], probes[..i], metaAttrRegistry)
        invariant waited <==> AllReturn(urls[..i], probes[..i], metaAttrRegistry)
        invariant metaCrawlSvc.tasks == old(metaCrawlSvc.tasks)
        invariant LimitersExtend(old(metaCrawlSvc.domainRateLimiter), metaCrawlSvc.domainRateLimiter, CrawledHosts(probes[..i]))
        invariant old(metaCrawlSvc.Valid()) ==> metaCrawlSvc.Valid()
      {
        ghost var before := metaCrawlSvc.domainRateLimiter;
        ghost var crawled := CrawlRows(urls[..i], probes[..i], metaAttrRegistry);
        var returned := ProcessURL(urls[i], probes[i]);
        ghost var o := UrlOutcomeOf(urls[i], probes[i], metaAttrRegistry);
        RowsRegroup(old(rows), crawled, OutcomeRows(o));
        LimitersExtendStep(old(metaCrawlSvc.domainRateLimiter), before, metaCrawlSvc.domainRateLimiter, probes, i);
        waited := waited && returned;
        CrawlPrefixStep(urls, probes, metaAttrRegistry, i);
        AllReturnPrefixStep(urls, probes, metaAttrRegistry, i);
        i := i + 1;
      }
      assert urls[..i] == urls && probes[..i] == probes;
    }
  }

  // ---------------------------------------------------------------------------
  // MetaCrawl: the service registry
  // ---------------------------------------------------------------------------

  /** The service: tasks by ID and one limiter per domain. */
  class MetaCrawl {
    var tasks: map<string, MCTask>
    var domainRateLimiter: map<string, Ticker>

    /** Every task belongs to this service and every limiter ticks once a second. */
    predicate Valid()
      reads this
    {
      && (forall id :: id in tasks ==> tasks[id].metaCrawlSvc == this)
      && (forall d :: d in domainRateLimiter ==> domainRateLimiter[d].period == LimiterPeriodMillis)
    }

    /** `NewMetaCrawl`: no task and no limiter. */
    constructor ()
      ensures tasks == map[] && domainRateLimiter == map[]
      ensures Valid()
    {
      tasks := map[];
      domainRateLimiter := map[];
    }

    /**
     * `AddTask`: a new task for `urls`, stored under `taskID` (the ID that
     * `xid.New` generates) and returned. The goroutine that runs the task's
     * `Process` is not part of this call here.
     */
    method AddTask(urls: seq<string>, taskID: string) returns (id: string)
      modifies this`tasks
      ensures old(Valid()) ==> Valid()
      ensures id == taskID
      ensures id in tasks && fresh(tasks[id])
      ensures tasks == old(tasks)[id := tasks[id]]
      ensures tasks[id].urls == urls && tasks[id].timeout == TaskTimeoutMillis
      ensures tasks[id].status == TaskNotStarted && tasks[id].rows == []
      ensures tasks[id].metaAttrRegistry == MetaAttrRegistry() && tasks[id].metaCrawlSvc == this
      ensures TaskByID(id) == tasks[id]
    {
      var task := new MCTask(this, urls, TaskTimeoutMillis);
      tasks := tasks[taskID := task];
      id := taskID;
    }

    /**
     * `RateLimitterForDomain`: the stored limiter on a hit, with nothing
     * stored; on a miss a new one-second limiter, stored under the domain.
     * Either way the domain's entry is the limiter returned, and no other
     * entry changes.
     */
    method RateLimitterForDomain(domainName: string) returns (limiter: Ticker)
      modifies this`domainRateLimiter
      ensures old(Valid()) ==> Valid()
      ensures domainName in old(domainRateLimiter) ==>
        limiter == old(domainRateLimiter[domainName]) && domainRateLimiter == old(domainRateLimiter)
      ensures domainName !in old(domainRateLimiter) ==>
        fresh(limiter) && limiter.period == LimiterPeriodMillis &&
        domainRateLimiter == old(domainRateLimiter)[domainName := limiter]
      ensures domainName in domainRateLimiter && domainRateLimiter[domainName] == limiter
    {
      if domainName in domainRateLimiter {
        limiter := domainRateLimiter[domainName];
        return;
      }
      limiter := new Ticker(LimiterPeriodMillis);
      domainRateLimiter := domainRateLimiter[domainName := limiter];
    }

    /** `TaskByID`: the task stored under `taskID`, or null. */
    function TaskByID(taskID: string): (task: MCTask?)
      reads this
      ensures task == null <==> taskID !in tasks
      ensures task != null ==> task == tasks[taskID]
    {
      if taskID in tasks then tasks[taskID] else null
    }

    /** `DeleteTaskByID`: only that ID is removed, whether or not it was stored. */
    method DeleteTaskByID(taskID: string)
      modifies this`tasks
      ensures old(Valid()) ==> Valid()
      ensures tasks == old(tasks) - {taskID}
      ensures TaskByID(taskID) == null
      ensures forall id :: id != taskID ==> TaskByID(id) == old(TaskByID(id))
    {
      tasks := tasks - {taskID};
    }
  }

  /** A second request for the same domain gets the limiter the first one got. */
  method SameLimiterForSameDomain(m: MetaCrawl, domainName: string) returns (first: Ticker, second: Ticker)
    modifies m
    ensures first == second
    ensures m.tasks == old(m.tasks)
  {
    first := m.RateLimitterForDomain(domainName);
    second := m.RateLimitterForDomain(domainName);
  }
}
