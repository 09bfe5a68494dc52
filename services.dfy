/**
 * The service registry of package services (services/metacrawl.go), the one
 * the server wires in. It is the registry of package metacrawl without
 * `DeleteTaskByID`. Its task type and its `NewMetaCrawlTask` are not part of
 * this model: a task here records only what `AddTask` hands to that
 * constructor.
 */
module Services {
  import Metacrawl

  /** What `AddTask` passes to `NewMetaCrawlTask`: the service, the URLs and the timeout. */
  class MetaCrawlTask {
    const metaCrawlSvc: MetaCrawl
    const urls: seq<string>
    const timeout: nat

    constructor (mCrawl: MetaCrawl, urls: seq<string>, timeout: nat)
      ensures metaCrawlSvc == mCrawl && this.urls == urls && this.timeout == timeout
    {
      metaCrawlSvc := mCrawl;
      this.urls := urls;
      this.timeout := timeout;
    }
  }

  /** The service: tasks by ID and one limiter per domain. */
  class MetaCrawl {
    var tasks: map<string, MetaCrawlTask>
    var domainRateLimiter: map<string, Metacrawl.Ticker>

    /** Every task belongs to this service and every limiter ticks once a second. */
    predicate Valid()
      reads this
    {
      && (forall id :: id in tasks ==> tasks[id].metaCrawlSvc == this)
      && (forall d :: d in domainRateLimiter ==> domainRateLimiter[d].period == Metacrawl.LimiterPeriodMillis)
    }

    /** `NewMetaCrawl`: no task and no limiter. */
    constructor ()
      ensures tasks == map[] && domainRateLimiter == map[]
      ensures Valid()
    {
      tasks := map[];
      domainRateLimiter := map[];
    }

    /**
     * `AddTask`: a new task for `urls` with a five-second timeout, stored
     * under `taskID` (the ID that `xid.New` generates) and returned.
     */
    method AddTask(urls: seq<string>, taskID: string) returns (id: string)
      modifies this`tasks
      ensures old(Valid()) ==> Valid()
      ensures id == taskID
      ensures id in tasks && fresh(tasks[id])
      ensures tasks == old(tasks)[id := tasks[id]]
      ensures tasks[id].urls == urls && tasks[id].timeout == Metacrawl.TaskTimeoutMillis
      ensures TaskByID(id) == tasks[id]
    {
      var task := new MetaCrawlTask(this, urls, Metacrawl.TaskTimeoutMillis);
      tasks := tasks[taskID := task];
      id := taskID;
    }

    /**
     * `RateLimitterForDomain`: the stored limiter on a hit, with nothing
     * stored; on a miss a new one-second limiter, stored under the domain.
     */
    method RateLimitterForDomain(domainName: string) returns (limiter: Metacrawl.Ticker)
      modifies this`domainRateLimiter
      ensures old(Valid()) ==> Valid()
      ensures domainName in old(domainRateLimiter) ==>
        limiter == old(domainRateLimiter[domainName]) && domainRateLimiter == old(domainRateLimiter)
      ensures domainName !in old(domainRateLimiter) ==>
        fresh(limiter) && limiter.period == Metacrawl.LimiterPeriodMillis &&
        domainRateLimiter == old(domainRateLimiter)[domainName := limiter]
      ensures domainName in domainRateLimiter && domainRateLimiter[domainName] == limiter
    {
      if domainName in domainRateLimiter {
        limiter := domainRateLimiter[domainName];
        return;
      }
      limiter := new Metacrawl.Ticker(Metacrawl.LimiterPeriodMillis);
      domainRateLimiter := domainRateLimiter[domainName := limiter];
    }

    /** `TaskByID`: the task stored under `taskID`, or null. */
    function TaskByID(taskID: string): (task: MetaCrawlTask?)
      reads this
      ensures task == null <==> taskID !in tasks
      ensures task != null ==> task == tasks[taskID]
    {
      if taskID in tasks then tasks[taskID] else null
    }
  }
}
