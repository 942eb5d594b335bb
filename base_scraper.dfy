/** The behaviour every scraper inherits (scraper/src/scrapers/base.scraper.ts):
    the retry loop with exponential back-off, the `isRunning` guard of
    `execute`, the `scraper_logs` row it writes, and the next-run schedule.

    The subclass's `scrape()` is a parameter: `scrape(n)` is what the n-th
    call does, resolve with a result or throw. Clocks are parameters too. */
module BaseScraper {
  import opened Wrappers
  import opened JsString

  /** `ScraperResult<T>`: `data` and `error` are optional. */
  datatype ScrapeResult<T> = ScrapeResult(success: bool, data: Option<T>, error: Option<string>)

  function Failure<T>(message: string): ScrapeResult<T> {
    ScrapeResult(false, None, Some(message))
  }

  function Success<T>(data: T): ScrapeResult<T> {
    ScrapeResult(true, Some(data), None)
  }

  /** One call of `scrape()`: it resolves with a result or throws an error
      with a message. */
  datatype Attempt<T> = Returned(result: ScrapeResult<T>) | Threw(message: string)

  /** The part of `ScraperConfig` the base class reads. */
  datatype Config = Config(interval: int, retryAttempts: int, enabled: bool)

  const MaxBackoff: nat := 30000

  function Pow2(n: nat): (p: nat)
    ensures p >= 1
  {
    if n == 0 then 1 else 2 * Pow2(n - 1)
  }

  /** `getExponentialBackoff(attempt)`: `min(1000 * 2^(attempt-1), 30000)`;
      `2^-1 = 0.5` gives 500 for attempt 0. */
  function Backoff(attempt: nat): (ms: nat)
    ensures ms <= MaxBackoff
  {
    if attempt == 0 then 500
    else if 1000 * Pow2(attempt - 1) < MaxBackoff then 1000 * Pow2(attempt - 1)
    else MaxBackoff
  }

  lemma {:induction false} Pow2Monotone(m: nat, n: nat)
    requires m <= n
    ensures Pow2(m) <= Pow2(n)
    decreases n
  {
    if m < n {
      Pow2Monotone(m, n - 1);
    }
  }

  /** Each failed attempt doubles the wait until the cap is reached. */
  lemma BackoffDoubles(attempt: nat)
    requires attempt >= 1 && 2 * Backoff(attempt) <= MaxBackoff
    ensures Backoff(attempt + 1) == 2 * Backoff(attempt)
  {
  }

  /** The wait never shrinks from one attempt to the next. */
  lemma BackoffMonotone(a: nat, b: nat)
    requires 1 <= a <= b
    ensures Backoff(a) <= Backoff(b)
  {
    Pow2Monotone(a - 1, b - 1);
  }

  /** From the sixth attempt on the wait is the 30-second cap. */
  lemma BackoffCapped(attempt: nat)
    requires attempt >= 6
    ensures Backoff(attempt) == MaxBackoff
  {
    assert Pow2(5) == 32;
    Pow2Monotone(5, attempt - 1);
  }

  /** The waits requested after attempts `from` .. `to - 1`. */
  function Backoffs(from: nat, to: nat): (waits: seq<nat>)
    ensures |waits| == (if from < to then to - from else 0)
    ensures forall i :: 0 <= i < |waits| ==> waits[i] == Backoff(from + i)
    decreases if from < to then to - from else 0
  {
    if from >= to then [] else [Backoff(from)] + Backoffs(from + 1, to)
  }

  /** The message of the failure returned after every attempt threw; with no
      attempt at all `lastError?.message` is `undefined`. */
  function FailedAfter(retryAttempts: int, lastError: Option<string>): string {
    "Failed after " + IntToString(retryAttempts) + " attempts: "
    + match lastError
      case Some(m) => m
      case None => "undefined"
  }

  /** What the retry loop yields: its result, how many times it called
      `scrape`, and the back-off waits it asked for, in order. */
  datatype RetryRun<T> = RetryRun(result: ScrapeResult<T>, calls: nat, waits: seq<nat>)

  /** The retry loop from attempt `attempt` on, `lastError` being the
      message of the previous throw. */
  function RetryFrom<T>(scrape: nat -> Attempt<T>, retryAttempts: int, attempt: nat, lastError: Option<string>): (run: RetryRun<T>)
    requires attempt >= 1
    ensures run.calls <= if attempt <= retryAttempts then retryAttempts - attempt + 1 else 0
    decreases retryAttempts - attempt + 1
  {
    if attempt > retryAttempts then RetryRun(Failure(FailedAfter(retryAttempts, lastError)), 0, [])
    else
      match scrape(attempt)
      case Returned(r) => RetryRun(r, 1, [])
      case Threw(m) =>
        var rest := RetryFrom(scrape, retryAttempts, attempt + 1, Some(m));
        var wait := if attempt < retryAttempts then [Backoff(attempt)] else [];
        RetryRun(rest.result, rest.calls + 1, wait + rest.waits)
  }

  /** `scrapeWithRetry` as a function of what each call of `scrape` does. */
  function Retry<T>(scrape: nat -> Attempt<T>, retryAttempts: int): RetryRun<T> {
    RetryFrom(scrape, retryAttempts, 1, None)
  }

  lemma {:induction false} RetryFromFirstReturned<T>(scrape: nat -> Attempt<T>, retryAttempts: int, attempt: nat, lastError: Option<string>, k: nat)
    requires 1 <= attempt <= k <= retryAttempts
    requires scrape(k).Returned?
    requires forall i :: attempt <= i < k ==> scrape(i).Threw?
    ensures RetryFrom(scrape, retryAttempts, attempt, lastError)
         == RetryRun(scrape(k).result, k - attempt + 1, Backoffs(attempt, k))
    decreases k - attempt
  {
    if attempt < k {
      RetryFromFirstReturned(scrape, retryAttempts, attempt + 1, Some(scrape(attempt).message), k);
    }
  }

  /** The first call that does not throw ends the loop, and its result is
      returned as it is, even when it reports a failure; each throw before it
      was followed by its back-off wait. */
  lemma RetryFirstReturned<T>(scrape: nat -> Attempt<T>, retryAttempts: int, k: nat)
    requires 1 <= k <= retryAttempts
    requires scrape(k).Returned?
    requires forall i :: 1 <= i < k ==> scrape(i).Threw?
    ensures Retry(scrape, retryAttempts) == RetryRun(scrape(k).result, k, Backoffs(1, k))
  {
    RetryFromFirstReturned(scrape, retryAttempts, 1, None, k);
  }

  lemma {:induction false} RetryFromAllThrow<T>(scrape: nat -> Attempt<T>, retryAttempts: int, attempt: nat, lastError: Option<string>)
    requires 1 <= attempt <= retryAttempts
    requires forall i :: attempt <= i <= retryAttempts ==> scrape(i).Threw?
    ensures RetryFrom(scrape, retryAttempts, attempt, lastError)
         == RetryRun(Failure(FailedAfter(retryAttempts, Some(scrape(retryAttempts).message))),
                     retryAttempts - attempt + 1, Backoffs(attempt, retryAttempts))
    decreases retryAttempts - attempt
  {
    if attempt < retryAttempts {
      RetryFromAllThrow(scrape, retryAttempts, attempt + 1, Some(scrape(attempt).message));
    }
  }

  /** When every attempt throws, `scrape` is called `retryAttempts` times,
      there is a wait after every attempt but the last, and the failure
      carries the last message. */
  lemma RetryAllThrow<T>(scrape: nat -> Attempt<T>, retryAttempts: int)
    requires retryAttempts >= 1
    requires forall i :: 1 <= i <= retryAttempts ==> scrape(i).Threw?
    ensures Retry(scrape, retryAttempts)
         == RetryRun(Failure(FailedAfter(retryAttempts, Some(scrape(retryAttempts).message))),
                     retryAttempts, Backoffs(1, retryAttempts))
  {
    RetryFromAllThrow(scrape, retryAttempts, 1, None);
  }

  /** With the default three attempts, all of them throwing, the loop waits
      1000 ms and then 2000 ms. */
  lemma RetryDefaultWaits<T>(scrape: nat -> Attempt<T>)
    requires forall i :: 1 <= i <= 3 ==> scrape(i).Threw?
    ensures Retry(scrape, 3).calls == 3
    ensures Retry(scrape, 3).waits == [1000, 2000]
    ensures Retry(scrape, 3).result.error == Some("Failed after 3 attempts: " + scrape(3).message)
  {
    RetryAllThrow(scrape, 3);
    assert Backoffs(1, 3) == [Backoff(1), Backoff(2)];
    assert DigitChar(3) == '3';
    assert FailedAfter(3, Some(scrape(3).message)) == "Failed after 3 attempts: " + scrape(3).message;
  }

  /** `scheduleNextRun`: `now + interval` when the interval is positive,
      otherwise the previous value. */
  function NextRun(previous: Option<nat>, interval: int, now: nat): (next: Option<nat>)
    ensures interval > 0 ==> next == Some(now + interval)
    ensures interval <= 0 ==> next == previous
  {
    if interval > 0 then Some(now + interval) else previous
  }

  datatype LogStatus = LogSuccess | LogError

  /** A row of `scraper_logs`. */
  datatype LogRow = LogRow(scraperType: string, status: LogStatus, message: Option<string>, executionTime: Option<int>)

  /** `s || null` for a string. */
  function StringOrNull(s: string): (r: Option<string>)
    ensures r.None? <==> s == ""
    ensures r.Some? ==> r.value == s
  {
    if s == "" then None else Some(s)
  }

  /** `n || null` for a number: zero is falsy. */
  function NumberOrNull(n: int): (r: Option<int>)
    ensures r.None? <==> n == 0
    ensures r.Some? ==> r.value == n
  {
    if n == 0 then None else Some(n)
  }

  /** The row `execute` logs for a result: `result.error || 'Unknown error'`
      on failure, and an execution time of 0 ms stored as NULL. */
  function LogFor<T>(name: string, result: ScrapeResult<T>, executionTime: int): (row: LogRow)
    ensures row.scraperType == name
    ensures row.status == LogSuccess <==> result.success
    ensures result.success ==> row.message == Some("Scraping completed successfully")
    ensures !result.success && result.error.Some? && result.error.value != "" ==> row.message == result.error
    ensures !result.success && (result.error.None? || result.error == Some("")) ==> row.message == Some("Unknown error")
    ensures row.executionTime == NumberOrNull(executionTime)
  {
    if result.success then
      LogRow(name, LogSuccess, StringOrNull("Scraping completed successfully"), NumberOrNull(executionTime))
    else
      var message := match result.error
                     case Some(e) => if e == "" then "Unknown error" else e
                     case None => "Unknown error";
      LogRow(name, LogError, StringOrNull(message), NumberOrNull(executionTime))
  }

  /** What `getStatus` reports. */
  datatype ScraperStatus = ScraperStatus(name: string, isRunning: bool, lastRun: Option<nat>, nextRun: Option<nat>, enabled: bool)

  class Scraper {
    const name: string
    var config: Config
    var isRunning: bool
    var lastRun: Option<nat>
    var nextRun: Option<nat>
    /** The rows this scraper has written to `scraper_logs`. */
    var logs: seq<LogRow>

    constructor (name: string, config: Config)
      ensures this.name == name && this.config == config
      ensures !isRunning && lastRun == None && nextRun == None && logs == []
    {
      this.name := name;
      this.config := config;
      isRunning := false;
      lastRun := None;
      nextRun := None;
      logs := [];
    }

    /** `scrapeWithRetry`: at most `retryAttempts` calls of `scrape`, a
        back-off wait after every throw but the last. */
    method ScrapeWithRetry<T>(scrape: nat -> Attempt<T>) returns (result: ScrapeResult<T>, calls: nat, waits: seq<nat>)
      ensures RetryRun(result, calls, waits) == Retry(scrape, config.retryAttempts)
    {
      var total := config.retryAttempts;
      var lastError: Option<string> := None;
      calls, waits := 0, [];
      var attempt := 1;
      while attempt <= total
        invariant 1 <= attempt && calls == attempt - 1
        invariant attempt > 1 ==> attempt - 1 <= total
        invariant RetryFrom(scrape, total, attempt, lastError).result == Retry(scrape, total).result
        invariant calls + RetryFrom(scrape, total, attempt, lastError).calls == Retry(scrape, total).calls
        invariant waits + RetryFrom(scrape, total, attempt, lastError).waits == Retry(scrape, total).waits
        decreases total - attempt + 1
      {
        calls := calls + 1;
        match scrape(attempt)
        case Returned(r) =>
          result := r;
          return;
        case Threw(m) =>
          ghost var here := RetryFrom(scrape, total, attempt, lastError);
          ghost var rest := RetryFrom(scrape, total, attempt + 1, Some(m));
          var wait := if attempt < total then [Backoff(attempt)] else [];
          assert here.waits == wait + rest.waits;
          assert (waits + wait) + rest.waits == waits + here.waits;
          waits := waits + wait;
          lastError := Some(m);
          attempt := attempt + 1;
      }
      result := Failure(FailedAfter(total, lastError));
    }

    /** `scheduleNextRun`. */
    method ScheduleNextRun(now: nat)
      modifies this`nextRun
      ensures nextRun == NextRun(old(nextRun), config.interval, now)
    {
      if config.interval > 0 {
        nextRun := Some(now + config.interval);
      }
    }

    /** The guard at the top of `execute`: while a run is in flight it
        refuses, otherwise it marks the scraper running. */
    method BeginExecute() returns (started: bool)
      modifies this`isRunning
      ensures started == !old(isRunning)
      ensures isRunning
    {
      if isRunning {
        return false;
      }
      isRunning := true;
      started := true;
    }

    /** The rest of `execute` once the retry loop has produced `result`:
        record the run, log it, and in `finally` clear the flag and
        reschedule. */
    method FinishExecute<T>(result: ScrapeResult<T>, startTime: nat, now: nat)
      modifies this`isRunning, this`lastRun, this`nextRun, this`logs
      ensures !isRunning && lastRun == Some(now)
      ensures logs == old(logs) + [LogFor(name, result, now - startTime)]
      ensures nextRun == NextRun(old(nextRun), config.interval, now)
    {
      var executionTime := now - startTime;
      lastRun := Some(now);
      logs := logs + [LogFor(name, result, executionTime)];
      isRunning := false;
      ScheduleNextRun(now);
    }

    /** `execute`, run without interleaving: started at `startTime`, its
        retry loop resolved by `now`. */
    method Execute<T>(scrape: nat -> Attempt<T>, startTime: nat, now: nat) returns (result: ScrapeResult<T>)
      modifies this`isRunning, this`lastRun, this`nextRun, this`logs
      ensures old(isRunning) ==> result == Failure("Scraper is already running")
      ensures old(isRunning) ==>
        isRunning && lastRun == old(lastRun) && nextRun == old(nextRun) && logs == old(logs)
      ensures !old(isRunning) ==> result == Retry(scrape, config.retryAttempts).result
      ensures !old(isRunning) ==> !isRunning && lastRun == Some(now)
      ensures !old(isRunning) ==> logs == old(logs) + [LogFor(name, result, now - startTime)]
      ensures !old(isRunning) ==> nextRun == NextRun(old(nextRun), config.interval, now)
    {
      var started := BeginExecute();
      if !started {
        return Failure("Scraper is already running");
      }
      var calls, waits;
      result, calls, waits := ScrapeWithRetry(scrape);
      FinishExecute(result, startTime, now);
    }

    /** `getStatus`. */
    function Status(): (s: ScraperStatus)
      reads this
      ensures s.name == name && s.enabled == config.enabled
      ensures s.isRunning == isRunning && s.lastRun == lastRun && s.nextRun == nextRun
    {
      ScraperStatus(name, isRunning, lastRun, nextRun, config.enabled)
    }
  }
}
