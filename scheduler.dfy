/** The scheduler service: five scrapers, each driven by its own cron task
    and guarded by its own lock, so that a tick arriving while that job's
    previous run is still in flight is skipped. */
module Scheduler {
  import opened Wrappers
  import opened BaseScraper
  import GuildMembers
  import OnlinePlayers
  import Killboard
  import Highscores
  import Playtime

  datatype Job = GuildMembersJob | OnlinePlayersJob | KillboardJob | HighscoresJob | PlaytimeJob

  /** The cron expression each job is scheduled with (six fields, seconds
      first). */
  function CronOf(job: Job): string {
    match job
    case GuildMembersJob => "0 0 */12 * * *"
    case OnlinePlayersJob => "*/30 * * * * *"
    case KillboardJob => "*/30 * * * * *"
    case HighscoresJob => "0 * * * * *"
    case PlaytimeJob => "0 0 */12 * * *"
  }

  /** The name each scraper logs under. */
  function ScraperName(job: Job): string {
    match job
    case GuildMembersJob => "GuildMembersScraper"
    case OnlinePlayersJob => "OnlinePlayersScraper"
    case KillboardJob => "KillboardScraper"
    case HighscoresJob => "HighscoresScraper"
    case PlaytimeJob => "PlaytimeScraper"
  }

  /** Each scraper's default configuration. */
  function ConfigOf(job: Job): Config {
    match job
    case GuildMembersJob => GuildMembers.DefaultConfig
    case OnlinePlayersJob => OnlinePlayers.DefaultConfig
    case KillboardJob => Killboard.DefaultConfig
    case HighscoresJob => Highscores.DefaultConfig
    case PlaytimeJob => Playtime.DefaultConfig
  }

  /** The delay after `start` at which `runInitialScrapes` runs a job once;
      playtime has no initial run. */
  function InitialDelay(job: Job): (delay: Option<nat>)
    ensures delay.None? <==> job == PlaytimeJob
  {
    match job
    case GuildMembersJob => Some(2000)
    case OnlinePlayersJob => Some(5000)
    case KillboardJob => Some(8000)
    case HighscoresJob => Some(11000)
    case PlaytimeJob => None
  }

  /** The position of a job in `getStatus`'s report. */
  function Index(job: Job): (i: nat)
    ensures i < 5
  {
    match job
    case GuildMembersJob => 0
    case OnlinePlayersJob => 1
    case KillboardJob => 2
    case HighscoresJob => 3
    case PlaytimeJob => 4
  }

  /** The initial runs come in the order guild members, online players,
      killboard, highscores, three seconds apart. */
  lemma InitialOrder()
    ensures InitialDelay(OnlinePlayersJob).value == InitialDelay(GuildMembersJob).value + 3000
    ensures InitialDelay(KillboardJob).value == InitialDelay(OnlinePlayersJob).value + 3000
    ensures InitialDelay(HighscoresJob).value == InitialDelay(KillboardJob).value + 3000
  {
  }

  /** The jobs on the same schedule: online players and killboard every
      thirty seconds, guild members and playtime every twelve hours. */
  lemma SharedSchedules()
    ensures CronOf(OnlinePlayersJob) == CronOf(KillboardJob)
    ensures CronOf(GuildMembersJob) == CronOf(PlaytimeJob)
    ensures CronOf(HighscoresJob) != CronOf(OnlinePlayersJob)
  {
  }

  /** A `node-cron` task: its expression, and whether it still fires. */
  datatype Task = Task(cron: string, active: bool)

  /** One entry of `getStatus`: the scraper's own status and its lock. */
  datatype JobStatus = JobStatus(status: ScraperStatus, isLocked: bool)

  class SchedulerService {
    const guildMembersScraper: Scraper
    const onlinePlayersScraper: Scraper
    const killboardScraper: Scraper
    const highscoresScraper: Scraper
    const playtimeScraper: Scraper

    var guildMembersTask: Option<Task>
    var onlinePlayersTask: Option<Task>
    var killboardTask: Option<Task>
    var highscoresTask: Option<Task>
    var playtimeTask: Option<Task>

    var isGuildMembersRunning: bool
    var isOnlinePlayersRunning: bool
    var isKillboardRunning: bool
    var isHighscoresRunning: bool
    var isPlaytimeRunning: bool

    function ScraperOf(job: Job): Scraper {
      match job
      case GuildMembersJob => guildMembersScraper
      case OnlinePlayersJob => onlinePlayersScraper
      case KillboardJob => killboardScraper
      case HighscoresJob => highscoresScraper
      case PlaytimeJob => playtimeScraper
    }

    function TaskOf(job: Job): Option<Task>
      reads this
    {
      match job
      case GuildMembersJob => guildMembersTask
      case OnlinePlayersJob => onlinePlayersTask
      case KillboardJob => killboardTask
      case HighscoresJob => highscoresTask
      case PlaytimeJob => playtimeTask
    }

    function Locked(job: Job): bool
      reads this
    {
      match job
      case GuildMembersJob => isGuildMembersRunning
      case OnlinePlayersJob => isOnlinePlayersRunning
      case KillboardJob => isKillboardRunning
      case HighscoresJob => isHighscoresRunning
      case PlaytimeJob => isPlaytimeRunning
    }

    /** The five scrapers are five distinct objects. */
    predicate Valid() {
      forall a: Job, b: Job :: a != b ==> ScraperOf(a) != ScraperOf(b)
    }

    constructor ()
      ensures Valid()
      ensures forall job :: !Locked(job) && TaskOf(job).None?
      ensures forall job :: fresh(ScraperOf(job)) && ScraperOf(job).name == ScraperName(job) && ScraperOf(job).config == ConfigOf(job)
      ensures forall job :: !ScraperOf(job).isRunning && ScraperOf(job).logs == []
    {
      guildMembersScraper := new Scraper(ScraperName(GuildMembersJob), ConfigOf(GuildMembersJob));
      onlinePlayersScraper := new Scraper(ScraperName(OnlinePlayersJob), ConfigOf(OnlinePlayersJob));
      killboardScraper := new Scraper(ScraperName(KillboardJob), ConfigOf(KillboardJob));
      highscoresScraper := new Scraper(ScraperName(HighscoresJob), ConfigOf(HighscoresJob));
      playtimeScraper := new Scraper(ScraperName(PlaytimeJob), ConfigOf(PlaytimeJob));
      guildMembersTask, onlinePlayersTask, killboardTask, highscoresTask, playtimeTask := None, None, None, None, None;
      isGuildMembersRunning, isOnlinePlayersRunning, isKillboardRunning := false, false, false;
      isHighscoresRunning, isPlaytimeRunning := false, false;
    }

    /** Sets one job's lock and nothing else. */
    method SetLock(job: Job, locked: bool)
      modifies this
      ensures Locked(job) == locked
      ensures forall other :: other != job ==> Locked(other) == old(Locked(other))
      ensures forall j :: TaskOf(j) == old(TaskOf(j))
    {
      match job
      case GuildMembersJob => isGuildMembersRunning := locked;
      case OnlinePlayersJob => isOnlinePlayersRunning := locked;
      case KillboardJob => isKillboardRunning := locked;
      case HighscoresJob => isHighscoresRunning := locked;
      case PlaytimeJob => isPlaytimeRunning := locked;
    }

    /** The head of a tick (and of an initial run): skip while the job is
        locked, otherwise take the lock. */
    method TickBegin(job: Job) returns (run: bool)
      modifies this
      ensures run == !old(Locked(job))
      ensures Locked(job)
      ensures forall other :: other != job ==> Locked(other) == old(Locked(other))
      ensures forall j :: TaskOf(j) == old(TaskOf(j))
    {
      if Locked(job) {
        return false;
      }
      SetLock(job, true);
      run := true;
    }

    /** The `finally` of a tick: release the lock. */
    method TickEnd(job: Job)
      modifies this
      ensures !Locked(job)
      ensures forall other :: other != job ==> Locked(other) == old(Locked(other))
      ensures forall j :: TaskOf(j) == old(TaskOf(j))
    {
      SetLock(job, false);
    }

    /** A whole tick that is not interleaved with another: a locked job is
        skipped without touching its scraper; otherwise the scraper executes
        and the lock is released afterwards. */
    method RunTick<T>(job: Job, scrape: nat -> Attempt<T>, startTime: nat, now: nat) returns (result: Option<ScrapeResult<T>>)
      requires Valid()
      modifies this, ScraperOf(job)
      ensures old(Locked(job)) ==> result.None? && Locked(job) && unchanged(ScraperOf(job))
      ensures !old(Locked(job)) ==> result.Some? && !Locked(job)
      ensures !old(Locked(job)) && old(ScraperOf(job).isRunning) ==>
        && result == Some(Failure("Scraper is already running"))
        && ScraperOf(job).isRunning
        && ScraperOf(job).lastRun == old(ScraperOf(job).lastRun)
        && ScraperOf(job).nextRun == old(ScraperOf(job).nextRun)
        && ScraperOf(job).logs == old(ScraperOf(job).logs)
      ensures !old(Locked(job)) && !old(ScraperOf(job).isRunning) ==>
        && result == Some(Retry(scrape, ScraperOf(job).config.retryAttempts).result)
        && ScraperOf(job).lastRun == Some(now)
        && ScraperOf(job).logs == old(ScraperOf(job).logs) + [LogFor(ScraperOf(job).name, result.value, now - startTime)]
        && !ScraperOf(job).isRunning
        && ScraperOf(job).nextRun == NextRun(old(ScraperOf(job).nextRun), ScraperOf(job).config.interval, now)
      ensures forall other :: other != job ==> Locked(other) == old(Locked(other))
      ensures forall j :: TaskOf(j) == old(TaskOf(j))
    {
      var run := TickBegin(job);
      if !run {
        return None;
      }
      var r := ScraperOf(job).Execute(scrape, startTime, now);
      TickEnd(job);
      result := Some(r);
    }

    /** Two ticks of one job overlapping: the second sees the lock and is
        skipped, and once the first finishes the job can run again. */
    method OverlappingTicks(job: Job) returns (first: bool, second: bool, third: bool)
      modifies this
      ensures first == !old(Locked(job))
      ensures !second
      ensures third
    {
      first := TickBegin(job);
      second := TickBegin(job);
      TickEnd(job);
      third := TickBegin(job);
      TickEnd(job);
    }

    /** `start`: every job gets an active task; no lock changes. */
    method Start()
      modifies this
      ensures forall job :: TaskOf(job) == Some(Task(CronOf(job), true))
      ensures forall job :: Locked(job) == old(Locked(job))
    {
      guildMembersTask := Some(Task(CronOf(GuildMembersJob), true));
      onlinePlayersTask := Some(Task(CronOf(OnlinePlayersJob), true));
      killboardTask := Some(Task(CronOf(KillboardJob), true));
      highscoresTask := Some(Task(CronOf(HighscoresJob), true));
      playtimeTask := Some(Task(CronOf(PlaytimeJob), true));
    }

    /** `stop`: every task there is stops firing; locks are left as they
        are, so a run in flight still releases its own. */
    method Stop()
      modifies this
      ensures forall job :: TaskOf(job) == (if old(TaskOf(job)).Some? then Some(old(TaskOf(job)).value.(active := false)) else None)
      ensures forall job :: Locked(job) == old(Locked(job))
    {
      guildMembersTask := Stopped(guildMembersTask);
      onlinePlayersTask := Stopped(onlinePlayersTask);
      killboardTask := Stopped(killboardTask);
      highscoresTask := Stopped(highscoresTask);
      playtimeTask := Stopped(playtimeTask);
    }

    /** `getStatus`: each scraper's status next to its job's lock. */
    function GetStatus(): (report: seq<JobStatus>)
      reads this, guildMembersScraper, onlinePlayersScraper, killboardScraper, highscoresScraper, playtimeScraper
      ensures |report| == 5
      ensures forall job :: report[Index(job)].isLocked == Locked(job)
      ensures forall job :: report[Index(job)].status == ScraperOf(job).Status()
    {
      [JobStatus(guildMembersScraper.Status(), isGuildMembersRunning),
       JobStatus(onlinePlayersScraper.Status(), isOnlinePlayersRunning),
       JobStatus(killboardScraper.Status(), isKillboardRunning),
       JobStatus(highscoresScraper.Status(), isHighscoresRunning),
       JobStatus(playtimeScraper.Status(), isPlaytimeRunning)]
    }
  }

  /** `task.stop()` on a task that exists. */
  function Stopped(task: Option<Task>): (t: Option<Task>)
    ensures t.Some? <==> task.Some?
    ensures t.Some? ==> t.value == task.value.(active := false)
  {
    match task
    case Some(k) => Some(k.(active := false))
    case None => None
  }
}
