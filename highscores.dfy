/** The highscores scraper: up to fifteen pages of the experience ranking per
    server, and for every entry a level upsert, a new experience snapshot and
    the hunting-session bookkeeping driven by the gain since the previous
    snapshot. */
module Highscores {
  import opened Wrappers
  import opened JsString
  import opened Models
  import opened ParserUtils
  import opened Pages
  import opened BaseScraper

  /** `MIN_PAGES`: the page loop never asks for a page past 15. */
  const MinPages: nat := 15

  /** The defaults of the scraper's configuration: one minute, three attempts. */
  const DefaultConfig := Config(60000, 3, true)

  /** A scraped highscore row; `rank` is `None` where `parseInt` gives `NaN`. */
  datatype Entry = Entry(rank: Option<int>, name: string, level: int, experience: nat)

  /** What the row filter demands of an entry. */
  predicate Accepted(e: Entry) {
    e.name != "" && e.level > 0
  }

  /** The row callback of `scrapeHighscoresPage`: four cells or more, a
      non-empty name and a positive level. */
  function ParseRow(cells: Row): (e: Option<Entry>)
    ensures e.Some? <==>
      |cells| >= 4 && ParsePlayerName(Trim(cells[1])) != "" && ParseLevel(Trim(cells[2])) > 0
    ensures e.Some? ==> Accepted(e.value) && IsTrimmed(e.value.name) && NoClosedGroup(e.value.name)
    ensures e.Some? ==> e.value.experience == ParseExperience(Trim(cells[3]))
    ensures e.Some? ==>
      e.value.name == ParsePlayerName(Trim(cells[1])) && e.value.level == ParseLevel(Trim(cells[2])) &&
      e.value.rank == ParseInt(Trim(cells[0]))
  {
    if |cells| < 4 then None
    else
      var name := ParsePlayerName(Trim(cells[1]));
      var level := ParseLevel(Trim(cells[2]));
      if name != "" && level > 0 then
        Some(Entry(ParseInt(Trim(cells[0])), name, level, ParseExperience(Trim(cells[3]))))
      else None
  }

  /** A request for one form payload. */
  type Fetch = map<string, FormValue> -> Response<Table>

  /** What `scrapeHighscoresPage` returns or throws for one response. */
  function PageEntries(r: Response<Table>, page: int): (entries: Result<seq<Entry>>)
    ensures entries.Ok? <==> r.Response? && r.status == 200
    ensures entries.Ok? ==> entries.value == Kept(r.body, ParseRow, |r.body|)
  {
    match Checked(r, "highscores page " + IntToString(page))
    case Err(m) => Err(m)
    case Ok(rows) => Ok(Kept(rows, ParseRow, |rows|))
  }

  /** Every entry of a loaded page passed the row filter. */
  lemma PageEntriesAccepted(r: Response<Table>, page: int)
    requires PageEntries(r, page).Ok?
    ensures forall e :: e in PageEntries(r, page).value ==> Accepted(e)
  {
    KeptAll(r.body, ParseRow, |r.body|, Accepted);
  }

  /** What requesting page `page` of `serverName` gives. */
  function Page(fetch: Fetch, serverName: string, page: int): Result<seq<Entry>> {
    PageEntries(fetch(HighscoresPayload(serverName, Some(page))), page)
  }

  method ScrapeHighscoresPage(fetch: Fetch, serverName: string, page: int) returns (r: Result<seq<Entry>>)
    ensures r == Page(fetch, serverName, page)
  {
    var response := fetch(HighscoresPayload(serverName, Some(page)));
    match Checked(response, "highscores page " + IntToString(page))
    case Err(m) =>
      r := Err(m);
    case Ok(rows) =>
      var out := EachRow(rows, ParseRow);
      r := Ok(out);
  }

  /** The pages of one server as the page loop sees them. */
  type PageSource = int -> Result<seq<Entry>>

  function PagesOf(fetch: Fetch, serverName: string): PageSource {
    page => Page(fetch, serverName, page)
  }

  /** The entries collected and the number of pages requested. */
  datatype PageRun = PageRun(entries: seq<Entry>, requested: nat)

  /** The page loop from `page` on: a failing or empty page is the last one
      requested. */
  function PagesFrom(pages: PageSource, page: nat): (run: PageRun)
    ensures run.requested <= (if page <= MinPages then MinPages + 1 - page else 0)
    ensures page <= MinPages ==> run.requested >= 1
    decreases if page <= MinPages then MinPages + 1 - page else 0
  {
    if page > MinPages then PageRun([], 0)
    else
      match pages(page)
      case Err(_) => PageRun([], 1)
      case Ok(es) =>
        if |es| == 0 then PageRun([], 1)
        else
          var rest := PagesFrom(pages, page + 1);
          PageRun(es + rest.entries, 1 + rest.requested)
  }

  /** Every entry the page loop collects passed the row filter. */
  lemma {:induction false} PagesFromAccepted(fetch: Fetch, serverName: string, page: nat)
    ensures forall e :: e in PagesFrom(PagesOf(fetch, serverName), page).entries ==> Accepted(e)
    decreases if page <= MinPages then MinPages + 1 - page else 0
  {
    if page <= MinPages {
      var r := Page(fetch, serverName, page);
      assert PagesOf(fetch, serverName)(page) == r;
      if r.Ok? && |r.value| > 0 {
        PageEntriesAccepted(fetch(HighscoresPayload(serverName, Some(page))), page);
        PagesFromAccepted(fetch, serverName, page + 1);
      }
    }
  }

  /** `scrapeHighscores`: pages 1, 2, ... until one fails, one is empty or
      page 15 is done. */
  method ScrapeHighscores(fetch: Fetch, serverName: string) returns (entries: seq<Entry>, requested: nat)
    ensures PageRun(entries, requested) == PagesFrom(PagesOf(fetch, serverName), 1)
    ensures 1 <= requested <= MinPages
  {
    ghost var pages := PagesOf(fetch, serverName);
    entries := [];
    requested := 0;
    var page := 1;
    while page <= MinPages
      invariant 1 <= page <= MinPages + 1
      invariant requested == page - 1
      invariant PagesFrom(pages, 1).entries == entries + PagesFrom(pages, page).entries
      invariant PagesFrom(pages, 1).requested == requested + PagesFrom(pages, page).requested
    {
      var pageEntries := ScrapeHighscoresPage(fetch, serverName, page);
      assert pageEntries == pages(page);
      PagesFromUnfold(pages, page);
      requested := requested + 1;
      if pageEntries.Err? {
        break;
      }
      ghost var before := entries;
      entries := entries + pageEntries.value;
      if |pageEntries.value| == 0 {
        break;
      }
      assert entries + PagesFrom(pages, page + 1).entries == before + PagesFrom(pages, page).entries;
      page := page + 1;
    }
  }

  /** One step of the page loop. */
  lemma PagesFromUnfold(pages: PageSource, page: nat)
    requires 1 <= page <= MinPages
    ensures !Full(pages, page) ==> PagesFrom(pages, page) == PageRun([], 1)
    ensures Full(pages, page) ==>
      PagesFrom(pages, page) ==
        PageRun(pages(page).value + PagesFrom(pages, page + 1).entries, 1 + PagesFrom(pages, page + 1).requested)
  {
  }

  /** The entries one page contributes, nothing when it fails. */
  function PageValue(pages: PageSource, page: nat): seq<Entry> {
    match pages(page)
    case Err(_) => []
    case Ok(es) => es
  }

  /** Page `page` loaded and held at least one entry. */
  predicate Full(pages: PageSource, page: nat) {
    pages(page).Ok? && |pages(page).value| > 0
  }

  /** Pages `from` up to `to` (exclusive), concatenated in page order. */
  function PagesBetween(pages: PageSource, from: nat, to: nat): seq<Entry>
    decreases if from < to then to - from else 0
  {
    if from >= to then [] else PageValue(pages, from) + PagesBetween(pages, from + 1, to)
  }

  /** Across a stretch of full pages the loop keeps going and appends each
      page in order. */
  lemma {:induction false} PagesFromFull(pages: PageSource, from: nat, to: nat)
    requires from <= to <= MinPages + 1
    requires forall k :: from <= k < to ==> Full(pages, k)
    ensures PagesFrom(pages, from).entries == PagesBetween(pages, from, to) + PagesFrom(pages, to).entries
    ensures PagesFrom(pages, from).requested == to - from + PagesFrom(pages, to).requested
    decreases if from < to then to - from else 0
  {
    if from < to {
      PagesFromFull(pages, from + 1, to);
      assert Full(pages, from);
      var here := PageValue(pages, from);
      var between := PagesBetween(pages, from + 1, to);
      var rest := PagesFrom(pages, to).entries;
      assert here + (between + rest) == (here + between) + rest;
    }
  }

  /** The loop stops at the first failing or empty page: the entries are
      the full pages before it, in order, and that page is the last one
      requested. */
  lemma PagesStopAt(pages: PageSource, stop: nat)
    requires 1 <= stop <= MinPages
    requires forall k :: 1 <= k < stop ==> Full(pages, k)
    requires !Full(pages, stop)
    ensures PagesFrom(pages, 1) == PageRun(PagesBetween(pages, 1, stop), stop)
  {
    PagesFromFull(pages, 1, stop);
  }

  /** When all fifteen pages are full, exactly fifteen are requested and all
      of them are kept in order. */
  lemma PagesAllFull(pages: PageSource)
    requires forall k :: 1 <= k <= MinPages ==> Full(pages, k)
    ensures PagesFrom(pages, 1) == PageRun(PagesBetween(pages, 1, MinPages + 1), MinPages)
  {
    PagesFromFull(pages, 1, MinPages + 1);
  }

  // ---------------------------------------------------------------------
  // One entry: upsert, snapshot, hunting status and session
  // ---------------------------------------------------------------------

  /** The snapshots of a player, oldest first. */
  function History(db: Db, key: PlayerKey): seq<Snapshot> {
    if key in db.snapshots then db.snapshots[key] else []
  }

  /** `INSERT INTO players ... ON CONFLICT DO UPDATE SET level = $3`: a new
      player gets vocation None; an existing one keeps vocation and guild. */
  function UpsertLevel(players: map<PlayerKey, Player>, key: PlayerKey, level: int): map<PlayerKey, Player> {
    players[key := if key in players then players[key].(level := level) else Player(NoVocation, level, None)]
  }

  /** `INSERT INTO player_status (player_id, is_hunting) ... ON CONFLICT DO
      UPDATE SET is_hunting = ...`: a new row is offline and never seen. */
  function WithHunting(statuses: map<PlayerKey, PlayerStatus>, key: PlayerKey, hunting: bool): map<PlayerKey, PlayerStatus> {
    statuses[key := if key in statuses then statuses[key].(isHunting := hunting) else PlayerStatus(false, hunting, None)]
  }

  predicate ActiveOf(s: Session, key: PlayerKey) {
    s.player == key && s.active
  }

  /** The most recently started active session of `key` among the first `n`. */
  function LastActive(sessions: seq<Session>, key: PlayerKey, n: nat): (i: Option<nat>)
    requires n <= |sessions|
    ensures i.Some? ==> i.value < n && ActiveOf(sessions[i.value], key)
    ensures i.None? ==> forall j :: 0 <= j < n ==> !ActiveOf(sessions[j], key)
    ensures i.Some? ==> forall j :: i.value < j < n ==> !ActiveOf(sessions[j], key)
  {
    if n == 0 then None
    else if ActiveOf(sessions[n - 1], key) then Some(n - 1)
    else LastActive(sessions, key, n - 1)
  }

  /** Extend the active session by `gain`, or open one holding `gain`. */
  function AddGain(sessions: seq<Session>, key: PlayerKey, gain: int, now: nat): seq<Session> {
    match LastActive(sessions, key, |sessions|)
    case Some(i) => sessions[i := sessions[i].(xpGained := sessions[i].xpGained + gain)]
    case None => sessions + [Session(key, now, None, gain, true)]
  }

  /** `UPDATE hunting_sessions SET is_active = false, end_time = NOW() WHERE
      player_id = $1 AND is_active = true`. */
  function CloseActive(sessions: seq<Session>, key: PlayerKey, now: nat): seq<Session> {
    seq(|sessions|, i requires 0 <= i < |sessions| =>
      if ActiveOf(sessions[i], key) then sessions[i].(active := false, end := Some(now)) else sessions[i])
  }

  /** Which branch an entry takes, given the player's history before it. */
  datatype Change = FirstSnapshot | Gain(gain: int) | Idle | NoBranch

  /** `previousSnapshot.rows.length > 0`, then `xpGain > 0n && timeDiff > 0`,
      else `xpGain === 0n`, and no branch otherwise. */
  function ChangeOf(history: seq<Snapshot>, experience: int, now: nat): (c: Change)
    ensures c == FirstSnapshot <==> |history| == 0
    ensures c.Gain? ==> c.gain > 0 && c.gain == experience - history[|history| - 1].experience
    ensures c.Gain? <==> |history| > 0 && experience > history[|history| - 1].experience && now > history[|history| - 1].time
    ensures c == Idle <==> |history| > 0 && experience == history[|history| - 1].experience
  {
    if |history| == 0 then FirstSnapshot
    else
      var previous := history[|history| - 1];
      var gain := experience - previous.experience;
      if gain > 0 && now > previous.time then Gain(gain)
      else if gain == 0 then Idle
      else NoBranch
  }

  /** The `player_status` writes of a branch. */
  function StatusesAfter(statuses: map<PlayerKey, PlayerStatus>, key: PlayerKey, c: Change): map<PlayerKey, PlayerStatus> {
    match c
    case Gain(_) => WithHunting(statuses, key, true)
    case Idle => WithHunting(statuses, key, false)
    case _ => statuses
  }

  /** The `hunting_sessions` writes of a branch. */
  function SessionsAfter(sessions: seq<Session>, key: PlayerKey, c: Change, now: nat): seq<Session> {
    match c
    case Gain(g) => AddGain(sessions, key, g, now)
    case Idle => CloseActive(sessions, key, now)
    case _ => sessions
  }

  /** The writes for one highscore entry of `server`, at time `now`; the
      branch is chosen from the history read before the new snapshot. */
  function ApplyEntry(db: Db, server: ServerId, e: Entry, now: nat): Db {
    var key := PlayerKey(e.name, server);
    var history := History(db, key);
    var c := ChangeOf(history, e.experience, now);
    db.(players := UpsertLevel(db.players, key, e.level),
        snapshots := db.snapshots[key := history + [Snapshot(e.level, e.experience, now)]],
        statuses := StatusesAfter(db.statuses, key, c),
        sessions := SessionsAfter(db.sessions, key, c, now))
  }

  /** No player has two active sessions. */
  predicate AtMostOneActive(sessions: seq<Session>) {
    forall i, j ::
      (0 <= i < |sessions| && 0 <= j < |sessions| && sessions[i].active && sessions[j].active
       && sessions[i].player == sessions[j].player) ==> i == j
  }

  /** `after` keeps every session of `before` in place with the same player
      and start and no less experience; sessions are only ever added. */
  predicate SessionsGrow(before: seq<Session>, after: seq<Session>) {
    |before| <= |after|
    && forall i :: 0 <= i < |before| ==>
      after[i].player == before[i].player && after[i].start == before[i].start
      && after[i].xpGained >= before[i].xpGained
  }

  /** The entry upserts its player by (name, server): level overwritten,
      vocation and guild kept, a new player with vocation None and no guild;
      every other player is untouched. */
  lemma ApplyEntryPlayer(db: Db, server: ServerId, e: Entry, now: nat)
    ensures var key := PlayerKey(e.name, server);
      var after := ApplyEntry(db, server, e, now).players;
      && after.Keys == db.players.Keys + {key}
      && after[key].level == e.level
      && (key in db.players ==> after[key].vocation == db.players[key].vocation && after[key].guild == db.players[key].guild)
      && (key !in db.players ==> after[key] == Player(NoVocation, e.level, None))
      && forall k :: k in db.players && k != key ==> after[k] == db.players[k]
  {
  }

  /** The entry appends exactly one snapshot, to its own player's history,
      after the previous one was read. */
  lemma ApplyEntrySnapshot(db: Db, server: ServerId, e: Entry, now: nat)
    ensures var key := PlayerKey(e.name, server);
      var after := ApplyEntry(db, server, e, now);
      && History(after, key) == History(db, key) + [Snapshot(e.level, e.experience, now)]
      && forall k :: k != key ==> History(after, k) == History(db, k)
  {
  }

  /** A player's first snapshot touches neither status nor sessions. */
  lemma ApplyEntryFirstSnapshot(db: Db, server: ServerId, e: Entry, now: nat)
    requires History(db, PlayerKey(e.name, server)) == []
    ensures ApplyEntry(db, server, e, now).statuses == db.statuses
    ensures ApplyEntry(db, server, e, now).sessions == db.sessions
  {
  }

  /** A positive gain over positive elapsed time marks the player hunting
      and adds the gain to the active session, or opens a session worth
      exactly the gain when none is active. */
  lemma ApplyEntryGain(db: Db, server: ServerId, e: Entry, now: nat)
    requires var h := History(db, PlayerKey(e.name, server));
      |h| > 0 && e.experience > h[|h| - 1].experience && now > h[|h| - 1].time
    ensures var key := PlayerKey(e.name, server);
      var h := History(db, key);
      var gain := e.experience - h[|h| - 1].experience;
      var after := ApplyEntry(db, server, e, now);
      && after.statuses.Keys == db.statuses.Keys + {key}
      && after.statuses[key].isHunting
      && (key in db.statuses ==> after.statuses[key] == db.statuses[key].(isHunting := true))
      && (forall k :: k in db.statuses && k != key ==> after.statuses[k] == db.statuses[k])
      && match LastActive(db.sessions, key, |db.sessions|)
         case Some(i) =>
           after.sessions == db.sessions[i := db.sessions[i].(xpGained := db.sessions[i].xpGained + gain)]
         case None =>
           after.sessions == db.sessions + [Session(key, now, None, gain, true)]
  {
  }

  /** Closing keeps every session's experience and leaves the player no
      active session. */
  lemma CloseActiveEffect(sessions: seq<Session>, key: PlayerKey, now: nat)
    ensures var after := CloseActive(sessions, key, now);
      && |after| == |sessions|
      && forall i :: 0 <= i < |sessions| ==>
        && !ActiveOf(after[i], key)
        && after[i].xpGained == sessions[i].xpGained
        && (ActiveOf(sessions[i], key) ==> after[i].end == Some(now))
        && (sessions[i].player != key ==> after[i] == sessions[i])
  {
  }

  /** No gain marks the player not hunting and closes every one of its
      active sessions at `now`, changing no session's experience. */
  lemma ApplyEntryIdle(db: Db, server: ServerId, e: Entry, now: nat)
    requires var h := History(db, PlayerKey(e.name, server));
      |h| > 0 && e.experience == h[|h| - 1].experience
    ensures var key := PlayerKey(e.name, server);
      var after := ApplyEntry(db, server, e, now);
      && key in after.statuses && !after.statuses[key].isHunting
      && (forall k :: k in db.statuses && k != key ==> after.statuses[k] == db.statuses[k])
      && |after.sessions| == |db.sessions|
      && forall i :: 0 <= i < |db.sessions| ==>
        && !ActiveOf(after.sessions[i], key)
        && after.sessions[i].xpGained == db.sessions[i].xpGained
        && (ActiveOf(db.sessions[i], key) ==> after.sessions[i].end == Some(now))
        && (db.sessions[i].player != key ==> after.sessions[i] == db.sessions[i])
  {
    CloseActiveEffect(db.sessions, PlayerKey(e.name, server), now);
  }

  /** A negative gain, or a gain with no elapsed time, has no branch: status
      and sessions stay as they were. */
  lemma ApplyEntryNoBranch(db: Db, server: ServerId, e: Entry, now: nat)
    requires var h := History(db, PlayerKey(e.name, server));
      |h| > 0 && (e.experience < h[|h| - 1].experience
                  || (e.experience > h[|h| - 1].experience && now <= h[|h| - 1].time))
    ensures ApplyEntry(db, server, e, now).statuses == db.statuses
    ensures ApplyEntry(db, server, e, now).sessions == db.sessions
  {
  }

  lemma AddGainOneActive(sessions: seq<Session>, key: PlayerKey, gain: int, now: nat)
    requires AtMostOneActive(sessions)
    ensures AtMostOneActive(AddGain(sessions, key, gain, now))
  {
    match LastActive(sessions, key, |sessions|)
    case Some(i) =>
      var after := AddGain(sessions, key, gain, now);
      assert forall j :: 0 <= j < |after| ==> after[j].active == sessions[j].active && after[j].player == sessions[j].player;
    case None =>
  }

  lemma CloseActiveOneActive(sessions: seq<Session>, key: PlayerKey, now: nat)
    requires AtMostOneActive(sessions)
    ensures AtMostOneActive(CloseActive(sessions, key, now))
  {
    var after := CloseActive(sessions, key, now);
    assert forall j :: 0 <= j < |after| ==> after[j].player == sessions[j].player && (after[j].active ==> sessions[j].active);
  }

  /** Every entry keeps "at most one active session per player": a session
      is opened only when the player has none. */
  lemma ApplyEntryOneActive(db: Db, server: ServerId, e: Entry, now: nat)
    requires AtMostOneActive(db.sessions)
    ensures AtMostOneActive(ApplyEntry(db, server, e, now).sessions)
  {
    var key := PlayerKey(e.name, server);
    match ChangeOf(History(db, key), e.experience, now)
    case Gain(g) => AddGainOneActive(db.sessions, key, g, now);
    case Idle => CloseActiveOneActive(db.sessions, key, now);
    case _ =>
  }

  lemma AddGainGrows(sessions: seq<Session>, key: PlayerKey, gain: int, now: nat)
    requires gain > 0
    ensures SessionsGrow(sessions, AddGain(sessions, key, gain, now))
  {
  }

  lemma CloseActiveGrows(sessions: seq<Session>, key: PlayerKey, now: nat)
    ensures SessionsGrow(sessions, CloseActive(sessions, key, now))
  {
  }

  /** Every entry keeps each session in place and only ever raises its
      experience, and only by a positive gain. */
  lemma ApplyEntrySessionsGrow(db: Db, server: ServerId, e: Entry, now: nat)
    ensures SessionsGrow(db.sessions, ApplyEntry(db, server, e, now).sessions)
  {
    var key := PlayerKey(e.name, server);
    match ChangeOf(History(db, key), e.experience, now)
    case Gain(g) => AddGainGrows(db.sessions, key, g, now);
    case Idle => CloseActiveGrows(db.sessions, key, now);
    case _ =>
  }

  lemma SessionsGrowTransitive(a: seq<Session>, b: seq<Session>, c: seq<Session>)
    requires SessionsGrow(a, b) && SessionsGrow(b, c)
    ensures SessionsGrow(a, c)
  {
  }

  // ---------------------------------------------------------------------
  // The whole cycle
  // ---------------------------------------------------------------------

  /** The first `n` entries of one server applied in order. */
  function ApplyEntries(db: Db, server: ServerId, entries: seq<Entry>, now: nat, n: nat): Db
    requires n <= |entries|
  {
    if n == 0 then db else ApplyEntry(ApplyEntries(db, server, entries, now, n - 1), server, entries[n - 1], now)
  }

  /** One element of the scraper's result. */
  datatype HighscoresData = HighscoresData(serverId: ServerId, serverName: string, entries: seq<Entry>)

  /** What the page loop yields for one server. */
  function ServerData(fetch: Fetch, server: ServerRow): HighscoresData {
    HighscoresData(server.id, server.name, PagesFrom(PagesOf(fetch, server.name), 1).entries)
  }

  /** The entries of every server of `data` applied in order. */
  function ApplyServers(db: Db, data: seq<HighscoresData>, now: nat): Db {
    if |data| == 0 then db
    else
      var last := data[|data| - 1];
      ApplyEntries(ApplyServers(db, data[..|data| - 1], now), last.serverId, last.entries, now, |last.entries|)
  }

  lemma ApplyServersSnoc(db: Db, data: seq<HighscoresData>, d: HighscoresData, now: nat)
    ensures ApplyServers(db, data + [d], now) == ApplyEntries(ApplyServers(db, data, now), d.serverId, d.entries, now, |d.entries|)
  {
    assert (data + [d])[..|data|] == data;
  }

  /** The entry loop of one server. */
  method ApplyAll(db: Db, server: ServerId, entries: seq<Entry>, now: nat) returns (db': Db)
    ensures db' == ApplyEntries(db, server, entries, now, |entries|)
  {
    db' := db;
    var k := 0;
    while k < |entries|
      invariant k <= |entries|
      invariant db' == ApplyEntries(db, server, entries, now, k)
    {
      db' := ApplyEntry(db', server, entries[k], now);
      k := k + 1;
    }
  }

  /** The body of the server loop: its pages, then its entries. */
  method ScrapeServer(db: Db, server: ServerRow, fetch: Fetch, now: nat) returns (data: HighscoresData, db': Db)
    ensures data == ServerData(fetch, server)
    ensures db' == ApplyEntries(db, data.serverId, data.entries, now, |data.entries|)
  {
    var entries, _ := ScrapeHighscores(fetch, server.name);
    data := HighscoresData(server.id, server.name, entries);
    db' := ApplyAll(db, server.id, entries, now);
  }

  /** `scrape`: every server of `SELECT id, name FROM servers ORDER BY name`,
      every entry of its pages. Page errors end that server's page loop and
      are not errors of the cycle, so the cycle always succeeds. */
  method Scrape(db: Db, servers: seq<ServerRow>, fetch: Fetch, now: nat)
    returns (result: ScrapeResult<seq<HighscoresData>>, db': Db)
    ensures result.success && result.error.None? && result.data.Some?
    ensures |result.data.value| == |servers|
    ensures forall i :: 0 <= i < |servers| ==> result.data.value[i] == ServerData(fetch, servers[i])
    ensures db' == ApplyServers(db, result.data.value, now)
    ensures servers == [] ==> db' == db
  {
    if |servers| == 0 {
      return Success([]), db;
    }
    var results: seq<HighscoresData> := [];
    db' := db;
    var s := 0;
    while s < |servers|
      invariant s <= |servers|
      invariant |results| == s
      invariant forall i :: 0 <= i < s ==> results[i] == ServerData(fetch, servers[i])
      invariant db' == ApplyServers(db, results, now)
    {
      var data;
      ApplyServersSnoc(db, results, ServerData(fetch, servers[s]), now);
      data, db' := ScrapeServer(db', servers[s], fetch, now);
      results := results + [data];
      s := s + 1;
    }
    result := Success(results);
  }

  lemma {:induction false} ApplyEntriesInvariants(db: Db, server: ServerId, entries: seq<Entry>, now: nat, n: nat)
    requires n <= |entries|
    requires AtMostOneActive(db.sessions)
    ensures AtMostOneActive(ApplyEntries(db, server, entries, now, n).sessions)
    ensures SessionsGrow(db.sessions, ApplyEntries(db, server, entries, now, n).sessions)
  {
    if n > 0 {
      var before := ApplyEntries(db, server, entries, now, n - 1);
      ApplyEntriesInvariants(db, server, entries, now, n - 1);
      ApplyEntryOneActive(before, server, entries[n - 1], now);
      ApplyEntrySessionsGrow(before, server, entries[n - 1], now);
      SessionsGrowTransitive(db.sessions, before.sessions, ApplyEntries(db, server, entries, now, n).sessions);
    }
  }

  /** A whole cycle keeps at most one active session per player, keeps
      every existing session in place and never lowers its experience. */
  lemma {:induction false} ApplyServersInvariants(db: Db, data: seq<HighscoresData>, now: nat)
    requires AtMostOneActive(db.sessions)
    ensures AtMostOneActive(ApplyServers(db, data, now).sessions)
    ensures SessionsGrow(db.sessions, ApplyServers(db, data, now).sessions)
  {
    if |data| > 0 {
      var last := data[|data| - 1];
      var before := ApplyServers(db, data[..|data| - 1], now);
      ApplyServersInvariants(db, data[..|data| - 1], now);
      ApplyEntriesInvariants(before, last.serverId, last.entries, now, |last.entries|);
      SessionsGrowTransitive(db.sessions, before.sessions, ApplyServers(db, data, now).sessions);
    }
  }
}
