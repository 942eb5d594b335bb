/** The killboard scraper: the latest deaths of every server, inserted once
    each, keyed by (victim name, death time, server), and classified as ally
    or enemy deaths by the victim's guild. */
module Killboard {
  import opened Wrappers
  import opened JsString
  import opened Models
  import opened ParserUtils
  import opened Pages
  import opened BaseScraper

  /** The defaults of the scraper's configuration: thirty seconds, three
      attempts. */
  const DefaultConfig := Config(30000, 3, true)

  /** A scraped death; `killer` is `None` where the killer cell is empty. */
  datatype ScrapedDeath = ScrapedDeath(victimName: string, killer: Option<string>, time: nat)

  /** `parseRubinotTime`: a timestamp, or `None` where the text is no date. */
  type ParseTime = string -> Option<nat>

  /** The row callback of `scrapeKillboard`: three cells or more, a non-empty
      victim name and a time that parses; an empty killer becomes `None`. */
  function ParseRow(parseTime: ParseTime, cells: Row): (d: Option<ScrapedDeath>)
    ensures d.Some? <==> |cells| >= 3 && ParsePlayerName(Trim(cells[0])) != "" && parseTime(Trim(cells[2])).Some?
    ensures d.Some? ==> d.value.victimName != "" && d.value.time == parseTime(Trim(cells[2])).value
    ensures d.Some? ==> d.value.victimName == ParsePlayerName(Trim(cells[0])) && IsTrimmed(d.value.victimName)
    ensures d.Some? ==> (d.value.killer.None? <==> Trim(cells[1]) == "")
    ensures d.Some? && d.value.killer.Some? ==> d.value.killer.value == Trim(cells[1])
  {
    if |cells| < 3 then None
    else
      var victimName := ParsePlayerName(Trim(cells[0]));
      var killerName := StringOrNull(Trim(cells[1]));
      match parseTime(Trim(cells[2]))
      case Some(time) => if victimName != "" then Some(ScrapedDeath(victimName, killerName, time)) else None
      case None => None
  }

  function RowParser(parseTime: ParseTime): Row -> Option<ScrapedDeath> {
    cells => ParseRow(parseTime, cells)
  }

  /** The killboard page, by form payload. */
  type Fetch = map<string, FormValue> -> Response<Table>

  /** What `scrapeKillboard` returns or throws for one response. */
  function Board(parseTime: ParseTime, r: Response<Table>): (deaths: Result<seq<ScrapedDeath>>)
    ensures deaths.Ok? <==> r.Response? && r.status == 200
    ensures deaths.Ok? ==> deaths.value == Kept(r.body, RowParser(parseTime), |r.body|)
  {
    match Checked(r, "killboard")
    case Err(m) => Err(m)
    case Ok(rows) => Ok(Kept(rows, RowParser(parseTime), |rows|))
  }

  method ScrapeKillboard(fetch: Fetch, parseTime: ParseTime, serverName: string) returns (r: Result<seq<ScrapedDeath>>)
    ensures r == Board(parseTime, fetch(ServerPayload(serverName)))
  {
    match Checked(fetch(ServerPayload(serverName)), "killboard")
    case Err(m) =>
      r := Err(m);
    case Ok(rows) =>
      var out := EachRow(rows, RowParser(parseTime));
      r := Ok(out);
  }

  // ---------------------------------------------------------------------
  // Ingesting deaths
  // ---------------------------------------------------------------------

  /** A death row with this (victim name, death time, server) exists. */
  predicate Recorded(deaths: seq<Death>, victimName: string, time: nat, server: ServerId) {
    exists i :: 0 <= i < |deaths| && deaths[i].victimName == victimName && deaths[i].time == time && deaths[i].server == server
  }

  /** `SELECT id FROM players WHERE name = $1 AND server_id = $2`. */
  function VictimId(players: map<PlayerKey, Player>, name: string, server: ServerId): (victim: Option<PlayerKey>)
    ensures victim.Some? <==> PlayerKey(name, server) in players
    ensures victim.Some? ==> victim.value == PlayerKey(name, server)
  {
    var key := PlayerKey(name, server);
    if key in players then Some(key) else None
  }

  /** `isAllyDeath`: the `is_ally` flag of the victim's guild through an
      inner join, so false for an unknown victim, a victim without a guild
      and a guild id with no guild row. */
  function IsAllyDeath(db: Db, name: string, server: ServerId): (ally: bool)
    ensures ally ==> PlayerKey(name, server) in db.players
    ensures PlayerKey(name, server) !in db.players ==> !ally
    ensures PlayerKey(name, server) in db.players && db.players[PlayerKey(name, server)].guild.None? ==> !ally
    ensures var key := PlayerKey(name, server);
      key in db.players && db.players[key].guild.Some? && db.players[key].guild.value in db.guilds ==>
        ally == db.guilds[db.players[key].guild.value].isAlly
  {
    var key := PlayerKey(name, server);
    if key in db.players then
      match db.players[key].guild
      case Some(g) => g in db.guilds && db.guilds[g].isAlly
      case None => false
    else false
  }

  /** The death row `scrape` inserts for a new death. */
  function NewDeath(db: Db, server: ServerId, d: ScrapedDeath): Death {
    Death(d.victimName, VictimId(db.players, d.victimName, server), d.killer, d.time, server,
          IsAllyDeath(db, d.victimName, server))
  }

  /** Check, then insert: a death already recorded changes nothing. */
  function Ingest(db: Db, server: ServerId, d: ScrapedDeath): Db {
    if Recorded(db.deaths, d.victimName, d.time, server) then db
    else db.(deaths := db.deaths + [NewDeath(db, server, d)])
  }

  /** The deaths of one server ingested in order. */
  function IngestAll(db: Db, server: ServerId, deaths: seq<ScrapedDeath>): Db {
    if |deaths| == 0 then db
    else Ingest(IngestAll(db, server, deaths[..|deaths| - 1]), server, deaths[|deaths| - 1])
  }

  /** No two death rows share (victim name, death time, server). */
  predicate Unique(deaths: seq<Death>) {
    forall i, j :: 0 <= i < j < |deaths| ==>
      !(deaths[i].victimName == deaths[j].victimName && deaths[i].time == deaths[j].time && deaths[i].server == deaths[j].server)
  }

  /** Ingesting only ever appends a death, and touches no other table. */
  lemma IngestAppends(db: Db, server: ServerId, d: ScrapedDeath)
    ensures var after := Ingest(db, server, d);
      && after == db.(deaths := after.deaths)
      && db.deaths <= after.deaths && |after.deaths| <= |db.deaths| + 1
  {
  }

  /** A new death is inserted with its victim's id and guild classification. */
  lemma IngestNew(db: Db, server: ServerId, d: ScrapedDeath)
    requires !Recorded(db.deaths, d.victimName, d.time, server)
    ensures Ingest(db, server, d).deaths == db.deaths + [NewDeath(db, server, d)]
    ensures NewDeath(db, server, d).victim == VictimId(db.players, d.victimName, server)
    ensures NewDeath(db, server, d).isAllyDeath == IsAllyDeath(db, d.victimName, server)
  {
  }

  lemma RecordedGrows(a: seq<Death>, b: seq<Death>, victimName: string, time: nat, server: ServerId)
    requires a <= b && Recorded(a, victimName, time, server)
    ensures Recorded(b, victimName, time, server)
  {
    var i :| 0 <= i < |a| && a[i].victimName == victimName && a[i].time == time && a[i].server == server;
    assert b[i] == a[i];
  }

  /** Ingesting keeps the deaths table free of duplicates. */
  lemma IngestUnique(db: Db, server: ServerId, d: ScrapedDeath)
    requires Unique(db.deaths)
    ensures Unique(Ingest(db, server, d).deaths)
  {
    if !Recorded(db.deaths, d.victimName, d.time, server) {
      var after := Ingest(db, server, d).deaths;
      forall i, j | 0 <= i < j < |after|
        ensures !(after[i].victimName == after[j].victimName && after[i].time == after[j].time && after[i].server == after[j].server)
      {
        if j == |db.deaths| {
          assert after[i] == db.deaths[i];
        }
      }
    }
  }

  /** The loop keeps the existing rows as a prefix and adds no more rows
      than it was given deaths. */
  lemma {:induction false} IngestAllAppends(db: Db, server: ServerId, deaths: seq<ScrapedDeath>)
    ensures var after := IngestAll(db, server, deaths);
      && after == db.(deaths := after.deaths)
      && db.deaths <= after.deaths && |after.deaths| <= |db.deaths| + |deaths|
  {
    if |deaths| > 0 {
      var before := IngestAll(db, server, deaths[..|deaths| - 1]);
      IngestAllAppends(db, server, deaths[..|deaths| - 1]);
      IngestAppends(before, server, deaths[|deaths| - 1]);
    }
  }

  /** Afterwards every scraped death is recorded. */
  lemma {:induction false} IngestAllRecorded(db: Db, server: ServerId, deaths: seq<ScrapedDeath>, i: nat)
    requires i < |deaths|
    ensures Recorded(IngestAll(db, server, deaths).deaths, deaths[i].victimName, deaths[i].time, server)
  {
    var init := deaths[..|deaths| - 1];
    var before := IngestAll(db, server, init);
    var last := deaths[|deaths| - 1];
    if i < |deaths| - 1 {
      IngestAllRecorded(db, server, init, i);
      IngestAppends(before, server, last);
      RecordedGrows(before.deaths, Ingest(before, server, last).deaths, deaths[i].victimName, deaths[i].time, server);
    } else if !Recorded(before.deaths, last.victimName, last.time, server) {
      assert Ingest(before, server, last).deaths[|before.deaths|] == NewDeath(before, server, last);
    }
  }

  /** Duplicates, within a batch or across runs, never make a second row. */
  lemma {:induction false} IngestAllUnique(db: Db, server: ServerId, deaths: seq<ScrapedDeath>)
    requires Unique(db.deaths)
    ensures Unique(IngestAll(db, server, deaths).deaths)
  {
    if |deaths| > 0 {
      IngestAllUnique(db, server, deaths[..|deaths| - 1]);
      IngestUnique(IngestAll(db, server, deaths[..|deaths| - 1]), server, deaths[|deaths| - 1]);
    }
  }

  /** Deaths that are all recorded already change nothing. */
  lemma {:induction false} IngestAllRecordedNoop(db: Db, server: ServerId, deaths: seq<ScrapedDeath>)
    requires forall i :: 0 <= i < |deaths| ==> Recorded(db.deaths, deaths[i].victimName, deaths[i].time, server)
    ensures IngestAll(db, server, deaths) == db
  {
    if |deaths| > 0 {
      IngestAllRecordedNoop(db, server, deaths[..|deaths| - 1]);
    }
  }

  /** Ingesting the same deaths a second time changes nothing. */
  lemma IngestAllIdempotent(db: Db, server: ServerId, deaths: seq<ScrapedDeath>)
    ensures IngestAll(IngestAll(db, server, deaths), server, deaths) == IngestAll(db, server, deaths)
  {
    forall i | 0 <= i < |deaths|
      ensures Recorded(IngestAll(db, server, deaths).deaths, deaths[i].victimName, deaths[i].time, server)
    {
      IngestAllRecorded(db, server, deaths, i);
    }
    IngestAllRecordedNoop(IngestAll(db, server, deaths), server, deaths);
  }

  /** A death listed twice in one batch yields one row. */
  lemma IngestTwice(db: Db, server: ServerId, d: ScrapedDeath)
    ensures IngestAll(db, server, [d, d]) == Ingest(db, server, d)
  {
    assert [d, d][..1] == [d];
    assert [d][..0] == [];
    assert IngestAll(db, server, [d]) == Ingest(db, server, d);
    IngestAllRecorded(db, server, [d], 0);
    assert IngestAll(db, server, [d, d]) == Ingest(IngestAll(db, server, [d]), server, d);
  }

  // ---------------------------------------------------------------------
  // The whole cycle
  // ---------------------------------------------------------------------

  /** One element of the scraper's result. */
  datatype KillboardData = KillboardData(serverId: ServerId, serverName: string, deaths: seq<ScrapedDeath>)

  /** What `scrapeKillboard` gives for each server name. */
  type Boards = string -> Result<seq<ScrapedDeath>>

  function BoardsOf(fetch: Fetch, parseTime: ParseTime): Boards {
    name => Board(parseTime, fetch(ServerPayload(name)))
  }

  /** The servers whose killboard loaded, in order, with their deaths. */
  function Succeeded(boards: Boards, servers: seq<ServerRow>): seq<KillboardData> {
    if |servers| == 0 then []
    else
      var last := servers[|servers| - 1];
      Succeeded(boards, servers[..|servers| - 1]) +
        match boards(last.name)
        case Ok(deaths) => [KillboardData(last.id, last.name, deaths)]
        case Err(_) => []
  }

  /** The deaths of every server of `data` ingested in order. */
  function ApplyServers(db: Db, data: seq<KillboardData>): Db {
    if |data| == 0 then db
    else
      var last := data[|data| - 1];
      IngestAll(ApplyServers(db, data[..|data| - 1]), last.serverId, last.deaths)
  }

  lemma ApplyServersSnoc(db: Db, data: seq<KillboardData>, d: KillboardData)
    ensures ApplyServers(db, data + [d]) == IngestAll(ApplyServers(db, data), d.serverId, d.deaths)
  {
    assert (data + [d])[..|data|] == data;
  }

  lemma SucceededSnoc(boards: Boards, servers: seq<ServerRow>, s: ServerRow)
    ensures Succeeded(boards, servers + [s]) == Succeeded(boards, servers) +
      match boards(s.name)
      case Ok(deaths) => [KillboardData(s.id, s.name, deaths)]
      case Err(_) => []
  {
    assert (servers + [s])[..|servers|] == servers;
  }

  /** The check-then-insert loop of one server. */
  method StoreDeaths(db: Db, server: ServerId, deaths: seq<ScrapedDeath>) returns (db': Db)
    ensures db' == IngestAll(db, server, deaths)
  {
    db' := db;
    var k := 0;
    while k < |deaths|
      invariant k <= |deaths|
      invariant db' == IngestAll(db, server, deaths[..k])
    {
      assert deaths[..k + 1][..k] == deaths[..k];
      var d := deaths[k];
      var exists_ := exists i :: 0 <= i < |db'.deaths| && db'.deaths[i].victimName == d.victimName
                                   && db'.deaths[i].time == d.time && db'.deaths[i].server == server;
      if !exists_ {
        db' := db'.(deaths := db'.deaths + [NewDeath(db', server, d)]);
      }
      k := k + 1;
    }
    assert deaths[..k] == deaths;
  }

  /** `scrape`: the killboard of each server in turn; a failing page skips
      that server and the loop goes on. */
  method Scrape(db: Db, servers: seq<ServerRow>, fetch: Fetch, parseTime: ParseTime)
    returns (result: ScrapeResult<seq<KillboardData>>, db': Db)
    ensures result == Success(Succeeded(BoardsOf(fetch, parseTime), servers))
    ensures db' == ApplyServers(db, Succeeded(BoardsOf(fetch, parseTime), servers))
  {
    if |servers| == 0 {
      return Success([]), db;
    }
    var results: seq<KillboardData> := [];
    db' := db;
    var s := 0;
    while s < |servers|
      invariant s <= |servers|
      invariant results == Succeeded(BoardsOf(fetch, parseTime), servers[..s])
      invariant db' == ApplyServers(db, results)
    {
      var server := servers[s];
      assert servers[..s + 1] == servers[..s] + [server];
      SucceededSnoc(BoardsOf(fetch, parseTime), servers[..s], server);
      var board := ScrapeKillboard(fetch, parseTime, server.name);
      assert board == BoardsOf(fetch, parseTime)(server.name);
      if board.Ok? {
        var d := KillboardData(server.id, server.name, board.value);
        ApplyServersSnoc(db, results, d);
        db' := StoreDeaths(db', server.id, board.value);
        results := results + [d];
      }
      s := s + 1;
    }
    assert servers[..s] == servers;
    result := Success(results);
  }

  /** A whole cycle keeps the deaths table free of duplicates and never
      changes or removes an existing row. */
  lemma {:induction false} ApplyServersInvariants(db: Db, data: seq<KillboardData>)
    requires Unique(db.deaths)
    ensures Unique(ApplyServers(db, data).deaths)
    ensures db.deaths <= ApplyServers(db, data).deaths
    ensures ApplyServers(db, data) == db.(deaths := ApplyServers(db, data).deaths)
  {
    if |data| > 0 {
      var last := data[|data| - 1];
      var before := ApplyServers(db, data[..|data| - 1]);
      ApplyServersInvariants(db, data[..|data| - 1]);
      IngestAllUnique(before, last.serverId, last.deaths);
      IngestAllAppends(before, last.serverId, last.deaths);
    }
  }
}
