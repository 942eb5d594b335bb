/** The online-players scraper: for every server, the listing of the worlds
    page, then an offline sweep over that server's statuses and an online
    upsert for every listed player. */
module OnlinePlayers {
  import opened Wrappers
  import opened JsString
  import opened Models
  import opened ParserUtils
  import opened Pages
  import opened BaseScraper

  /** The defaults of the scraper's configuration: thirty seconds, three
      attempts. */
  const DefaultConfig := Config(30000, 3, true)

  /** A scraped row of the online list. */
  datatype OnlinePlayer = OnlinePlayer(name: string, level: int, vocation: Vocation)

  /** The row callback of `scrapeOnlinePlayers`: three cells or more, a
      non-empty name and a positive level; the vocation is whatever the third
      cell parses to. */
  function ParseRow(cells: Row): (p: Option<OnlinePlayer>)
    ensures p.Some? <==>
      |cells| >= 3 && ParsePlayerName(Trim(cells[0])) != "" && ParseLevel(Trim(cells[1])) > 0
    ensures p.Some? ==> p.value.name != "" && p.value.level > 0 && IsTrimmed(p.value.name)
    ensures p.Some? ==> p.value.vocation == ParseVocation(Trim(cells[2])) && !p.value.vocation.IsBase()
    ensures p.Some? ==> p.value.name == ParsePlayerName(Trim(cells[0])) && p.value.level == ParseLevel(Trim(cells[1]))
  {
    if |cells| < 3 then None
    else
      var name := ParsePlayerName(Trim(cells[0]));
      var level := ParseLevel(Trim(cells[1]));
      if name != "" && level > 0 then Some(OnlinePlayer(name, level, ParseVocation(Trim(cells[2])))) else None
  }

  /** The worlds page of a server, by server name. */
  type Fetch = string -> Response<Table>

  /** What `scrapeOnlinePlayers` returns or throws for one response. */
  function Listing(r: Response<Table>): (players: Result<seq<OnlinePlayer>>)
    ensures players.Ok? <==> r.Response? && r.status == 200
    ensures players.Ok? ==> players.value == Kept(r.body, ParseRow, |r.body|)
  {
    match Checked(r, "worlds page")
    case Err(m) => Err(m)
    case Ok(rows) => Ok(Kept(rows, ParseRow, |rows|))
  }

  method ScrapeOnlinePlayers(fetch: Fetch, serverName: string) returns (r: Result<seq<OnlinePlayer>>)
    ensures r == Listing(fetch(serverName))
  {
    match Checked(fetch(serverName), "worlds page")
    case Err(m) =>
      r := Err(m);
    case Ok(rows) =>
      var out := EachRow(rows, ParseRow);
      r := Ok(out);
  }

  // ---------------------------------------------------------------------
  // The writes of one server
  // ---------------------------------------------------------------------

  /** `UPDATE player_status ... SET is_online = false` for the players of one
      server; other columns and other servers are untouched. */
  function SweepOffline(statuses: map<PlayerKey, PlayerStatus>, serverId: ServerId): (swept: map<PlayerKey, PlayerStatus>)
    ensures swept.Keys == statuses.Keys
  {
    map k | k in statuses :: if k.server == serverId then statuses[k].(isOnline := false) else statuses[k]
  }

  /** The player upsert (level and vocation overwritten, a new player without
      a guild) and the status upsert (online, seen now, a new row not
      hunting) for one listed player. */
  function MarkOnline(db: Db, serverId: ServerId, p: OnlinePlayer, now: nat): Db {
    var key := PlayerKey(p.name, serverId);
    var player := if key in db.players then db.players[key].(level := p.level, vocation := p.vocation)
                  else Player(p.vocation, p.level, None);
    var status := if key in db.statuses then db.statuses[key].(isOnline := true, lastSeen := Some(now))
                  else PlayerStatus(true, false, Some(now));
    db.(players := db.players[key := player], statuses := db.statuses[key := status])
  }

  /** The listed players marked online in order. */
  function MarkAll(db: Db, serverId: ServerId, players: seq<OnlinePlayer>, now: nat): Db {
    if |players| == 0 then db
    else MarkOnline(MarkAll(db, serverId, players[..|players| - 1], now), serverId, players[|players| - 1], now)
  }

  /** The writes for one successfully listed server: sweep, then upserts. */
  function ApplyServer(db: Db, serverId: ServerId, players: seq<OnlinePlayer>, now: nat): Db {
    MarkAll(db.(statuses := SweepOffline(db.statuses, serverId)), serverId, players, now)
  }

  /** `serverId`'s listing names `name`. */
  predicate Listed(players: seq<OnlinePlayer>, name: string) {
    exists i :: 0 <= i < |players| && players[i].name == name
  }

  lemma {:induction false} MarkAllListed(db: Db, serverId: ServerId, players: seq<OnlinePlayer>, now: nat, i: nat)
    requires i < |players|
    ensures var after := MarkAll(db, serverId, players, now).statuses;
      var key := PlayerKey(players[i].name, serverId);
      key in after && after[key].isOnline && after[key].lastSeen == Some(now)
  {
    if i < |players| - 1 {
      MarkAllListed(db, serverId, players[..|players| - 1], now, i);
    }
  }

  lemma {:induction false} MarkAllUnlisted(db: Db, serverId: ServerId, players: seq<OnlinePlayer>, now: nat, k: PlayerKey)
    requires k.server != serverId || !Listed(players, k.name)
    ensures var after := MarkAll(db, serverId, players, now);
      && (k in after.statuses <==> k in db.statuses)
      && (k in db.statuses ==> after.statuses[k] == db.statuses[k])
      && (k in after.players <==> k in db.players)
      && (k in db.players ==> after.players[k] == db.players[k])
  {
    if |players| > 0 {
      var init := players[..|players| - 1];
      assert forall i :: 0 <= i < |init| ==> init[i] == players[i];
      MarkAllUnlisted(db, serverId, init, now, k);
    }
  }

  lemma {:induction false} MarkAllHunting(db: Db, serverId: ServerId, players: seq<OnlinePlayer>, now: nat, k: PlayerKey)
    requires k in MarkAll(db, serverId, players, now).statuses
    ensures MarkAll(db, serverId, players, now).statuses[k].isHunting == (k in db.statuses && db.statuses[k].isHunting)
  {
    if |players| > 0 {
      var init := players[..|players| - 1];
      if k in MarkAll(db, serverId, init, now).statuses {
        MarkAllHunting(db, serverId, init, now, k);
      } else {
        MarkAllKeys(db, serverId, init, now);
      }
    }
  }

  /** The upserts only ever add status rows. */
  lemma {:induction false} MarkAllKeys(db: Db, serverId: ServerId, players: seq<OnlinePlayer>, now: nat)
    ensures db.statuses.Keys <= MarkAll(db, serverId, players, now).statuses.Keys
  {
    if |players| > 0 {
      MarkAllKeys(db, serverId, players[..|players| - 1], now);
    }
  }

  /** The only tables the upserts touch are players and statuses. */
  lemma {:induction false} MarkAllFrame(db: Db, serverId: ServerId, players: seq<OnlinePlayer>, now: nat)
    ensures var after := MarkAll(db, serverId, players, now);
      after == db.(players := after.players, statuses := after.statuses)
  {
    if |players| > 0 {
      MarkAllFrame(db, serverId, players[..|players| - 1], now);
    }
  }

  /** After the server's writes every listed player is online and seen now. */
  lemma ApplyServerListed(db: Db, serverId: ServerId, players: seq<OnlinePlayer>, now: nat, i: nat)
    requires i < |players|
    ensures var after := ApplyServer(db, serverId, players, now).statuses;
      var key := PlayerKey(players[i].name, serverId);
      key in after && after[key].isOnline && after[key].lastSeen == Some(now)
  {
    MarkAllListed(db.(statuses := SweepOffline(db.statuses, serverId)), serverId, players, now, i);
  }

  /** A player of the server missing from the listing ends offline with its
      last-seen time and hunting flag as they were. */
  lemma ApplyServerAbsent(db: Db, serverId: ServerId, players: seq<OnlinePlayer>, now: nat, k: PlayerKey)
    requires k.server == serverId && !Listed(players, k.name)
    requires k in db.statuses
    ensures var after := ApplyServer(db, serverId, players, now).statuses;
      k in after && after[k] == db.statuses[k].(isOnline := false)
  {
    MarkAllUnlisted(db.(statuses := SweepOffline(db.statuses, serverId)), serverId, players, now, k);
  }

  /** The statuses and players of other servers are not touched. */
  lemma ApplyServerOthers(db: Db, serverId: ServerId, players: seq<OnlinePlayer>, now: nat, k: PlayerKey)
    requires k.server != serverId
    ensures var after := ApplyServer(db, serverId, players, now);
      && (k in after.statuses <==> k in db.statuses)
      && (k in db.statuses ==> after.statuses[k] == db.statuses[k])
      && (k in after.players <==> k in db.players)
      && (k in db.players ==> after.players[k] == db.players[k])
  {
    MarkAllUnlisted(db.(statuses := SweepOffline(db.statuses, serverId)), serverId, players, now, k);
  }

  /** No hunting flag is changed, and a status row created here is not
      hunting. */
  lemma ApplyServerHunting(db: Db, serverId: ServerId, players: seq<OnlinePlayer>, now: nat, k: PlayerKey)
    requires k in ApplyServer(db, serverId, players, now).statuses
    ensures ApplyServer(db, serverId, players, now).statuses[k].isHunting == (k in db.statuses && db.statuses[k].isHunting)
  {
    MarkAllHunting(db.(statuses := SweepOffline(db.statuses, serverId)), serverId, players, now, k);
  }

  /** Only players and statuses change. */
  lemma ApplyServerFrame(db: Db, serverId: ServerId, players: seq<OnlinePlayer>, now: nat)
    ensures var after := ApplyServer(db, serverId, players, now);
      after == db.(players := after.players, statuses := after.statuses)
  {
    MarkAllFrame(db.(statuses := SweepOffline(db.statuses, serverId)), serverId, players, now);
  }

  /** The last listed player's upsert overwrites level and vocation and keeps
      the guild of an existing row. */
  lemma ApplyServerLastUpsert(db: Db, serverId: ServerId, players: seq<OnlinePlayer>, now: nat)
    requires |players| > 0
    ensures var p := players[|players| - 1];
      var key := PlayerKey(p.name, serverId);
      var before := MarkAll(db.(statuses := SweepOffline(db.statuses, serverId)), serverId, players[..|players| - 1], now);
      var after := ApplyServer(db, serverId, players, now).players;
      && key in after && after[key].level == p.level && after[key].vocation == p.vocation
      && (key in before.players ==> after[key].guild == before.players[key].guild)
      && (key !in before.players ==> after[key].guild == None)
  {
  }

  // ---------------------------------------------------------------------
  // The whole cycle
  // ---------------------------------------------------------------------

  /** One element of the scraper's result. */
  datatype OnlinePlayersData = OnlinePlayersData(serverId: ServerId, serverName: string, onlinePlayers: seq<OnlinePlayer>)

  /** What `scrapeOnlinePlayers` gives for each server name. */
  type Listings = string -> Result<seq<OnlinePlayer>>

  function ListingsOf(fetch: Fetch): Listings {
    name => Listing(fetch(name))
  }

  /** The servers whose listing loaded, in order, with their listings; the
      servers whose listing failed are skipped. */
  function Succeeded(listings: Listings, servers: seq<ServerRow>): seq<OnlinePlayersData> {
    if |servers| == 0 then []
    else
      var last := servers[|servers| - 1];
      Succeeded(listings, servers[..|servers| - 1]) +
        match listings(last.name)
        case Ok(players) => [OnlinePlayersData(last.id, last.name, players)]
        case Err(_) => []
  }

  /** The writes of every server of `data`, in order. */
  function ApplyServers(db: Db, data: seq<OnlinePlayersData>, now: nat): Db {
    if |data| == 0 then db
    else
      var last := data[|data| - 1];
      ApplyServer(ApplyServers(db, data[..|data| - 1], now), last.serverId, last.onlinePlayers, now)
  }

  lemma ApplyServersSnoc(db: Db, data: seq<OnlinePlayersData>, d: OnlinePlayersData, now: nat)
    ensures ApplyServers(db, data + [d], now) == ApplyServer(ApplyServers(db, data, now), d.serverId, d.onlinePlayers, now)
  {
    assert (data + [d])[..|data|] == data;
  }

  lemma SucceededSnoc(listings: Listings, servers: seq<ServerRow>, s: ServerRow)
    ensures Succeeded(listings, servers + [s]) == Succeeded(listings, servers) +
      match listings(s.name)
      case Ok(players) => [OnlinePlayersData(s.id, s.name, players)]
      case Err(_) => []
  {
    assert (servers + [s])[..|servers|] == servers;
  }

  /** `scrape`: the listing of each server in turn; a failing listing skips
      that server, writes nothing for it, and the loop goes on. */
  method Scrape(db: Db, servers: seq<ServerRow>, fetch: Fetch, now: nat)
    returns (result: ScrapeResult<seq<OnlinePlayersData>>, db': Db)
    ensures result == Success(Succeeded(ListingsOf(fetch), servers))
    ensures db' == ApplyServers(db, Succeeded(ListingsOf(fetch), servers), now)
  {
    if |servers| == 0 {
      return Success([]), db;
    }
    var results: seq<OnlinePlayersData> := [];
    db' := db;
    var s := 0;
    while s < |servers|
      invariant s <= |servers|
      invariant results == Succeeded(ListingsOf(fetch), servers[..s])
      invariant db' == ApplyServers(db, results, now)
    {
      var server := servers[s];
      assert servers[..s + 1] == servers[..s] + [server];
      SucceededSnoc(ListingsOf(fetch), servers[..s], server);
      var listing := ScrapeOnlinePlayers(fetch, server.name);
      assert listing == ListingsOf(fetch)(server.name);
      if listing.Ok? {
        var d := OnlinePlayersData(server.id, server.name, listing.value);
        ApplyServersSnoc(db, results, d, now);
        db' := SweepAndMark(db', server.id, listing.value, now);
        results := results + [d];
      }
      s := s + 1;
    }
    assert servers[..s] == servers;
    result := Success(results);
  }

  /** The body of the server loop after a successful listing. */
  method SweepAndMark(db: Db, serverId: ServerId, players: seq<OnlinePlayer>, now: nat) returns (db': Db)
    ensures db' == ApplyServer(db, serverId, players, now)
  {
    db' := db.(statuses := SweepOffline(db.statuses, serverId));
    ghost var swept := db';
    var k := 0;
    while k < |players|
      invariant k <= |players|
      invariant db' == MarkAll(swept, serverId, players[..k], now)
    {
      assert players[..k + 1][..k] == players[..k];
      db' := MarkOnline(db', serverId, players[k], now);
      k := k + 1;
    }
    assert players[..k] == players;
  }

  /** `server`'s listing loaded and `d` is what the loop pushed for it. */
  predicate LoadedAs(listings: Listings, server: ServerRow, d: OnlinePlayersData) {
    server.id == d.serverId && server.name == d.serverName && listings(server.name) == Ok(d.onlinePlayers)
  }

  /** The result holds exactly the servers whose listing loaded, each with
      its listing, and no failed server. */
  lemma {:induction false} SucceededExactly(listings: Listings, servers: seq<ServerRow>, d: OnlinePlayersData)
    ensures d in Succeeded(listings, servers) <==> exists i :: 0 <= i < |servers| && LoadedAs(listings, servers[i], d)
  {
    if |servers| > 0 {
      var init := servers[..|servers| - 1];
      var last := servers[|servers| - 1];
      SucceededExactly(listings, init, d);
      assert forall i :: 0 <= i < |init| ==> init[i] == servers[i];
      if d in Succeeded(listings, servers) && d !in Succeeded(listings, init) {
        assert LoadedAs(listings, last, d);
      }
    }
  }
}
