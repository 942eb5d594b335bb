/** The guild members scraper: for every configured guild, find the guild's
    link on the server's guild list, read its member table, store one roster
    snapshot row per member and upsert each member as a player of the guild. */
module GuildMembers {
  import opened Wrappers
  import opened JsString
  import opened Models
  import opened ParserUtils
  import opened Pages
  import opened BaseScraper

  /** Every twelve hours, three attempts. */
  const DefaultConfig := Config(12 * 60 * 60 * 1000, 3, true)

  /** A scraped guild member. */
  datatype Member = Member(name: string, vocation: Vocation)

  /** An `<a>` of the guild list: its text and its `href` attribute. */
  datatype Anchor = Anchor(text: string, href: Option<string>)

  // ---------------------------------------------------------------------
  // Finding the guild and reading its members
  // ---------------------------------------------------------------------

  /** The first anchor whose trimmed text is the guild name. */
  function LinkIndex(anchors: seq<Anchor>, guildName: string): (i: Option<nat>)
    ensures i.Some? ==> i.value < |anchors| && Trim(anchors[i.value].text) == guildName
    ensures i.Some? ==> forall k :: 0 <= k < i.value ==> Trim(anchors[k].text) != guildName
    ensures i.None? ==> forall k :: 0 <= k < |anchors| ==> Trim(anchors[k].text) != guildName
  {
    LinkFrom(anchors, guildName, 0)
  }

  function LinkFrom(anchors: seq<Anchor>, guildName: string, k: nat): (i: Option<nat>)
    requires k <= |anchors|
    requires forall j :: 0 <= j < k ==> Trim(anchors[j].text) != guildName
    ensures i.Some? ==> k <= i.value < |anchors| && Trim(anchors[i.value].text) == guildName
    ensures i.Some? ==> forall j :: 0 <= j < i.value ==> Trim(anchors[j].text) != guildName
    ensures i.None? ==> forall j :: 0 <= j < |anchors| ==> Trim(anchors[j].text) != guildName
    decreases |anchors| - k
  {
    if k == |anchors| then None
    else if Trim(anchors[k].text) == guildName then Some(k)
    else LinkFrom(anchors, guildName, k + 1)
  }

  /** The guild's URL: the `href` of the first matching anchor, when that is
      present and not empty. */
  function GuildUrl(anchors: seq<Anchor>, guildName: string): Option<string> {
    match LinkIndex(anchors, guildName)
    case Some(i) => (if anchors[i].href.Some? && anchors[i].href.value != "" then anchors[i].href else None)
    case None => None
  }

  /** The first anchor whose trimmed text is the guild name decides, however
      many others match: its non-empty `href`, or no URL at all. */
  lemma GuildUrlFirst(anchors: seq<Anchor>, guildName: string, i: nat)
    requires i < |anchors| && Trim(anchors[i].text) == guildName
    requires forall k :: 0 <= k < i ==> Trim(anchors[k].text) != guildName
    ensures GuildUrl(anchors, guildName) ==
      if anchors[i].href.Some? && anchors[i].href.value != "" then anchors[i].href else None
  {
    var j := LinkIndex(anchors, guildName);
    assert j == Some(i);
  }

  /** An anchor text that never matches gives no URL. */
  lemma GuildUrlNone(anchors: seq<Anchor>, guildName: string)
    requires forall k :: 0 <= k < |anchors| ==> Trim(anchors[k].text) != guildName
    ensures GuildUrl(anchors, guildName).None?
  {
  }

  /** The `$('a').each(...)` loop that breaks on the first match. */
  method FindGuildUrl(anchors: seq<Anchor>, guildName: string) returns (url: Option<string>)
    ensures url == GuildUrl(anchors, guildName)
  {
    var guildUrl: Option<string> := None;
    var k := 0;
    while k < |anchors|
      invariant k <= |anchors|
      invariant forall j :: 0 <= j < k ==> Trim(anchors[j].text) != guildName
    {
      if Trim(anchors[k].text) == guildName {
        guildUrl := anchors[k].href;
        if guildUrl.Some? && guildUrl.value == "" {
          guildUrl := None;
        }
        GuildUrlFirst(anchors, guildName, k);
        return guildUrl;
      }
      k := k + 1;
    }
    GuildUrlNone(anchors, guildName);
    url := guildUrl;
  }

  /** The member row callback: two cells or more and a non-empty name. */
  function MemberRow(cells: Row): (m: Option<Member>)
    ensures m.Some? <==> |cells| >= 2 && ParsePlayerName(Trim(cells[0])) != ""
    ensures m.Some? ==> m.value == Member(ParsePlayerName(Trim(cells[0])), ParseVocation(Trim(cells[1])))
  {
    if |cells| < 2 then None
    else
      var playerName := ParsePlayerName(Trim(cells[0]));
      if playerName != "" then Some(Member(playerName, ParseVocation(Trim(cells[1])))) else None
  }

  /** Every parsed member has a non-empty name free of titles and a
      promoted (or no) vocation. */
  predicate WellFormed(m: Member) {
    m.name != "" && NoClosedGroup(m.name) && IsTrimmed(m.name) && !m.vocation.IsBase()
  }

  lemma MemberRowWellFormed(cells: Row)
    ensures MemberRow(cells).Some? ==> WellFormed(MemberRow(cells).value)
  {
  }

  /** The server's guild list, by form payload. */
  type FetchGuilds = map<string, FormValue> -> Response<seq<Anchor>>

  /** A guild page, by URL. */
  type FetchGuild = string -> Response<Table>

  /** What `scrapeGuildMembers` returns or throws: a guild missing from the
      list gives no members. */
  function Roster(guilds: FetchGuilds, guild: FetchGuild, serverName: string, guildName: string): Result<seq<Member>> {
    match Checked(guilds(ServerPayload(serverName)), "guilds page")
    case Err(m) => Err(m)
    case Ok(anchors) =>
      match GuildUrl(anchors, guildName)
      case None => Ok([])
      case Some(url) =>
        match Checked(guild(url), "guild page")
        case Err(m) => Err(m)
        case Ok(rows) => Ok(Kept(rows, MemberRow, |rows|))
  }

  /** A failing guild list is passed on, and a guild missing from it gives
      no members. */
  lemma RosterNotFound(guilds: FetchGuilds, guild: FetchGuild, serverName: string, guildName: string)
    ensures match Checked(guilds(ServerPayload(serverName)), "guilds page")
      case Err(m) => Roster(guilds, guild, serverName, guildName) == Err(m)
      case Ok(anchors) => GuildUrl(anchors, guildName).None? ==> Roster(guilds, guild, serverName, guildName) == Ok([])
  {
  }

  /** Every member of a loaded roster is well formed. */
  lemma RosterWellFormed(guilds: FetchGuilds, guild: FetchGuild, serverName: string, guildName: string)
    ensures var r := Roster(guilds, guild, serverName, guildName);
      r.Ok? ==> forall m :: m in r.value ==> WellFormed(m)
  {
    match Checked(guilds(ServerPayload(serverName)), "guilds page")
    case Err(_) =>
    case Ok(anchors) =>
      match GuildUrl(anchors, guildName)
      case None =>
      case Some(url) =>
        match Checked(guild(url), "guild page")
        case Err(_) =>
        case Ok(rows) =>
          KeptAll(rows, MemberRow, |rows|, WellFormed);
  }

  /** A found guild's members are the parsed rows of its page. */
  lemma RosterFound(guilds: FetchGuilds, guild: FetchGuild, serverName: string, guildName: string, anchors: seq<Anchor>, url: string)
    requires guilds(ServerPayload(serverName)) == Response(200, anchors)
    requires GuildUrl(anchors, guildName) == Some(url)
    ensures guild(url).Response? && guild(url).status == 200 ==>
      Roster(guilds, guild, serverName, guildName) == Ok(Kept(guild(url).body, MemberRow, |guild(url).body|))
    ensures !(guild(url).Response? && guild(url).status == 200) ==> Roster(guilds, guild, serverName, guildName).Err?
  {
  }

  method ScrapeGuildMembers(guilds: FetchGuilds, guild: FetchGuild, serverName: string, guildName: string)
    returns (r: Result<seq<Member>>)
    ensures r == Roster(guilds, guild, serverName, guildName)
  {
    match Checked(guilds(ServerPayload(serverName)), "guilds page")
    case Err(m) =>
      r := Err(m);
    case Ok(anchors) =>
      var url := FindGuildUrl(anchors, guildName);
      if url.None? {
        return Ok([]);
      }
      match Checked(guild(url.value), "guild page")
      case Err(m) =>
        r := Err(m);
      case Ok(rows) =>
        var members := EachRow(rows, MemberRow);
        r := Ok(members);
  }

  // ---------------------------------------------------------------------
  // Storing a roster
  // ---------------------------------------------------------------------

  /** A row of the guilds query: `SELECT g.id, g.name, g.server_id,
      s.name AS server_name FROM guilds g INNER JOIN servers s`. */
  datatype GuildRow = GuildRow(id: GuildId, name: string, serverId: ServerId, serverName: string)

  /** The join over `ids`, in their order: a guild whose server has no row
      is dropped. */
  function JoinRows(db: Db, ids: seq<GuildId>): (rows: seq<GuildRow>)
    ensures |rows| <= |ids|
    ensures forall i :: 0 <= i < |rows| ==>
      rows[i].id in ids &&
      rows[i].id in db.guilds && rows[i].serverId == db.guilds[rows[i].id].server &&
      rows[i].serverId in db.servers && rows[i].serverName == db.servers[rows[i].serverId] &&
      rows[i].name == db.guilds[rows[i].id].name
  {
    if |ids| == 0 then []
    else
      var id := ids[|ids| - 1];
      JoinRows(db, ids[..|ids| - 1]) +
        (if id in db.guilds && db.guilds[id].server in db.servers
         then [GuildRow(id, db.guilds[id].name, db.guilds[id].server, db.servers[db.guilds[id].server])]
         else [])
  }

  /** Every listed guild whose server exists has a row. */
  lemma {:induction false} JoinRowsComplete(db: Db, ids: seq<GuildId>, id: GuildId)
    requires id in ids && id in db.guilds && db.guilds[id].server in db.servers
    ensures exists i :: 0 <= i < |JoinRows(db, ids)| && JoinRows(db, ids)[i].id == id
  {
    var n := |ids| - 1;
    var front := JoinRows(db, ids[..n]);
    if ids[n] == id {
      assert JoinRows(db, ids)[|front|].id == id;
    } else {
      assert id in ids[..n];
      JoinRowsComplete(db, ids[..n], id);
      var i :| 0 <= i < |front| && front[i].id == id;
      assert JoinRows(db, ids)[i] == front[i];
    }
  }

  /** Distinct ids give rows with distinct ids. */
  lemma {:induction false} JoinRowsDistinct(db: Db, ids: seq<GuildId>)
    requires forall i, j :: 0 <= i < j < |ids| ==> ids[i] != ids[j]
    ensures forall i, j :: 0 <= i < j < |JoinRows(db, ids)| ==> JoinRows(db, ids)[i].id != JoinRows(db, ids)[j].id
  {
    if |ids| > 0 {
      var n := |ids| - 1;
      JoinRowsDistinct(db, ids[..n]);
      var front := JoinRows(db, ids[..n]);
      assert forall i :: 0 <= i < |front| ==> front[i].id != ids[n] by {
        forall i | 0 <= i < |front|
          ensures front[i].id != ids[n]
        {
          var k :| 0 <= k < n && ids[..n][k] == front[i].id;
          assert ids[k] != ids[n];
        }
      }
    }
  }

  /** The query's rows, `ordered` being the guilds table in (server name,
      guild name) order: every guild whose server exists comes exactly once,
      with its own name and its server's id and name. */
  function GuildRows(db: Db, ordered: seq<GuildId>): (rows: seq<GuildRow>)
    requires ListsEachOnce(ordered, db.guilds.Keys)
    ensures forall i :: 0 <= i < |rows| ==>
      rows[i].id in db.guilds && rows[i].serverId == db.guilds[rows[i].id].server &&
      rows[i].serverId in db.servers && rows[i].serverName == db.servers[rows[i].serverId] &&
      rows[i].name == db.guilds[rows[i].id].name
    ensures forall id :: id in db.guilds && db.guilds[id].server in db.servers ==>
      exists i :: 0 <= i < |rows| && rows[i].id == id
    ensures forall i, j :: 0 <= i < j < |rows| ==> rows[i].id != rows[j].id
  {
    JoinRowsDistinct(db, ordered);
    assert forall id :: id in db.guilds && db.guilds[id].server in db.servers ==>
      exists i :: 0 <= i < |JoinRows(db, ordered)| && JoinRows(db, ordered)[i].id == id by {
      forall id | id in db.guilds && db.guilds[id].server in db.servers
        ensures exists i :: 0 <= i < |JoinRows(db, ordered)| && JoinRows(db, ordered)[i].id == id
      {
        JoinRowsComplete(db, ordered, id);
      }
    }
    JoinRows(db, ordered)
  }

  /** The player upsert: a new player starts at level 1; an existing one
      takes the vocation and the guild and keeps its level. */
  function UpsertMember(players: map<PlayerKey, Player>, guild: GuildId, server: ServerId, m: Member): (players': map<PlayerKey, Player>)
    ensures players'.Keys == players.Keys + {PlayerKey(m.name, server)}
    ensures var key := PlayerKey(m.name, server);
      players'[key] == Player(m.vocation, if key in players then players[key].level else 1, Some(guild))
    ensures forall k :: k in players && k != PlayerKey(m.name, server) ==> players'[k] == players[k]
  {
    var key := PlayerKey(m.name, server);
    if key in players then players[key := players[key].(vocation := m.vocation, guild := Some(guild))]
    else players[key := Player(m.vocation, 1, Some(guild))]
  }

  /** One member: a snapshot row, then the player upsert. */
  function StoreMember(db: Db, g: GuildRow, m: Member, snapshotTime: nat): Db {
    db.(rosters := db.rosters + [RosterRow(g.id, m.name, m.vocation, snapshotTime)],
        players := UpsertMember(db.players, g.id, g.serverId, m))
  }

  /** A guild's members stored in order, at one snapshot time. */
  function StoreAll(db: Db, g: GuildRow, members: seq<Member>, snapshotTime: nat): Db {
    if |members| == 0 then db
    else StoreMember(StoreAll(db, g, members[..|members| - 1], snapshotTime), g, members[|members| - 1], snapshotTime)
  }

  /** The snapshot rows of one guild's run. */
  function SnapshotRows(g: GuildRow, members: seq<Member>, snapshotTime: nat): (rows: seq<RosterRow>)
    ensures |rows| == |members|
    ensures forall i :: 0 <= i < |rows| ==> rows[i] == RosterRow(g.id, members[i].name, members[i].vocation, snapshotTime)
  {
    seq(|members|, i requires 0 <= i < |members| => RosterRow(g.id, members[i].name, members[i].vocation, snapshotTime))
  }

  /** One snapshot row per member, all at the same time, appended to the
      old rows; only the snapshots and the players change. */
  lemma {:induction false} StoreAllRoster(db: Db, g: GuildRow, members: seq<Member>, snapshotTime: nat)
    ensures var after := StoreAll(db, g, members, snapshotTime);
      && after.rosters == db.rosters + SnapshotRows(g, members, snapshotTime)
      && after == db.(rosters := after.rosters, players := after.players)
  {
    if |members| > 0 {
      var init := members[..|members| - 1];
      StoreAllRoster(db, g, init, snapshotTime);
      assert SnapshotRows(g, members, snapshotTime) ==
        SnapshotRows(g, init, snapshotTime) + [RosterRow(g.id, members[|members| - 1].name, members[|members| - 1].vocation, snapshotTime)];
    }
  }

  /** The player keys of a guild's members. */
  function MemberKeys(members: seq<Member>, server: ServerId): (keys: set<PlayerKey>)
    ensures forall i :: 0 <= i < |members| ==> PlayerKey(members[i].name, server) in keys
    ensures forall k :: k in keys ==> exists i :: 0 <= i < |members| && k == PlayerKey(members[i].name, server)
  {
    if |members| == 0 then {}
    else MemberKeys(members[..|members| - 1], server) + {PlayerKey(members[|members| - 1].name, server)}
  }

  /** Afterwards the players are the old ones and the members. */
  lemma {:induction false} StoreAllKeys(db: Db, g: GuildRow, members: seq<Member>, snapshotTime: nat)
    ensures StoreAll(db, g, members, snapshotTime).players.Keys == db.players.Keys + MemberKeys(members, g.serverId)
  {
    if |members| > 0 {
      StoreAllKeys(db, g, members[..|members| - 1], snapshotTime);
    }
  }

  /** A player keeps its level, and a new player has level 1. */
  lemma {:induction false} StoreAllLevels(db: Db, g: GuildRow, members: seq<Member>, snapshotTime: nat)
    ensures var players := StoreAll(db, g, members, snapshotTime).players;
      forall k :: k in players ==> players[k].level == if k in db.players then db.players[k].level else 1
  {
    if |members| > 0 {
      var before := StoreAll(db, g, members[..|members| - 1], snapshotTime).players;
      StoreAllLevels(db, g, members[..|members| - 1], snapshotTime);
      StoreAllKeys(db, g, members[..|members| - 1], snapshotTime);
      var after := UpsertMember(before, g.id, g.serverId, members[|members| - 1]);
      assert StoreAll(db, g, members, snapshotTime).players == after;
      forall k | k in after
        ensures after[k].level == if k in db.players then db.players[k].level else 1
      {
        if k in before {
          assert after[k].level == before[k].level;
        }
      }
    }
  }

  /** A player that is not a member is untouched. */
  lemma {:induction false} StoreAllUntouched(db: Db, g: GuildRow, members: seq<Member>, snapshotTime: nat, k: PlayerKey)
    requires k in db.players && k !in MemberKeys(members, g.serverId)
    ensures k in StoreAll(db, g, members, snapshotTime).players
    ensures StoreAll(db, g, members, snapshotTime).players[k] == db.players[k]
  {
    if |members| > 0 {
      StoreAllUntouched(db, g, members[..|members| - 1], snapshotTime, k);
    }
  }

  /** Every member ends up in the guild, and with the vocation of the last
      row that names it. */
  lemma {:induction false} StoreAllLastWins(db: Db, g: GuildRow, members: seq<Member>, snapshotTime: nat, i: nat)
    requires i < |members|
    requires forall j :: i < j < |members| ==> members[j].name != members[i].name
    ensures var players := StoreAll(db, g, members, snapshotTime).players;
      var key := PlayerKey(members[i].name, g.serverId);
      key in players && players[key].vocation == members[i].vocation && players[key].guild == Some(g.id)
  {
    var init := members[..|members| - 1];
    if i < |members| - 1 {
      assert forall j :: i < j < |init| ==> init[j] == members[j];
      StoreAllLastWins(db, g, init, snapshotTime, i);
    }
  }

  /** The insert-then-upsert loop of one guild. */
  method StoreMembers(db: Db, g: GuildRow, members: seq<Member>, snapshotTime: nat) returns (db': Db)
    ensures db' == StoreAll(db, g, members, snapshotTime)
  {
    db' := db;
    var k := 0;
    while k < |members|
      invariant k <= |members|
      invariant db' == StoreAll(db, g, members[..k], snapshotTime)
    {
      assert members[..k + 1][..k] == members[..k];
      var m := members[k];
      db' := db'.(rosters := db'.rosters + [RosterRow(g.id, m.name, m.vocation, snapshotTime)]);
      db' := db'.(players := UpsertMember(db'.players, g.id, g.serverId, m));
      k := k + 1;
    }
    assert members[..k] == members;
  }

  // ---------------------------------------------------------------------
  // The whole cycle
  // ---------------------------------------------------------------------

  /** One element of the scraper's result. */
  datatype GuildMembersData = GuildMembersData(guildId: GuildId, guildName: string, serverId: ServerId, serverName: string, members: seq<Member>)

  /** What `scrapeGuildMembers` gives for each (server name, guild name). */
  type Rosters = (string, string) -> Result<seq<Member>>

  function RostersOf(guilds: FetchGuilds, guild: FetchGuild): Rosters {
    (serverName, guildName) => Roster(guilds, guild, serverName, guildName)
  }

  /** The guilds whose roster loaded, in order, with their members (a guild
      that was not found is reported with none). */
  function Succeeded(rosters: Rosters, rows: seq<GuildRow>): seq<GuildMembersData> {
    if |rows| == 0 then []
    else
      var g := rows[|rows| - 1];
      Succeeded(rosters, rows[..|rows| - 1]) +
        match rosters(g.serverName, g.name)
        case Ok(members) => [GuildMembersData(g.id, g.name, g.serverId, g.serverName, members)]
        case Err(_) => []
  }

  lemma SucceededSnoc(rosters: Rosters, rows: seq<GuildRow>, g: GuildRow)
    ensures Succeeded(rosters, rows + [g]) == Succeeded(rosters, rows) +
      match rosters(g.serverName, g.name)
      case Ok(members) => [GuildMembersData(g.id, g.name, g.serverId, g.serverName, members)]
      case Err(_) => []
  {
    assert (rows + [g])[..|rows|] == rows;
  }

  /** Every stored roster, in order; `snapshotTime` is the clock reading of
      each guild's store. */
  function ApplyGuilds(db: Db, data: seq<GuildMembersData>, snapshotTime: GuildId -> nat): Db {
    if |data| == 0 then db
    else
      var d := data[|data| - 1];
      StoreAll(ApplyGuilds(db, data[..|data| - 1], snapshotTime),
               GuildRow(d.guildId, d.guildName, d.serverId, d.serverName), d.members, snapshotTime(d.guildId))
  }

  lemma ApplyGuildsSnoc(db: Db, data: seq<GuildMembersData>, d: GuildMembersData, snapshotTime: GuildId -> nat)
    ensures ApplyGuilds(db, data + [d], snapshotTime) ==
      StoreAll(ApplyGuilds(db, data, snapshotTime), GuildRow(d.guildId, d.guildName, d.serverId, d.serverName), d.members, snapshotTime(d.guildId))
  {
    assert (data + [d])[..|data|] == data;
  }

  /** `scrape`: each configured guild in turn; a guild that fails is
      skipped and the loop goes on. */
  method Scrape(db: Db, ordered: seq<GuildId>, guilds: FetchGuilds, guild: FetchGuild, snapshotTime: GuildId -> nat)
    returns (result: ScrapeResult<seq<GuildMembersData>>, db': Db)
    requires ListsEachOnce(ordered, db.guilds.Keys)
    ensures result == Success(Succeeded(RostersOf(guilds, guild), GuildRows(db, ordered)))
    ensures db' == ApplyGuilds(db, Succeeded(RostersOf(guilds, guild), GuildRows(db, ordered)), snapshotTime)
  {
    var rows := GuildRows(db, ordered);
    if |rows| == 0 {
      return Success([]), db;
    }
    var results: seq<GuildMembersData> := [];
    db' := db;
    var s := 0;
    while s < |rows|
      invariant s <= |rows|
      invariant results == Succeeded(RostersOf(guilds, guild), rows[..s])
      invariant db' == ApplyGuilds(db, results, snapshotTime)
    {
      var g := rows[s];
      assert rows[..s + 1] == rows[..s] + [g];
      SucceededSnoc(RostersOf(guilds, guild), rows[..s], g);
      var members := ScrapeGuildMembers(guilds, guild, g.serverName, g.name);
      assert members == RostersOf(guilds, guild)(g.serverName, g.name);
      if members.Ok? {
        var d := GuildMembersData(g.id, g.name, g.serverId, g.serverName, members.value);
        ApplyGuildsSnoc(db, results, d, snapshotTime);
        db' := StoreMembers(db', g, members.value, snapshotTime(g.id));
        results := results + [d];
      }
      s := s + 1;
    }
    assert rows[..s] == rows;
    result := Success(results);
  }

  /** A cycle writes only roster rows and players, and never removes a
      roster row. */
  lemma {:induction false} ApplyGuildsFrame(db: Db, data: seq<GuildMembersData>, snapshotTime: GuildId -> nat)
    ensures var after := ApplyGuilds(db, data, snapshotTime);
      && db.rosters <= after.rosters
      && db.players.Keys <= after.players.Keys
      && after == db.(rosters := after.rosters, players := after.players)
  {
    if |data| > 0 {
      var d := data[|data| - 1];
      var before := ApplyGuilds(db, data[..|data| - 1], snapshotTime);
      var g := GuildRow(d.guildId, d.guildName, d.serverId, d.serverName);
      ApplyGuildsFrame(db, data[..|data| - 1], snapshotTime);
      StoreAllRoster(before, g, d.members, snapshotTime(d.guildId));
      StoreAllKeys(before, g, d.members, snapshotTime(d.guildId));
    }
  }
}
