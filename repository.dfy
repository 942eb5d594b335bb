/** The backend repository: the SQL builders that assemble a statement and
    its positional parameters step by step, and the single-statement
    upserts, updates and deletes, stated as updates of the tables. */
module Repository {
  import opened Wrappers
  import opened JsString
  import opened Models
  import Playtime

  // ---------------------------------------------------------------------
  // Statement builders
  // ---------------------------------------------------------------------

  /** A positional parameter. */
  datatype Param = Text(s: string) | Flag(b: bool) | Num(n: int) | Null

  /** A statement and its parameters; `$k` in the text is `params[k - 1]`. */
  datatype Query = Query(sql: string, params: seq<Param>)

  /** The `$k` placeholder. */
  function Placeholder(k: nat): string {
    "$" + NatToString(k)
  }

  /** One `column = $k` assignment a builder may add. */
  datatype Assign = Assign(column: string, value: Param)

  /** `<column> = $k`. */
  function Clause(column: string, k: nat): string {
    column + " = " + Placeholder(k)
  }

  /** The SET clauses of the given assignments, numbered from `from`. */
  function SetClauses(assigns: seq<Assign>, from: nat): (clauses: seq<string>)
    ensures |clauses| == |assigns|
  {
    if |assigns| == 0 then []
    else SetClauses(assigns[..|assigns| - 1], from) + [Clause(assigns[|assigns| - 1].column, from + |assigns| - 1)]
  }

  /** The values of the given assignments, in order. */
  function Values(assigns: seq<Assign>): (values: seq<Param>)
    ensures |values| == |assigns|
  {
    if |assigns| == 0 then [] else Values(assigns[..|assigns| - 1]) + [assigns[|assigns| - 1].value]
  }

  /** The i-th clause names placeholder `from + i` for the i-th column, whose
      value is the i-th value. */
  lemma {:induction false} ClausesNumbered(assigns: seq<Assign>, from: nat, i: nat)
    requires i < |assigns|
    ensures SetClauses(assigns, from)[i] == Clause(assigns[i].column, from + i)
    ensures Values(assigns)[i] == assigns[i].value
  {
    if i < |assigns| - 1 {
      ClausesNumbered(assigns[..|assigns| - 1], from, i);
    }
  }

  lemma AssignSnoc(assigns: seq<Assign>, a: Assign)
    ensures SetClauses(assigns + [a], 1) == SetClauses(assigns, 1) + [Clause(a.column, |assigns| + 1)]
    ensures Values(assigns + [a]) == Values(assigns) + [a.value]
  {
    assert (assigns + [a])[..|assigns|] == assigns;
  }

  /** `UPDATE <table> SET updated_at = NOW(), <col> = $1, ... WHERE id = $n
      RETURNING *`, with the values in clause order and the id last. */
  function UpdateQuery(table: string, assigns: seq<Assign>, id: Param): Query {
    Query(UpdateSql(table, ["updated_at = NOW()"] + SetClauses(assigns, 1), |assigns| + 1), Values(assigns) + [id])
  }

  /** The template `UPDATE <table> SET ${clauses} WHERE id = $${k} RETURNING *`. */
  function UpdateSql(table: string, clauses: seq<string>, k: nat): string {
    "UPDATE " + table + " SET " + Join(clauses, ", ") + " WHERE id = " + Placeholder(k) + " RETURNING *"
  }

  /** Every placeholder of an update binds the value it is written for: the
      i-th assignment reads `$i`, which is its own value, and the id reads the
      last placeholder. */
  lemma UpdateQueryBinds(table: string, assigns: seq<Assign>, id: Param)
    ensures var q := UpdateQuery(table, assigns, id);
      && |q.params| == |assigns| + 1
      && q.params[|assigns|] == id
      && (forall i :: 0 <= i < |assigns| ==> q.params[i] == assigns[i].value)
      && (forall i :: 0 <= i < |assigns| ==> SetClauses(assigns, 1)[i] == Clause(assigns[i].column, i + 1))
      && q.sql == UpdateSql(table, ["updated_at = NOW()"] + SetClauses(assigns, 1), |q.params|)
  {
    forall i | 0 <= i < |assigns|
      ensures UpdateQuery(table, assigns, id).params[i] == assigns[i].value
      ensures SetClauses(assigns, 1)[i] == Clause(assigns[i].column, i + 1)
    {
      ClausesNumbered(assigns, 1, i);
    }
  }

  /** The fields `updateGuild` sets, in its order: name, then `is_ally`. */
  function GuildAssigns(name: Option<string>, isAlly: Option<bool>): (assigns: seq<Assign>)
    ensures |assigns| == (if name.Some? then 1 else 0) + (if isAlly.Some? then 1 else 0)
  {
    (if name.Some? then [Assign("name", Text(name.value))] else []) +
    (if isAlly.Some? then [Assign("is_ally", Flag(isAlly.value))] else [])
  }

  /** A nullable text column's parameter. */
  function NullableText(s: Option<string>): Param {
    if s.Some? then Text(s.value) else Null
  }

  /** The fields `updatePlayer` sets, in its order: vocation, level, then
      `guild_id` (which may be set to null). */
  function PlayerAssigns(vocation: Option<Vocation>, level: Option<int>, guildId: Option<Option<string>>): (assigns: seq<Assign>)
    ensures |assigns| == (if vocation.Some? then 1 else 0) + (if level.Some? then 1 else 0) + (if guildId.Some? then 1 else 0)
  {
    (if vocation.Some? then [Assign("vocation", Text(vocation.value.Name()))] else []) +
    (if level.Some? then [Assign("level", Num(level.value))] else []) +
    (if guildId.Some? then [Assign("guild_id", NullableText(guildId.value))] else [])
  }

  /** A builder's state after the given assignments: the timestamp clause
      and one clause per assignment, their values, and the next placeholder. */
  predicate Built(setClauses: seq<string>, params: seq<Param>, paramIndex: nat, assigns: seq<Assign>) {
    && setClauses == ["updated_at = NOW()"] + SetClauses(assigns, 1)
    && params == Values(assigns)
    && paramIndex == |assigns| + 1
  }

  /** One `if (field !== undefined)` step of a builder: push the clause for
      the next placeholder and the value, and move to the next placeholder. */
  method PushAssign(setClauses: seq<string>, params: seq<Param>, paramIndex: nat, ghost assigns: seq<Assign>, column: string, value: Param)
    returns (setClauses': seq<string>, params': seq<Param>, paramIndex': nat)
    requires Built(setClauses, params, paramIndex, assigns)
    ensures Built(setClauses', params', paramIndex', assigns + [Assign(column, value)])
  {
    AssignSnoc(assigns, Assign(column, value));
    setClauses' := setClauses + [Clause(column, paramIndex)];
    paramIndex' := paramIndex + 1;
    params' := params + [value];
  }

  /** `updateGuild`'s builder: each present field pushes a clause that
      names the next placeholder, and its value. */
  method UpdateGuildQuery(id: string, name: Option<string>, isAlly: Option<bool>) returns (q: Query)
    ensures q == UpdateQuery("guilds", GuildAssigns(name, isAlly), Text(id))
  {
    var setClauses := ["updated_at = NOW()"];
    var params: seq<Param> := [];
    var paramIndex: nat := 1;
    ghost var assigns: seq<Assign> := [];
    if name.Some? {
      setClauses, params, paramIndex := PushAssign(setClauses, params, paramIndex, assigns, "name", Text(name.value));
      assigns := assigns + [Assign("name", Text(name.value))];
    }
    if isAlly.Some? {
      setClauses, params, paramIndex := PushAssign(setClauses, params, paramIndex, assigns, "is_ally", Flag(isAlly.value));
      assigns := assigns + [Assign("is_ally", Flag(isAlly.value))];
    }
    GuildAssignsCases(name, isAlly);
    assert assigns == GuildAssigns(name, isAlly);
    params := params + [Text(id)];
    q := Query(UpdateSql("guilds", setClauses, paramIndex), params);
  }

  /** `updatePlayer`'s builder. */
  method UpdatePlayerQuery(id: string, vocation: Option<Vocation>, level: Option<int>, guildId: Option<Option<string>>) returns (q: Query)
    ensures q == UpdateQuery("players", PlayerAssigns(vocation, level, guildId), Text(id))
  {
    var setClauses := ["updated_at = NOW()"];
    var params: seq<Param> := [];
    var paramIndex: nat := 1;
    ghost var assigns: seq<Assign> := [];
    if vocation.Some? {
      setClauses, params, paramIndex := PushAssign(setClauses, params, paramIndex, assigns, "vocation", Text(vocation.value.Name()));
      assigns := assigns + [Assign("vocation", Text(vocation.value.Name()))];
    }
    if level.Some? {
      setClauses, params, paramIndex := PushAssign(setClauses, params, paramIndex, assigns, "level", Num(level.value));
      assigns := assigns + [Assign("level", Num(level.value))];
    }
    if guildId.Some? {
      var value := NullableText(guildId.value);
      setClauses, params, paramIndex := PushAssign(setClauses, params, paramIndex, assigns, "guild_id", value);
      assigns := assigns + [Assign("guild_id", value)];
    }
    PlayerAssignsCases(vocation, level, guildId);
    assert assigns == PlayerAssigns(vocation, level, guildId);
    params := params + [Text(id)];
    q := Query(UpdateSql("players", setClauses, paramIndex), params);
  }

  /** `GuildAssigns` as the builder grows it, one field at a time. */
  lemma GuildAssignsCases(name: Option<string>, isAlly: Option<bool>)
    ensures var a := if name.Some? then [] + [Assign("name", Text(name.value))] else [];
      var b := if isAlly.Some? then a + [Assign("is_ally", Flag(isAlly.value))] else a;
      GuildAssigns(name, isAlly) == b
  {
  }

  /** `PlayerAssigns` as the builder grows it, one field at a time. */
  lemma PlayerAssignsCases(vocation: Option<Vocation>, level: Option<int>, guildId: Option<Option<string>>)
    ensures var a := if vocation.Some? then [] + [Assign("vocation", Text(vocation.value.Name()))] else [];
      var b := if level.Some? then a + [Assign("level", Num(level.value))] else a;
      var c := if guildId.Some? then b + [Assign("guild_id", NullableText(guildId.value))] else b;
      PlayerAssigns(vocation, level, guildId) == c
  {
  }

  /** With nothing to update, only the timestamp is set and the id is `$1`. */
  lemma UpdateNothing(table: string, id: Param)
    ensures UpdateQuery(table, [], id).params == [id]
    ensures UpdateQuery(table, [], id).sql == "UPDATE " + table + " SET " + "updated_at = NOW()" + " WHERE id = " + "$1" + " RETURNING *"
  {
    assert DigitChar(1) == '1';
  }

  /** Both guild fields: name is `$1`, `is_ally` is `$2`, the id is `$3`. */
  lemma UpdateGuildBoth(id: string, name: string, isAlly: bool)
    ensures var assigns := GuildAssigns(Some(name), Some(isAlly));
      && SetClauses(assigns, 1) == [Clause("name", 1), Clause("is_ally", 2)]
      && UpdateQuery("guilds", assigns, Text(id)).params == [Text(name), Flag(isAlly), Text(id)]
      && Placeholder(|assigns| + 1) == "$3"
  {
    var assigns := GuildAssigns(Some(name), Some(isAlly));
    assert assigns == [Assign("name", Text(name)), Assign("is_ally", Flag(isAlly))];
    assert assigns[..1] == [Assign("name", Text(name))];
    assert assigns[..1][..0] == [];
    assert SetClauses(assigns[..1], 1) == [Clause("name", 1)];
    assert Values(assigns[..1]) == [Text(name)];
    assert DigitChar(3) == '3';
  }

  /** `getScraperLogs`'s builder: an optional type filter, then the limit
      (100 by default) as the last placeholder. */
  method ScraperLogsQuery(scraperType: Option<string>, limit: Option<int>) returns (q: Query)
    ensures Truthy(scraperType) ==> q.params == [Text(scraperType.value), Num(limit.GetOr(100))]
    ensures !Truthy(scraperType) ==> q.params == [Num(limit.GetOr(100))]
    ensures q.sql == "SELECT * FROM scraper_logs"
                     + (if Truthy(scraperType) then " WHERE scraper_type = $1" else "")
                     + " ORDER BY created_at DESC LIMIT " + Placeholder(|q.params|)
  {
    var query := "SELECT * FROM scraper_logs";
    var params: seq<Param> := [];
    if scraperType.Some? && scraperType.value != "" {
      query := query + " WHERE scraper_type = $1";
      params := params + [Text(scraperType.value)];
    }
    query := query + " ORDER BY created_at DESC LIMIT " + Placeholder(|params| + 1);
    params := params + [Num(limit.GetOr(100))];
    q := Query(query, params);
  }

  /** `getAllGuilds`'s builder: an optional server filter, ordered by name. */
  method AllGuildsQuery(serverId: Option<string>) returns (q: Query)
    ensures q.params == if Truthy(serverId) then [Text(serverId.value)] else []
    ensures q.sql == "SELECT * FROM guilds" + (if Truthy(serverId) then " WHERE server_id = $1" else "") + " ORDER BY name"
  {
    var query := "SELECT * FROM guilds";
    var params: seq<Param> := [];
    if serverId.Some? && serverId.value != "" {
      query := query + " WHERE server_id = $1";
      params := params + [Text(serverId.value)];
    }
    query := query + " ORDER BY name";
    q := Query(query, params);
  }

  // ---------------------------------------------------------------------
  // Table updates
  // ---------------------------------------------------------------------

  /** The `servers`-scoped guild list of `getAllGuilds`: every guild when the
      filter is empty. */
  function AllGuilds(guilds: map<GuildId, Guild>, serverId: Option<string>): (ids: set<GuildId>)
    ensures forall id :: id in ids <==> id in guilds && (Truthy(serverId) ==> guilds[id].server == serverId.value)
  {
    set id | id in guilds && (Truthy(serverId) ==> guilds[id].server == serverId.value)
  }

  /** `getAllyGuilds` / `getEnemyGuilds`: a server's guilds with the flag. */
  function GuildsWithFlag(guilds: map<GuildId, Guild>, serverId: ServerId, isAlly: bool): (ids: set<GuildId>)
    ensures forall id :: id in ids <==> id in guilds && guilds[id].server == serverId && guilds[id].isAlly == isAlly
  {
    set id | id in guilds && guilds[id].server == serverId && guilds[id].isAlly == isAlly
  }

  /** A server's guilds split exactly into allies and enemies. */
  lemma AlliesAndEnemies(guilds: map<GuildId, Guild>, serverId: ServerId)
    requires serverId != ""
    ensures GuildsWithFlag(guilds, serverId, true) + GuildsWithFlag(guilds, serverId, false) == AllGuilds(guilds, Some(serverId))
    ensures GuildsWithFlag(guilds, serverId, true) * GuildsWithFlag(guilds, serverId, false) == {}
  {
  }

  /** A guild other than `except` already has this name on this server. */
  predicate NameTaken(guilds: map<GuildId, Guild>, name: string, serverId: ServerId, except: Option<GuildId>) {
    exists id :: id in guilds && guilds[id].name == name && guilds[id].server == serverId && Some(id) != except
  }

  /** Names are unique per server. */
  predicate UniqueNames(guilds: map<GuildId, Guild>) {
    forall a, b :: a in guilds && b in guilds && a != b ==> !(guilds[a].name == guilds[b].name && guilds[a].server == guilds[b].server)
  }

  /** Ids handed out so far are below the counter. */
  predicate IdsBelow(guilds: map<GuildId, Guild>, nextId: GuildId) {
    forall id :: id in guilds ==> id < nextId
  }

  datatype Created = Created(guilds: map<GuildId, Guild>, nextId: GuildId, guild: GuildId)

  /** `createGuild`: a new row under a fresh id. */
  function CreateGuild(guilds: map<GuildId, Guild>, nextId: GuildId, name: string, serverId: ServerId, isAlly: bool): (c: Created)
    requires IdsBelow(guilds, nextId)
    ensures c.guild !in guilds && c.guilds == guilds[c.guild := Guild(name, serverId, isAlly)]
    ensures IdsBelow(c.guilds, c.nextId)
  {
    Created(guilds[nextId := Guild(name, serverId, isAlly)], nextId + 1, nextId)
  }

  /** Creating a guild whose name is free on its server keeps names unique. */
  lemma CreateGuildUnique(guilds: map<GuildId, Guild>, nextId: GuildId, name: string, serverId: ServerId, isAlly: bool)
    requires IdsBelow(guilds, nextId) && UniqueNames(guilds)
    requires !NameTaken(guilds, name, serverId, None)
    ensures UniqueNames(CreateGuild(guilds, nextId, name, serverId, isAlly).guilds)
  {
    var c := CreateGuild(guilds, nextId, name, serverId, isAlly);
    forall a, b | a in c.guilds && b in c.guilds && a != b
      ensures !(c.guilds[a].name == c.guilds[b].name && c.guilds[a].server == c.guilds[b].server)
    {
      if a == c.guild {
        assert b in guilds;
      } else if b == c.guild {
        assert a in guilds;
      }
    }
  }

  datatype Updated = Updated(guilds: map<GuildId, Guild>, row: Option<Guild>)

  /** `updateGuild` as executed: the given fields overwritten and the row
      returned, or no row for an unknown id. */
  function UpdateGuild(guilds: map<GuildId, Guild>, id: GuildId, name: Option<string>, isAlly: Option<bool>): (u: Updated)
    ensures u.row.Some? <==> id in guilds
    ensures id in guilds ==> u.row.value == Guild(name.GetOr(guilds[id].name), guilds[id].server, isAlly.GetOr(guilds[id].isAlly))
    ensures id in guilds ==> u.guilds == guilds[id := u.row.value]
    ensures id !in guilds ==> u.guilds == guilds
  {
    if id in guilds then
      var g := guilds[id].(name := name.GetOr(guilds[id].name), isAlly := isAlly.GetOr(guilds[id].isAlly));
      Updated(guilds[id := g], Some(g))
    else Updated(guilds, None)
  }

  /** Renaming to a name no other guild of the server has keeps names
      unique; an update without a name always does. */
  lemma UpdateGuildUnique(guilds: map<GuildId, Guild>, id: GuildId, name: Option<string>, isAlly: Option<bool>)
    requires UniqueNames(guilds) && id in guilds
    requires name.Some? ==> !NameTaken(guilds, name.value, guilds[id].server, Some(id))
    ensures UniqueNames(UpdateGuild(guilds, id, name, isAlly).guilds)
  {
    var u := UpdateGuild(guilds, id, name, isAlly).guilds;
    forall a, b | a in u && b in u && a != b
      ensures !(u[a].name == u[b].name && u[a].server == u[b].server)
    {
      if a == id {
        assert u[b] == guilds[b];
      } else if b == id {
        assert u[a] == guilds[a];
      }
    }
  }

  datatype Deleted = Deleted(guilds: map<GuildId, Guild>, deleted: bool)

  /** `deleteGuild`: true exactly when a row was removed. */
  function DeleteGuild(guilds: map<GuildId, Guild>, id: GuildId): (d: Deleted)
    ensures d.deleted <==> id in guilds
    ensures d.guilds.Keys == guilds.Keys - {id}
    ensures forall k :: k in d.guilds ==> d.guilds[k] == guilds[k]
  {
    Deleted(guilds - {id}, id in guilds)
  }

  /** Deleting twice: the second delete removes nothing. */
  lemma DeleteGuildTwice(guilds: map<GuildId, Guild>, id: GuildId)
    ensures !DeleteGuild(DeleteGuild(guilds, id).guilds, id).deleted
    ensures DeleteGuild(DeleteGuild(guilds, id).guilds, id).guilds == DeleteGuild(guilds, id).guilds
  {
  }

  /** `upsertPlayer`: keyed by (name, server); on conflict vocation, level
      and guild are overwritten. */
  function UpsertPlayer(players: map<PlayerKey, Player>, name: string, vocation: Vocation, level: int, serverId: ServerId, guild: Option<GuildId>): (players': map<PlayerKey, Player>)
    ensures players'.Keys == players.Keys + {PlayerKey(name, serverId)}
    ensures players'[PlayerKey(name, serverId)] == Player(vocation, level, guild)
    ensures forall k :: k in players && k != PlayerKey(name, serverId) ==> players'[k] == players[k]
  {
    players[PlayerKey(name, serverId) := Player(vocation, level, guild)]
  }

  /** Upserting the same player twice is upserting it once. */
  lemma UpsertPlayerIdempotent(players: map<PlayerKey, Player>, name: string, vocation: Vocation, level: int, serverId: ServerId, guild: Option<GuildId>)
    ensures UpsertPlayer(UpsertPlayer(players, name, vocation, level, serverId, guild), name, vocation, level, serverId, guild)
            == UpsertPlayer(players, name, vocation, level, serverId, guild)
  {
  }

  /** `upsertPlayerStatus`: `last_seen` becomes now when online, and is
      otherwise kept (null for a new row). */
  function UpsertPlayerStatus(statuses: map<PlayerKey, PlayerStatus>, key: PlayerKey, isOnline: bool, isHunting: bool, now: nat): (statuses': map<PlayerKey, PlayerStatus>)
    ensures statuses'.Keys == statuses.Keys + {key}
    ensures statuses'[key].isOnline == isOnline && statuses'[key].isHunting == isHunting
    ensures isOnline ==> statuses'[key].lastSeen == Some(now)
    ensures !isOnline ==> statuses'[key].lastSeen == (if key in statuses then statuses[key].lastSeen else None)
    ensures forall k :: k in statuses && k != key ==> statuses'[k] == statuses[k]
  {
    var lastSeen := if isOnline then Some(now) else if key in statuses then statuses[key].lastSeen else None;
    statuses[key := PlayerStatus(isOnline, isHunting, lastSeen)]
  }

  /** Going offline never forgets when a player was last seen. */
  lemma LastSeenKept(statuses: map<PlayerKey, PlayerStatus>, key: PlayerKey, isOnline: bool, isHunting: bool, now: nat)
    requires key in statuses && statuses[key].lastSeen.Some?
    ensures UpsertPlayerStatus(statuses, key, isOnline, isHunting, now)[key].lastSeen.Some?
  {
  }

  /** `upsertPlaytimePattern`: a new bucket starts at 1, an existing one goes
      up by exactly 1. */
  function UpsertPlaytimePattern(patterns: map<PatternKey, nat>, key: PatternKey): (patterns': map<PatternKey, nat>)
    ensures patterns'.Keys == patterns.Keys + {key}
    ensures key !in patterns ==> patterns'[key] == 1
    ensures key in patterns ==> patterns'[key] == patterns[key] + 1
    ensures forall k :: k in patterns && k != key ==> patterns'[k] == patterns[k]
  {
    patterns[key := if key in patterns then patterns[key] + 1 else 1]
  }

  /** The repository's upsert is the scraper's additive merge of a bucket
      seen once. */
  lemma UpsertPlaytimeIsMerge(patterns: map<PatternKey, nat>, player: PlayerKey, slot: Slot)
    ensures UpsertPlaytimePattern(patterns, PatternKey(player, slot)) == Playtime.Merge(patterns, player, Playtime.Pattern(slot, 1))
  {
  }

  // ---------------------------------------------------------------------
  // Users
  // ---------------------------------------------------------------------

  /** The first row from `k` on that `matches` accepts, when there is one;
      the rows before `k` are known not to match. */
  function FirstUser(rows: seq<User>, matches: User -> bool, k: nat): (u: Option<User>)
    requires k <= |rows|
    requires forall j :: 0 <= j < k ==> !matches(rows[j])
    ensures u.Some? ==> u.value in rows && matches(u.value)
    ensures u.None? ==> forall i :: 0 <= i < |rows| ==> !matches(rows[i])
    decreases |rows| - k
  {
    if k == |rows| then None
    else if matches(rows[k]) then Some(rows[k])
    else FirstUser(rows, matches, k + 1)
  }

  /** `getUserByUsername`: the row with this username. */
  function UserByUsername(users: UserTable, username: string): (u: Option<User>)
    ensures u.Some? ==> u.value in users.rows && u.value.username == username
    ensures u.None? ==> forall i :: 0 <= i < |users.rows| ==> users.rows[i].username != username
  {
    FirstUser(users.rows, (u: User) => u.username == username, 0)
  }

  /** `getUserById`. */
  function UserById(users: UserTable, id: UserId): (u: Option<User>)
    ensures u.Some? ==> u.value in users.rows && u.value.id == id
    ensures u.None? ==> forall i :: 0 <= i < |users.rows| ==> users.rows[i].id != id
  {
    FirstUser(users.rows, (u: User) => u.id == id, 0)
  }

  /** Ids handed out so far are below the counter. */
  predicate UserIdsBelow(users: UserTable) {
    forall i :: 0 <= i < |users.rows| ==> users.rows[i].id < users.nextId
  }

  datatype UserCreated = UserCreated(users: UserTable, user: User)

  /** `createUser`: a new row with a fresh id, neither admin nor approved. */
  function CreateUser(users: UserTable, username: string, passwordHash: string, now: nat): (c: UserCreated)
    requires UserIdsBelow(users)
    ensures c.user == User(users.nextId, username, passwordHash, false, false, now)
    ensures c.users.rows == users.rows + [c.user] && UserIdsBelow(c.users)
    ensures forall i :: 0 <= i < |users.rows| ==> users.rows[i].id != c.user.id
  {
    var u := User(users.nextId, username, passwordHash, false, false, now);
    UserCreated(UserTable(users.rows + [u], users.nextId + 1), u)
  }

  datatype UserUpdated = UserUpdated(users: UserTable, user: Option<User>)

  /** `approveUser` in the repository: the row with this id becomes
      approved and is returned; no row, no user. */
  function ApproveUser(users: UserTable, id: UserId): (a: UserUpdated)
    ensures a.user.Some? <==> exists i :: 0 <= i < |users.rows| && users.rows[i].id == id
    ensures a.user.Some? ==> a.user.value.id == id && a.user.value.isApproved && a.user.value in a.users.rows
    ensures |a.users.rows| == |users.rows| && a.users.nextId == users.nextId
    ensures forall i :: 0 <= i < |users.rows| ==>
      a.users.rows[i] == if users.rows[i].id == id then users.rows[i].(isApproved := true) else users.rows[i]
  {
    var rows := seq(|users.rows|, i requires 0 <= i < |users.rows| =>
      if users.rows[i].id == id then users.rows[i].(isApproved := true) else users.rows[i]);
    var found := UserById(users, id);
    assert found.Some? ==> exists i :: 0 <= i < |users.rows| && users.rows[i].id == id;
    assert found.Some? ==> found.value.(isApproved := true) in rows by {
      if found.Some? {
        var i :| 0 <= i < |users.rows| && users.rows[i] == found.value;
        assert rows[i] == found.value.(isApproved := true);
      }
    }
    UserUpdated(UserTable(rows, users.nextId), if found.Some? then Some(found.value.(isApproved := true)) else None)
  }

  /** `getPendingUsers`: the unapproved rows, in creation order. */
  function PendingUsers(rows: seq<User>): (pending: seq<User>)
    ensures forall u :: u in pending <==> u in rows && !u.isApproved
  {
    if |rows| == 0 then []
    else PendingUsers(rows[..|rows| - 1]) + (if rows[|rows| - 1].isApproved then [] else [rows[|rows| - 1]])
  }

  /** An approved user is no longer pending. */
  lemma ApprovedNotPending(users: UserTable, id: UserId)
    ensures forall u :: u in PendingUsers(ApproveUser(users, id).users.rows) ==> u.id != id
  {
  }
}
