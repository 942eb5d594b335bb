/** The backend's guild service: the checks it makes before creating,
    updating and deleting a guild, and its guild and member listings. */
module GuildService {
  import opened Wrappers
  import opened Models
  import Repository

  /** The guild table's own invariants: ids below the counter, and names
      unique per server. */
  predicate GuildsValid(db: Db) {
    Repository.IdsBelow(db.guilds, db.nextGuildId) && Repository.UniqueNames(db.guilds)
  }

  /** `createGuild`: the server must exist and the name must be free on it;
      then the guild is created under a fresh id. */
  method CreateGuild(db: Db, name: string, serverId: ServerId, isAlly: bool) returns (db': Db, r: Result<GuildId>)
    requires Repository.IdsBelow(db.guilds, db.nextGuildId)
    ensures serverId !in db.servers ==> r == Err("Server not found")
    ensures serverId in db.servers && Repository.NameTaken(db.guilds, name, serverId, None) ==>
      r == Err("Guild already exists for this server")
    ensures r.Ok? <==> serverId in db.servers && !Repository.NameTaken(db.guilds, name, serverId, None)
    ensures r.Err? ==> db' == db
    ensures r.Ok? ==> r.value !in db.guilds && db' == db.(guilds := db.guilds[r.value := Guild(name, serverId, isAlly)], nextGuildId := db'.nextGuildId)
    ensures Repository.IdsBelow(db'.guilds, db'.nextGuildId)
    ensures GuildsValid(db) ==> GuildsValid(db')
  {
    if serverId !in db.servers {
      return db, Err("Server not found");
    }
    if Repository.NameTaken(db.guilds, name, serverId, None) {
      return db, Err("Guild already exists for this server");
    }
    var created := Repository.CreateGuild(db.guilds, db.nextGuildId, name, serverId, isAlly);
    if Repository.UniqueNames(db.guilds) {
      Repository.CreateGuildUnique(db.guilds, db.nextGuildId, name, serverId, isAlly);
    }
    db' := db.(guilds := created.guilds, nextGuildId := created.nextId);
    r := Ok(created.guild);
  }

  /** `updateGuild`: an unknown id is 'Guild not found' and changes nothing;
      otherwise the given fields are overwritten. Unlike `createGuild`, no
      name check is made. */
  method UpdateGuild(db: Db, id: GuildId, name: Option<string>, isAlly: Option<bool>) returns (db': Db, r: Result<Guild>)
    ensures id !in db.guilds ==> r == Err("Guild not found") && db' == db
    ensures id in db.guilds ==> id in db'.guilds && r == Ok(db'.guilds[id])
    ensures id in db.guilds ==> db' == db.(guilds := Repository.UpdateGuild(db.guilds, id, name, isAlly).guilds)
    ensures id in db.guilds ==> r.value.server == db.guilds[id].server
    ensures id in db.guilds ==> r.value.name == name.GetOr(db.guilds[id].name) && r.value.isAlly == isAlly.GetOr(db.guilds[id].isAlly)
  {
    if id !in db.guilds {
      return db, Err("Guild not found");
    }
    var updated := Repository.UpdateGuild(db.guilds, id, name, isAlly);
    db' := db.(guilds := updated.guilds);
    r := Ok(updated.row.value);
  }

  /** Since `updateGuild` checks no names, a rename can give two guilds of
      one server the same name. */
  lemma UpdateGuildMayDuplicate(servers: map<ServerId, string>)
    ensures var db := Db(servers, map[0 := Guild("A", "s", true), 1 := Guild("B", "s", false)], 2, map[], map[], map[], [], [], map[], []);
      GuildsValid(db) && !Repository.UniqueNames(Repository.UpdateGuild(db.guilds, 1, Some("A"), None).guilds)
  {
    var guilds := map[0 := Guild("A", "s", true), 1 := Guild("B", "s", false)];
    var u := Repository.UpdateGuild(guilds, 1, Some("A"), None).guilds;
    assert u[0] == Guild("A", "s", true) && u[1] == Guild("A", "s", false);
  }

  /** ... while a rename to a name that is free on the server, or no rename,
      keeps names unique. */
  lemma UpdateGuildKeepsValid(db: Db, id: GuildId, name: Option<string>, isAlly: Option<bool>)
    requires GuildsValid(db) && id in db.guilds
    requires name.Some? ==> !Repository.NameTaken(db.guilds, name.value, db.guilds[id].server, Some(id))
    ensures GuildsValid(db.(guilds := Repository.UpdateGuild(db.guilds, id, name, isAlly).guilds))
  {
    Repository.UpdateGuildUnique(db.guilds, id, name, isAlly);
  }

  /** `deleteGuild`: an unknown id is 'Guild not found' and changes nothing;
      otherwise exactly that guild is removed. */
  method DeleteGuild(db: Db, id: GuildId) returns (db': Db, r: Outcome)
    ensures id !in db.guilds ==> r == Fail("Guild not found") && db' == db
    ensures id in db.guilds ==> r == Pass
    ensures db' == db.(guilds := db'.guilds)
    ensures db'.guilds.Keys == db.guilds.Keys - {id}
    ensures forall k :: k in db'.guilds ==> db'.guilds[k] == db.guilds[k]
    ensures GuildsValid(db) ==> GuildsValid(db')
  {
    if id !in db.guilds {
      return db, Fail("Guild not found");
    }
    var deleted := Repository.DeleteGuild(db.guilds, id);
    db' := db.(guilds := deleted.guilds);
    r := Pass;
  }

  /** `getGuildMembers`: the players whose guild is this one. */
  function GetGuildMembers(db: Db, guildId: GuildId): (r: Result<set<PlayerKey>>)
    ensures r.Err? <==> guildId !in db.guilds
    ensures r.Err? ==> r.error == "Guild not found"
    ensures r.Ok? ==> forall k :: k in r.value <==> k in db.players && db.players[k].guild == Some(guildId)
  {
    if guildId !in db.guilds then Err("Guild not found")
    else Ok(set k | k in db.players && db.players[k].guild == Some(guildId))
  }

  /** `getAllyGuilds` (`isAlly` true) and `getEnemyGuilds` (false): the
      server must exist. */
  function GetGuildsByFlag(db: Db, serverId: ServerId, isAlly: bool): (r: Result<set<GuildId>>)
    ensures r.Err? <==> serverId !in db.servers
    ensures r.Err? ==> r.error == "Server not found"
    ensures r.Ok? ==> forall id :: id in r.value <==> id in db.guilds && db.guilds[id].server == serverId && db.guilds[id].isAlly == isAlly
  {
    if serverId !in db.servers then Err("Server not found")
    else Ok(Repository.GuildsWithFlag(db.guilds, serverId, isAlly))
  }

  /** For an existing server, the allies and the enemies are disjoint and
      together are every guild of the server. */
  lemma AlliesAndEnemiesPartition(db: Db, serverId: ServerId)
    requires serverId in db.servers && serverId != ""
    ensures GetGuildsByFlag(db, serverId, true).value * GetGuildsByFlag(db, serverId, false).value == {}
    ensures GetGuildsByFlag(db, serverId, true).value + GetGuildsByFlag(db, serverId, false).value
      == Repository.AllGuilds(db.guilds, Some(serverId))
  {
    Repository.AlliesAndEnemies(db.guilds, serverId);
  }
}
