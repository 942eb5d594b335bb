/** The entities of the tracker and the database tables they live in.

    Every table is a value: a map keyed by the table's natural key, or a
    sequence of rows in insertion order where the table has no natural key.
    Generated row ids are replaced by natural keys (a player is identified by
    its name and server, a hunting session by its position in the sessions
    table); guild ids come from a counter. Time is a natural number. */
module Models {
  import opened Wrappers

  /** The vocations a character can have; `NoVocation` is the source's
      `Vocation.NONE`. */
  datatype Vocation =
    | Knight | Sorcerer | Druid | Paladin
    | EliteKnight | MasterSorcerer | ElderDruid | RoyalPaladin
    | NoVocation
  {
    /** The enum's string value. */
    function Name(): string {
      match this
      case Knight => "Knight"
      case Sorcerer => "Sorcerer"
      case Druid => "Druid"
      case Paladin => "Paladin"
      case EliteKnight => "Elite Knight"
      case MasterSorcerer => "Master Sorcerer"
      case ElderDruid => "Elder Druid"
      case RoyalPaladin => "Royal Paladin"
      case NoVocation => "None"
    }

    predicate IsBase() {
      this == Knight || this == Sorcerer || this == Druid || this == Paladin
    }

    /** The promoted form of a base vocation; every other vocation is its own
        promotion. */
    function Promoted(): Vocation {
      match this
      case Knight => EliteKnight
      case Sorcerer => MasterSorcerer
      case Druid => ElderDruid
      case Paladin => RoyalPaladin
      case _ => this
    }

    /** The base form of a promoted vocation; every other vocation is its own
        base. */
    function Base(): Vocation {
      match this
      case EliteKnight => Knight
      case MasterSorcerer => Sorcerer
      case ElderDruid => Druid
      case RoyalPaladin => Paladin
      case _ => this
    }
  }

  type ServerId = string
  type GuildId = nat
  type UserId = nat

  /** The natural key of the players table: `UNIQUE (name, server_id)`. */
  datatype PlayerKey = PlayerKey(name: string, server: ServerId)

  /** A row of `players`, without its key. */
  datatype Player = Player(vocation: Vocation, level: int, guild: Option<GuildId>)

  /** A row of `player_status`, keyed by its player. */
  datatype PlayerStatus = PlayerStatus(isOnline: bool, isHunting: bool, lastSeen: Option<nat>)

  /** A row of `xp_snapshots`. */
  datatype Snapshot = Snapshot(level: int, experience: int, time: nat)

  /** A row of `hunting_sessions`. */
  datatype Session = Session(player: PlayerKey, start: nat, end: Option<nat>, xpGained: int, active: bool)

  /** A row of `deaths`. */
  datatype Death = Death(
    victimName: string,
    victim: Option<PlayerKey>,
    killer: Option<string>,
    time: nat,
    server: ServerId,
    isAllyDeath: bool)

  /** A row of `guilds`, without its id. */
  datatype Guild = Guild(name: string, server: ServerId, isAlly: bool)

  /** A row of `servers` as the scrapers select it: `SELECT id, name`. */
  datatype ServerRow = ServerRow(id: ServerId, name: string)

  type Hour = h: nat | h < 24
  type Day = d: nat | d < 7

  /** An (hour of day, day of week) bucket of the playtime histogram. */
  datatype Slot = Slot(hour: Hour, day: Day)

  /** The natural key of `playtime_patterns`:
      `UNIQUE (player_id, hour_of_day, day_of_week)`. */
  datatype PatternKey = PatternKey(player: PlayerKey, slot: Slot)

  /** A row of `guild_member_snapshots`. */
  datatype RosterRow = RosterRow(guild: GuildId, playerName: string, vocation: Vocation, time: nat)

  /** A row of `users`. */
  datatype User = User(
    id: UserId,
    username: string,
    passwordHash: string,
    isAdmin: bool,
    isApproved: bool,
    createdAt: nat)

  /** The `users` table: rows in insertion order and the next id to hand out. */
  datatype UserTable = UserTable(rows: seq<User>, nextId: UserId)

  /** The tables the scrapers and the guild service read and write. */
  datatype Db = Db(
    servers: map<ServerId, string>,
    guilds: map<GuildId, Guild>,
    nextGuildId: GuildId,
    players: map<PlayerKey, Player>,
    statuses: map<PlayerKey, PlayerStatus>,
    snapshots: map<PlayerKey, seq<Snapshot>>,
    sessions: seq<Session>,
    deaths: seq<Death>,
    patterns: map<PatternKey, nat>,
    rosters: seq<RosterRow>)

  /** `ordered` lists every key of a table exactly once: an ordering of the
      table, as an `ORDER BY` over all its rows gives. */
  predicate ListsEachOnce<K>(ordered: seq<K>, keys: set<K>) {
    && (forall k :: k in keys ==> k in ordered)
    && (forall i :: 0 <= i < |ordered| ==> ordered[i] in keys)
    && (forall i, j :: 0 <= i < j < |ordered| ==> ordered[i] != ordered[j])
  }
}
