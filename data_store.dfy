/** The frontend's data store: the selected server, the lists the dashboard
    shows, and the WebSocket handlers that update them. Each handler
    computes a new list and replaces the store's field with it; socket
    subscriptions and API reloads are recorded as effects. */
module DataStore {
  import opened Wrappers

  /** The fields of a `Player` the store looks at: its id. */
  datatype OnlinePlayer = OnlinePlayer(id: string, name: string, level: int)

  /** The fields of a `HuntingSession` the store looks at. */
  datatype HuntingSession = HuntingSession(id: string, playerId: string, xpGained: Option<int>)

  /** The fields of a `Death` the store looks at. */
  datatype Death = Death(id: string, playerName: string, serverId: string)

  datatype Server = Server(id: string, name: string)
  datatype GuildEntry = GuildEntry(id: string, name: string)

  /** A call the store makes into code outside it: a socket subscription,
      or one of the `load*` reloads (which later replace a list wholesale). */
  datatype Effect =
    | Subscribe(server: string)
    | Unsubscribe(server: string)
    | LoadGuilds(server: string)
    | LoadOnlinePlayers(server: string)
    | LoadHuntingSessions(server: string)
    | LoadDeaths(server: string, limit: nat)

  /** The death list keeps the 50 most recent. */
  const MaxDeaths := 50

  /** `[x, ...xs].slice(0, cap)`. */
  function PrependCapped<T>(x: T, xs: seq<T>, cap: nat): (r: seq<T>)
    requires cap > 0
    ensures |r| == if |xs| + 1 < cap then |xs| + 1 else cap
    ensures r[0] == x
    ensures forall i :: 1 <= i < |r| ==> r[i] == xs[i - 1]
  {
    ([x] + xs)[..if |xs| + 1 < cap then |xs| + 1 else cap]
  }

  /** Under the cap, prepending loses nothing. */
  lemma PrependUnderCap<T>(x: T, xs: seq<T>, cap: nat)
    requires |xs| < cap
    ensures PrependCapped(x, xs, cap) == [x] + xs
  {
  }

  /** `findIndex(s => s.id === id)`: the first session with this id. */
  function FindIndex(sessions: seq<HuntingSession>, id: string): (i: Option<nat>)
    ensures i.Some? ==> i.value < |sessions| && sessions[i.value].id == id
    ensures i.Some? ==> forall j :: 0 <= j < i.value ==> sessions[j].id != id
    ensures i.None? <==> forall j :: 0 <= j < |sessions| ==> sessions[j].id != id
  {
    if |sessions| == 0 then None
    else if sessions[0].id == id then Some(0)
    else match FindIndex(sessions[1..], id) {
      case Some(k) => Some(k + 1)
      case None => None
    }
  }

  /** `handleHuntingUpdate`'s new list: replace the first session with the
      same id in place, or put the new one first. */
  function UpsertSession(sessions: seq<HuntingSession>, s: HuntingSession): (r: seq<HuntingSession>)
    ensures FindIndex(sessions, s.id).Some? ==>
      var i := FindIndex(sessions, s.id).value;
      |r| == |sessions| && r[i] == s && forall j :: 0 <= j < |r| && j != i ==> r[j] == sessions[j]
    ensures FindIndex(sessions, s.id).None? ==> r == [s] + sessions
  {
    match FindIndex(sessions, s.id) {
      case Some(i) => sessions[i := s]
      case None => [s] + sessions
    }
  }

  /** After an update the session is in the list, and a second identical
      update changes nothing. */
  lemma {:induction false} UpsertSessionIdempotent(sessions: seq<HuntingSession>, s: HuntingSession)
    ensures s in UpsertSession(sessions, s)
    ensures UpsertSession(UpsertSession(sessions, s), s) == UpsertSession(sessions, s)
  {
    var r := UpsertSession(sessions, s);
    match FindIndex(sessions, s.id) {
      case Some(i) =>
        assert r[i] == s;
        var k := FindIndex(r, s.id);
        assert k == Some(i) by {
          assert forall j :: 0 <= j < i ==> r[j] == sessions[j];
        }
      case None =>
        assert r[0] == s;
        assert FindIndex(r, s.id) == Some(0);
    }
  }

  /** `onlinePlayers.filter(p => p.id !== playerId)`. */
  function RemovePlayer(players: seq<OnlinePlayer>, playerId: string): (r: seq<OnlinePlayer>)
    ensures forall p :: p in r <==> p in players && p.id != playerId
    ensures |r| <= |players|
  {
    if |players| == 0 then []
    else
      var last := players[|players| - 1];
      RemovePlayer(players[..|players| - 1], playerId) + (if last.id == playerId then [] else [last])
  }

  /** The filter keeps the others in their order: filtering a concatenation
      concatenates the filtered parts. */
  lemma {:induction false} RemovePlayerAppend(a: seq<OnlinePlayer>, b: seq<OnlinePlayer>, playerId: string)
    ensures RemovePlayer(a + b, playerId) == RemovePlayer(a, playerId) + RemovePlayer(b, playerId)
    decreases |b|
  {
    if |b| == 0 {
      assert a + b == a;
    } else {
      assert (a + b)[..|a + b| - 1] == a + b[..|b| - 1];
      RemovePlayerAppend(a, b[..|b| - 1], playerId);
    }
  }

  /** Removing a player that is not listed leaves the list as it is. */
  lemma {:induction false} RemovePlayerAbsent(players: seq<OnlinePlayer>, playerId: string)
    requires forall i :: 0 <= i < |players| ==> players[i].id != playerId
    ensures RemovePlayer(players, playerId) == players
  {
    if |players| > 0 {
      RemovePlayerAbsent(players[..|players| - 1], playerId);
    }
  }

  /** `onlinePlayers.some(p => p.id === playerId)`. */
  predicate Listed(players: seq<OnlinePlayer>, playerId: string) {
    exists i :: 0 <= i < |players| && players[i].id == playerId
  }

  /** The reloads `selectServer` starts for a server. */
  function Loads(serverId: string): seq<Effect> {
    [LoadGuilds(serverId), LoadOnlinePlayers(serverId), LoadHuntingSessions(serverId), LoadDeaths(serverId, MaxDeaths)]
  }

  class Store {
    var selectedServerId: Option<string>
    var servers: seq<Server>
    var guilds: seq<GuildEntry>
    var onlinePlayers: seq<OnlinePlayer>
    var huntingSessions: seq<HuntingSession>
    var deaths: seq<Death>
    var effects: seq<Effect>

    /** The store's initial state. */
    constructor ()
      ensures selectedServerId.None? && servers == [] && guilds == [] && onlinePlayers == []
      ensures huntingSessions == [] && deaths == [] && effects == []
    {
      selectedServerId := None;
      servers, guilds, onlinePlayers, huntingSessions, deaths := [], [], [], [], [];
      effects := [];
    }

    /** The death list never exceeds its cap. */
    predicate Valid()
      reads this
    {
      |deaths| <= MaxDeaths
    }

    /** `selectServer`: leave the previous server's room, join the new one,
        select it and start its four reloads. */
    method SelectServer(serverId: string)
      modifies this
      ensures selectedServerId == Some(serverId)
      ensures effects == old(effects)
        + (if Truthy(old(selectedServerId)) then [Unsubscribe(old(selectedServerId).value)] else [])
        + [Subscribe(serverId)] + Loads(serverId)
      ensures servers == old(servers) && guilds == old(guilds) && onlinePlayers == old(onlinePlayers)
      ensures huntingSessions == old(huntingSessions) && deaths == old(deaths)
    {
      if Truthy(selectedServerId) {
        effects := effects + [Unsubscribe(selectedServerId.value)];
      }
      effects := effects + [Subscribe(serverId)];
      selectedServerId := Some(serverId);
      effects := effects + Loads(serverId);
    }

    /** `handlePlayerStatus`: going offline removes every entry of the
        player; coming online changes no list, and reloads the list only for
        a player not yet listed while a server is selected. */
    method HandlePlayerStatus(playerId: string, isOnline: bool)
      modifies this
      ensures !isOnline ==> onlinePlayers == RemovePlayer(old(onlinePlayers), playerId) && effects == old(effects)
      ensures isOnline ==> onlinePlayers == old(onlinePlayers)
      ensures isOnline && (Listed(old(onlinePlayers), playerId) || !Truthy(selectedServerId)) ==> effects == old(effects)
      ensures isOnline && !Listed(old(onlinePlayers), playerId) && Truthy(selectedServerId) ==>
        effects == old(effects) + [LoadOnlinePlayers(selectedServerId.value)]
      ensures selectedServerId == old(selectedServerId) && servers == old(servers) && guilds == old(guilds)
      ensures huntingSessions == old(huntingSessions) && deaths == old(deaths)
    {
      if isOnline {
        var exists_ := Listed(onlinePlayers, playerId);
        if !exists_ && Truthy(selectedServerId) {
          effects := effects + [LoadOnlinePlayers(selectedServerId.value)];
        }
      } else {
        onlinePlayers := RemovePlayer(onlinePlayers, playerId);
      }
    }

    /** `handleNewDeath`: a death of the selected server goes first and the
        list is cut to 50; any other death (or none selected) is ignored. */
    method HandleNewDeath(death: Death)
      requires Valid()
      modifies this
      ensures Valid()
      ensures selectedServerId == Some(death.serverId) ==> deaths == PrependCapped(death, old(deaths), MaxDeaths)
      ensures selectedServerId != Some(death.serverId) ==> deaths == old(deaths)
      ensures selectedServerId == old(selectedServerId) && servers == old(servers) && guilds == old(guilds)
      ensures onlinePlayers == old(onlinePlayers) && huntingSessions == old(huntingSessions) && effects == old(effects)
    {
      if selectedServerId == Some(death.serverId) {
        deaths := PrependCapped(death, deaths, MaxDeaths);
      }
    }

    /** `handleHuntingUpdate`. */
    method HandleHuntingUpdate(session: HuntingSession)
      modifies this
      ensures huntingSessions == UpsertSession(old(huntingSessions), session)
      ensures selectedServerId == old(selectedServerId) && servers == old(servers) && guilds == old(guilds)
      ensures onlinePlayers == old(onlinePlayers) && deaths == old(deaths) && effects == old(effects)
    {
      var index := FindIndex(huntingSessions, session.id);
      if index.Some? {
        var updated := huntingSessions;
        updated := updated[index.value := session];
        huntingSessions := updated;
      } else {
        huntingSessions := [session] + huntingSessions;
      }
    }

    /** `handleMemberUpdate`: reload the guilds of the selected server. */
    method HandleMemberUpdate(serverId: string)
      modifies this
      ensures effects == old(effects) + (if selectedServerId == Some(serverId) then [LoadGuilds(serverId)] else [])
      ensures selectedServerId == old(selectedServerId) && servers == old(servers) && guilds == old(guilds)
      ensures onlinePlayers == old(onlinePlayers) && huntingSessions == old(huntingSessions) && deaths == old(deaths)
    {
      if selectedServerId == Some(serverId) {
        effects := effects + [LoadGuilds(serverId)];
      }
    }

    /** `reset`: leave the selected server's room, clear the selection and
        every list but `servers`. */
    method Reset()
      modifies this
      ensures selectedServerId.None? && guilds == [] && onlinePlayers == [] && huntingSessions == [] && deaths == []
      ensures servers == old(servers)
      ensures effects == old(effects) + (if Truthy(old(selectedServerId)) then [Unsubscribe(old(selectedServerId).value)] else [])
      ensures Valid()
    {
      if Truthy(selectedServerId) {
        effects := effects + [Unsubscribe(selectedServerId.value)];
      }
      selectedServerId := None;
      guilds, onlinePlayers, huntingSessions, deaths := [], [], [], [];
    }
  }
}
