/** The playtime scraper: for each guild player, a histogram of the times the
    player was seen online, bucketed by (hour of day, day of week), merged
    additively into the stored histogram. */
module Playtime {
  import opened Wrappers
  import opened JsString
  import opened Models
  import opened Pages
  import opened BaseScraper

  /** Every twelve hours, three attempts. */
  const DefaultConfig := Config(12 * 60 * 60 * 1000, 3, true)

  /** At most this many players are scraped per run (`LIMIT 100`). */
  const MaxPlayers: nat := 100

  /** One bucket of a scraped histogram. */
  datatype Pattern = Pattern(slot: Slot, frequency: nat)

  /** `parseRubinotTime` followed by `getHours()` and `getDay()`: the bucket
      of a date cell, or `None` where the text is no date. */
  type SlotOf = string -> Option<Slot>

  // ---------------------------------------------------------------------
  // The histogram of one player
  // ---------------------------------------------------------------------

  /** `patterns.find(p => p.hourOfDay === hour && p.dayOfWeek === day)`, as
      an index: the first bucket of `slot`. */
  function IndexOf(ps: seq<Pattern>, slot: Slot): (i: Option<nat>)
    ensures i.Some? ==> i.value < |ps| && ps[i.value].slot == slot
    ensures i.Some? ==> forall k :: 0 <= k < i.value ==> ps[k].slot != slot
    ensures i.None? ==> forall k :: 0 <= k < |ps| ==> ps[k].slot != slot
  {
    IndexFrom(ps, slot, 0)
  }

  function IndexFrom(ps: seq<Pattern>, slot: Slot, k: nat): (i: Option<nat>)
    requires k <= |ps|
    requires forall j :: 0 <= j < k ==> ps[j].slot != slot
    ensures i.Some? ==> k <= i.value < |ps| && ps[i.value].slot == slot
    ensures i.Some? ==> forall j :: 0 <= j < i.value ==> ps[j].slot != slot
    ensures i.None? ==> forall j :: 0 <= j < |ps| ==> ps[j].slot != slot
    decreases |ps| - k
  {
    if k == |ps| then None
    else if ps[k].slot == slot then Some(k)
    else IndexFrom(ps, slot, k + 1)
  }

  /** The scraped frequency of a bucket, zero when it has none. */
  function FreqOf(ps: seq<Pattern>, slot: Slot): nat {
    match IndexOf(ps, slot)
    case Some(i) => ps[i].frequency
    case None => 0
  }

  /** Find or create: the bucket's frequency goes up by one, or a bucket
      with frequency 1 is pushed. */
  function Tally(ps: seq<Pattern>, slot: Slot): seq<Pattern> {
    match IndexOf(ps, slot)
    case Some(i) => ps[i := ps[i].(frequency := ps[i].frequency + 1)]
    case None => ps + [Pattern(slot, 1)]
  }

  /** The histogram of a sequence of buckets, tallied in order. */
  function Tallied(slots: seq<Slot>): seq<Pattern> {
    if |slots| == 0 then []
    else Tally(Tallied(slots[..|slots| - 1]), slots[|slots| - 1])
  }

  /** The row callback: two cells or more, and a first cell that parses. */
  function RowSlot(slotOf: SlotOf, cells: Row): (slot: Option<Slot>)
    ensures |cells| < 2 ==> slot.None?
    ensures |cells| >= 2 ==> slot == slotOf(Trim(cells[0]))
  {
    if |cells| < 2 then None else slotOf(Trim(cells[0]))
  }

  function RowParser(slotOf: SlotOf): Row -> Option<Slot> {
    cells => RowSlot(slotOf, cells)
  }

  /** The buckets are distinct. */
  predicate UniqueSlots(ps: seq<Pattern>) {
    forall i, j :: 0 <= i < j < |ps| ==> ps[i].slot != ps[j].slot
  }

  /** Every bucket was seen at least once. */
  predicate Positive(ps: seq<Pattern>) {
    forall i :: 0 <= i < |ps| ==> ps[i].frequency >= 1
  }

  /** The sum of the frequencies. */
  function Total(ps: seq<Pattern>): nat {
    if |ps| == 0 then 0 else Total(ps[..|ps| - 1]) + ps[|ps| - 1].frequency
  }

  /** The first bucket of `slot` is at `i`. */
  lemma IndexOfIs(ps: seq<Pattern>, slot: Slot, i: nat)
    requires i < |ps| && ps[i].slot == slot
    requires forall k :: 0 <= k < i ==> ps[k].slot != slot
    ensures IndexOf(ps, slot) == Some(i)
  {
  }

  /** Tallying adds one to its bucket and leaves every other bucket alone. */
  lemma TallyEffect(ps: seq<Pattern>, slot: Slot, other: Slot)
    ensures FreqOf(Tally(ps, slot), slot) == FreqOf(ps, slot) + 1
    ensures other != slot ==> FreqOf(Tally(ps, other), slot) == FreqOf(ps, slot)
  {
    var t := Tally(ps, slot);
    match IndexOf(ps, slot) {
      case Some(i) =>
        assert forall k :: 0 <= k < |t| ==> t[k].slot == ps[k].slot;
        IndexOfIs(t, slot, i);
      case None =>
        assert forall k :: 0 <= k < |ps| ==> t[k].slot == ps[k].slot;
        IndexOfIs(t, slot, |ps|);
    }
    var u := Tally(ps, other);
    if other != slot {
      assert forall k :: 0 <= k < |ps| ==> u[k].slot == ps[k].slot;
      match IndexOf(ps, slot)
      case Some(i) => IndexOfIs(u, slot, i);
      case None => assert IndexOf(u, slot) == None;
    }
  }

  lemma TallyUnique(ps: seq<Pattern>, slot: Slot)
    requires UniqueSlots(ps) && Positive(ps)
    ensures UniqueSlots(Tally(ps, slot)) && Positive(Tally(ps, slot))
  {
  }

  lemma {:induction false} TotalUpdate(ps: seq<Pattern>, i: nat, f: nat)
    requires i < |ps|
    ensures Total(ps[i := ps[i].(frequency := f)]) + ps[i].frequency == Total(ps) + f
    decreases |ps|
  {
    var q := ps[i := ps[i].(frequency := f)];
    if i < |ps| - 1 {
      assert q[..|q| - 1] == ps[..|ps| - 1][i := ps[i].(frequency := f)];
      TotalUpdate(ps[..|ps| - 1], i, f);
    } else {
      assert q[..|q| - 1] == ps[..|ps| - 1];
    }
  }

  lemma TallyTotal(ps: seq<Pattern>, slot: Slot)
    ensures Total(Tally(ps, slot)) == Total(ps) + 1
  {
    match IndexOf(ps, slot)
    case Some(i) => TotalUpdate(ps, i, ps[i].frequency + 1);
    case None => assert (ps + [Pattern(slot, 1)])[..|ps|] == ps;
  }

  /** The histogram has one bucket per distinct slot, each seen at least
      once, and the frequency of a bucket is the number of times its slot
      was seen; the frequencies sum to the number of slots. */
  lemma {:induction false} TalliedCounts(slots: seq<Slot>)
    ensures UniqueSlots(Tallied(slots)) && Positive(Tallied(slots))
    ensures forall s :: FreqOf(Tallied(slots), s) == multiset(slots)[s]
    ensures Total(Tallied(slots)) == |slots|
  {
    if |slots| > 0 {
      var init := slots[..|slots| - 1];
      var last := slots[|slots| - 1];
      TalliedCounts(init);
      assert slots == init + [last];
      TallyUnique(Tallied(init), last);
      TallyTotal(Tallied(init), last);
      forall s
        ensures FreqOf(Tallied(slots), s) == multiset(slots)[s]
      {
        TallyEffect(Tallied(init), s, last);
        TallyEffect(Tallied(init), last, s);
      }
    }
  }

  lemma TalliedSnoc(slots: seq<Slot>, s: Slot)
    ensures Tallied(slots + [s]) == Tally(Tallied(slots), s)
  {
    assert (slots + [s])[..|slots|] == slots;
  }

  /** The section whose `<h3>` mentions the online time history: the
      heading and the rows of every table under the heading's parent. */
  datatype Section = Section(heading: string, rows: Table)

  /** A character page, as the sections under its `<h3>` headings. */
  type PlayerPage = seq<Section>

  /** The rows of every section whose heading contains `needle`. */
  function RowsUnder(page: PlayerPage, needle: string): Table {
    if |page| == 0 then []
    else
      RowsUnder(page[..|page| - 1], needle) +
        (if Contains(page[|page| - 1].heading, needle) then page[|page| - 1].rows else [])
  }

  /** Sections headed "Online Time History"; failing those, sections headed
      "Histórico". */
  predicate HasHeading(page: PlayerPage, needle: string) {
    exists i :: 0 <= i < |page| && Contains(page[i].heading, needle)
  }

  function HistoryRows(page: PlayerPage): Table {
    if HasHeading(page, "Online Time History") then RowsUnder(page, "Online Time History")
    else if HasHeading(page, "Histórico") then RowsUnder(page, "Histórico")
    else []
  }

  /** The character page, by player name. */
  type Fetch = string -> Response<PlayerPage>

  /** What `scrapePlaytime` returns or throws for one response: an error
      whose message mentions 404 is a player the site does not know, and
      yields no patterns. */
  function History(slotOf: SlotOf, r: Response<PlayerPage>): (h: Result<seq<Pattern>>)
    ensures r.Response? && r.status == 200 ==>
      h == Ok(Tallied(Kept(HistoryRows(r.body), RowParser(slotOf), |HistoryRows(r.body)|)))
    ensures r.NetworkError? ==> (h.Ok? <==> Contains(r.message, "404"))
    ensures h.Ok? && !(r.Response? && r.status == 200) ==> h.value == []
  {
    match Checked(r, "player page")
    case Ok(page) =>
      var rows := HistoryRows(page);
      Ok(Tallied(Kept(rows, RowParser(slotOf), |rows|)))
    case Err(m) => if Contains(m, "404") then Ok([]) else Err(m)
  }

  /** A 404 status is swallowed: the thrown message names the status. */
  lemma History404(slotOf: SlotOf, page: PlayerPage)
    ensures History(slotOf, Response(404, page)) == Ok([])
  {
    var m := "Failed to load player page: " + IntToString(404);
    assert NatToString(404) == "404" by {
      assert NatToString(4) == [DigitChar(4)];
      assert NatToString(40) == NatToString(4) + [DigitChar(0)];
    }
    assert IntToString(404) == "404";
    assert Checked(Response(404, page), "player page") == Err(m);
    assert m[28..31] == "404";
    assert OccursAt(m, "404", 28);
    assert Contains(m, "404");
  }

  /** The HTTP client accepts only statuses 200 to 399, so a real 404
      arrives as the client's rejection, whose message names the status; it
      is swallowed all the same. */
  lemma History404Rejected(slotOf: SlotOf, prefix: string)
    ensures History(slotOf, NetworkError(prefix + "404")) == Ok([])
  {
    var m := prefix + "404";
    assert m[|prefix|..|prefix| + 3] == "404";
    assert OccursAt(m, "404", |prefix|);
  }

  /** A page without a history section yields no patterns. */
  lemma HistoryNoSection(slotOf: SlotOf, page: PlayerPage)
    requires !HasHeading(page, "Online Time History") && !HasHeading(page, "Histórico")
    ensures History(slotOf, Response(200, page)) == Ok([])
  {
  }

  /** The histogram of a loaded page: distinct buckets, each frequency the
      number of rows of its slot, summing to the number of rows with a
      parsed date. */
  lemma HistoryCounts(slotOf: SlotOf, page: PlayerPage)
    ensures var rows := HistoryRows(page);
      var slots := Kept(rows, RowParser(slotOf), |rows|);
      && History(slotOf, Response(200, page)) == Ok(Tallied(slots))
      && UniqueSlots(Tallied(slots)) && Positive(Tallied(slots))
      && (forall s :: FreqOf(Tallied(slots), s) == multiset(slots)[s])
      && Total(Tallied(slots)) == |slots|
  {
    var rows := HistoryRows(page);
    TalliedCounts(Kept(rows, RowParser(slotOf), |rows|));
  }

  /** `patterns.find(...)`. */
  method Find(ps: seq<Pattern>, slot: Slot) returns (i: Option<nat>)
    ensures i == IndexOf(ps, slot)
  {
    var k := 0;
    while k < |ps|
      invariant k <= |ps|
      invariant forall j :: 0 <= j < k ==> ps[j].slot != slot
      invariant IndexOf(ps, slot) == IndexFrom(ps, slot, k)
    {
      if ps[k].slot == slot {
        return Some(k);
      }
      k := k + 1;
    }
    return None;
  }

  /** One row's find-or-create on the scraped buckets. */
  method FindOrPush(patterns: seq<Pattern>, slot: Slot) returns (ps: seq<Pattern>)
    ensures ps == Tally(patterns, slot)
  {
    var existing := Find(patterns, slot);
    if existing.Some? {
      var i := existing.value;
      ps := patterns[i := patterns[i].(frequency := patterns[i].frequency + 1)];
    } else {
      ps := patterns + [Pattern(slot, 1)];
    }
  }

  /** `scrapePlaytime`. */
  method ScrapePlaytime(fetch: Fetch, slotOf: SlotOf, playerName: string) returns (r: Result<seq<Pattern>>)
    ensures r == History(slotOf, fetch(playerName))
  {
    match Checked(fetch(playerName), "player page")
    case Err(m) =>
      if Contains(m, "404") {
        r := Ok([]);
      } else {
        r := Err(m);
      }
    case Ok(page) =>
      var patterns := BuildHistogram(slotOf, HistoryRows(page));
      r := Ok(patterns);
  }

  /** The `.each` callback over the history rows, with its find-or-push. */
  method BuildHistogram(slotOf: SlotOf, rows: Table) returns (patterns: seq<Pattern>)
    ensures patterns == Tallied(Kept(rows, RowParser(slotOf), |rows|))
  {
    patterns := [];
    var index := 0;
    while index < |rows|
      invariant index <= |rows|
      invariant patterns == Tallied(Kept(rows, RowParser(slotOf), index))
    {
      var slot := RowSlot(slotOf, rows[index]);
      assert RowParser(slotOf)(rows[index]) == slot;
      KeptStep(rows, RowParser(slotOf), index);
      if index > 0 && slot.Some? {
        TalliedSnoc(Kept(rows, RowParser(slotOf), index), slot.value);
        patterns := FindOrPush(patterns, slot.value);
      }
      index := index + 1;
    }
  }

  // ---------------------------------------------------------------------
  // Merging into the stored histogram
  // ---------------------------------------------------------------------

  /** The stored frequency of a bucket, zero when there is no row. */
  function Stored(patterns: map<PatternKey, nat>, key: PatternKey): nat {
    if key in patterns then patterns[key] else 0
  }

  /** `INSERT ... ON CONFLICT DO UPDATE SET frequency = frequency + $4`. */
  function Merge(patterns: map<PatternKey, nat>, player: PlayerKey, p: Pattern): (merged: map<PatternKey, nat>)
    ensures merged.Keys == patterns.Keys + {PatternKey(player, p.slot)}
    ensures merged[PatternKey(player, p.slot)] == Stored(patterns, PatternKey(player, p.slot)) + p.frequency
    ensures forall k :: k in patterns && k != PatternKey(player, p.slot) ==> merged[k] == patterns[k]
  {
    var key := PatternKey(player, p.slot);
    patterns[key := Stored(patterns, key) + p.frequency]
  }

  /** The merge loop of one player. */
  function MergeAll(patterns: map<PatternKey, nat>, player: PlayerKey, ps: seq<Pattern>): map<PatternKey, nat> {
    if |ps| == 0 then patterns
    else Merge(MergeAll(patterns, player, ps[..|ps| - 1]), player, ps[|ps| - 1])
  }

  /** The frequencies `ps` gives a slot, summed over every bucket of it. */
  function SumFor(ps: seq<Pattern>, slot: Slot): nat {
    if |ps| == 0 then 0
    else SumFor(ps[..|ps| - 1], slot) + (if ps[|ps| - 1].slot == slot then ps[|ps| - 1].frequency else 0)
  }

  /** Over distinct buckets, the sum for a slot is that bucket's frequency. */
  lemma {:induction false} SumForUnique(ps: seq<Pattern>, slot: Slot)
    requires UniqueSlots(ps)
    ensures SumFor(ps, slot) == FreqOf(ps, slot)
  {
    if |ps| > 0 {
      var init := ps[..|ps| - 1];
      SumForUnique(init, slot);
      assert forall k :: 0 <= k < |init| ==> init[k] == ps[k];
      match IndexOf(init, slot)
      case Some(i) => IndexOfIs(ps, slot, i);
      case None =>
        if ps[|ps| - 1].slot == slot {
          IndexOfIs(ps, slot, |ps| - 1);
        } else {
          assert IndexOf(ps, slot) == None;
        }
    }
  }

  /** The merge adds what was scraped to every bucket of this player, and
      leaves every other row alone; no stored frequency goes down. */
  lemma {:induction false} MergeAllEffect(patterns: map<PatternKey, nat>, player: PlayerKey, ps: seq<Pattern>)
    ensures var merged := MergeAll(patterns, player, ps);
      && patterns.Keys <= merged.Keys
      && (forall s :: Stored(merged, PatternKey(player, s)) == Stored(patterns, PatternKey(player, s)) + SumFor(ps, s))
      && (forall k :: k in patterns && k.player != player ==> merged[k] == patterns[k])
      && (forall k :: k in merged && k.player != player ==> k in patterns)
  {
    if |ps| > 0 {
      MergeAllEffect(patterns, player, ps[..|ps| - 1]);
    }
  }

  lemma MergeAllNeverDecreases(patterns: map<PatternKey, nat>, player: PlayerKey, ps: seq<Pattern>)
    ensures forall k :: k in patterns ==> k in MergeAll(patterns, player, ps) && patterns[k] <= MergeAll(patterns, player, ps)[k]
  {
    MergeAllEffect(patterns, player, ps);
    forall k | k in patterns
      ensures patterns[k] <= MergeAll(patterns, player, ps)[k]
    {
      if k.player == player {
        assert Stored(patterns, PatternKey(player, k.slot)) == patterns[k];
      }
    }
  }

  /** Merging a player's scraped histogram adds, to each of the player's
      stored buckets, the number of rows seen in that bucket. */
  lemma MergeHistory(patterns: map<PatternKey, nat>, player: PlayerKey, slots: seq<Slot>)
    ensures forall s :: Stored(MergeAll(patterns, player, Tallied(slots)), PatternKey(player, s))
                        == Stored(patterns, PatternKey(player, s)) + multiset(slots)[s]
  {
    TalliedCounts(slots);
    MergeAllEffect(patterns, player, Tallied(slots));
    forall s
      ensures SumFor(Tallied(slots), s) == multiset(slots)[s]
    {
      SumForUnique(Tallied(slots), s);
    }
  }

  method MergePatterns(patterns: map<PatternKey, nat>, player: PlayerKey, ps: seq<Pattern>) returns (merged: map<PatternKey, nat>)
    ensures merged == MergeAll(patterns, player, ps)
  {
    merged := patterns;
    var k := 0;
    while k < |ps|
      invariant k <= |ps|
      invariant merged == MergeAll(patterns, player, ps[..k])
    {
      assert ps[..k + 1][..k] == ps[..k];
      var key := PatternKey(player, ps[k].slot);
      merged := merged[key := Stored(merged, key) + ps[k].frequency];
      k := k + 1;
    }
    assert ps[..k] == ps;
  }

  // ---------------------------------------------------------------------
  // The whole cycle
  // ---------------------------------------------------------------------

  /** A player the query selects: one whose guild id names a guild row. */
  predicate InGuild(db: Db, key: PlayerKey) {
    key in db.players && db.players[key].guild.Some? && db.players[key].guild.value in db.guilds
  }

  /** The guild players among `ordered`, in order. */
  function GuildPlayers(db: Db, ordered: seq<PlayerKey>): (sel: seq<PlayerKey>)
    ensures |sel| <= |ordered|
    ensures forall i :: 0 <= i < |sel| ==> InGuild(db, sel[i]) && sel[i] in ordered
  {
    if |ordered| == 0 then []
    else
      GuildPlayers(db, ordered[..|ordered| - 1]) +
        (if InGuild(db, ordered[|ordered| - 1]) then [ordered[|ordered| - 1]] else [])
  }

  /** Every guild player of `ordered` is among the guild players. */
  lemma {:induction false} GuildPlayersComplete(db: Db, ordered: seq<PlayerKey>, i: nat)
    requires i < |ordered| && InGuild(db, ordered[i])
    ensures ordered[i] in GuildPlayers(db, ordered)
  {
    if i < |ordered| - 1 {
      GuildPlayersComplete(db, ordered[..|ordered| - 1], i);
    }
  }

  /** A list without repetition gives guild players without repetition. */
  lemma {:induction false} GuildPlayersDistinct(db: Db, ordered: seq<PlayerKey>)
    requires forall i, j :: 0 <= i < j < |ordered| ==> ordered[i] != ordered[j]
    ensures forall i, j :: 0 <= i < j < |GuildPlayers(db, ordered)| ==> GuildPlayers(db, ordered)[i] != GuildPlayers(db, ordered)[j]
  {
    if |ordered| > 0 {
      var n := |ordered| - 1;
      GuildPlayersDistinct(db, ordered[..n]);
      var front := GuildPlayers(db, ordered[..n]);
      assert forall i :: 0 <= i < |front| ==> front[i] != ordered[n] by {
        forall i | 0 <= i < |front|
          ensures front[i] != ordered[n]
        {
          var k :| 0 <= k < n && ordered[..n][k] == front[i];
          assert ordered[k] != ordered[n];
        }
      }
    }
  }

  /** The query: the first hundred guild players of the players table,
      `ordered` being that table in name order. No player is selected twice,
      and with at most a hundred guild players every one is selected. */
  function Selected(db: Db, ordered: seq<PlayerKey>): (sel: seq<PlayerKey>)
    requires ListsEachOnce(ordered, db.players.Keys)
    ensures |sel| <= MaxPlayers
    ensures forall i :: 0 <= i < |sel| ==> InGuild(db, sel[i]) && sel[i] in ordered
    ensures sel <= GuildPlayers(db, ordered)
    ensures forall i, j :: 0 <= i < j < |sel| ==> sel[i] != sel[j]
    ensures |GuildPlayers(db, ordered)| <= MaxPlayers ==> forall key :: InGuild(db, key) ==> key in sel
  {
    var all := GuildPlayers(db, ordered);
    GuildPlayersDistinct(db, ordered);
    assert forall key :: InGuild(db, key) ==> key in all by {
      forall key | InGuild(db, key)
        ensures key in all
      {
        var i :| 0 <= i < |ordered| && ordered[i] == key;
        GuildPlayersComplete(db, ordered, i);
      }
    }
    if |all| <= MaxPlayers then all else all[..MaxPlayers]
  }

  /** One element of the scraper's result. */
  datatype PlaytimeData = PlaytimeData(player: PlayerKey, playerName: string, patterns: seq<Pattern>)

  /** What `scrapePlaytime` gives for each player name. */
  type Histories = string -> Result<seq<Pattern>>

  function HistoriesOf(fetch: Fetch, slotOf: SlotOf): Histories {
    name => History(slotOf, fetch(name))
  }

  /** What one player adds to the run: its histogram, when non-empty. */
  function ReportOf(histories: Histories, p: PlayerKey): seq<PlaytimeData> {
    match histories(p.name)
    case Ok(ps) => if |ps| > 0 then [PlaytimeData(p, p.name, ps)] else []
    case Err(_) => []
  }

  /** The players with a non-empty histogram, in order: an error skips the
      player, an empty histogram is not reported. */
  function Reported(histories: Histories, players: seq<PlayerKey>): seq<PlaytimeData> {
    if |players| == 0 then []
    else
      var last := players[|players| - 1];
      Reported(histories, players[..|players| - 1]) + ReportOf(histories, last)
  }

  lemma ReportedSnoc(histories: Histories, players: seq<PlayerKey>, p: PlayerKey)
    ensures Reported(histories, players + [p]) == Reported(histories, players) + ReportOf(histories, p)
  {
    assert (players + [p])[..|players|] == players;
  }

  /** The merges of every reported player, in order. */
  function ApplyPlayers(patterns: map<PatternKey, nat>, data: seq<PlaytimeData>): map<PatternKey, nat> {
    if |data| == 0 then patterns
    else
      var last := data[|data| - 1];
      MergeAll(ApplyPlayers(patterns, data[..|data| - 1]), last.player, last.patterns)
  }

  lemma ApplyPlayersSnoc(patterns: map<PatternKey, nat>, data: seq<PlaytimeData>, d: PlaytimeData)
    ensures ApplyPlayers(patterns, data + [d]) == MergeAll(ApplyPlayers(patterns, data), d.player, d.patterns)
  {
    assert (data + [d])[..|data|] == data;
  }

  /** No stored frequency ever goes down in a run. */
  lemma {:induction false} ApplyPlayersNeverDecreases(patterns: map<PatternKey, nat>, data: seq<PlaytimeData>)
    ensures forall k :: k in patterns ==> k in ApplyPlayers(patterns, data) && patterns[k] <= ApplyPlayers(patterns, data)[k]
  {
    if |data| > 0 {
      var last := data[|data| - 1];
      ApplyPlayersNeverDecreases(patterns, data[..|data| - 1]);
      MergeAllNeverDecreases(ApplyPlayers(patterns, data[..|data| - 1]), last.player, last.patterns);
    }
  }

  /** One turn of `scrape`'s loop: fetch the player's history and, when it
      is non-empty, report it and merge it into the patterns. */
  method ScrapePlayer(base: map<PatternKey, nat>, results: seq<PlaytimeData>, patterns: map<PatternKey, nat>,
                      player: PlayerKey, fetch: Fetch, slotOf: SlotOf)
    returns (results': seq<PlaytimeData>, patterns': map<PatternKey, nat>)
    requires patterns == ApplyPlayers(base, results)
    ensures results' == results + ReportOf(HistoriesOf(fetch, slotOf), player)
    ensures patterns' == ApplyPlayers(base, results')
  {
    var history := ScrapePlaytime(fetch, slotOf, player.name);
    assert history == HistoriesOf(fetch, slotOf)(player.name);
    results', patterns' := results, patterns;
    if history.Ok? && |history.value| > 0 {
      var d := PlaytimeData(player, player.name, history.value);
      ApplyPlayersSnoc(base, results, d);
      patterns' := MergePatterns(patterns, player, history.value);
      results' := results + [d];
    }
  }

  /** `scrape`'s loop over the selected players: a player whose page fails
      is skipped and the loop goes on. */
  method ScrapePlayers(base: map<PatternKey, nat>, players: seq<PlayerKey>, fetch: Fetch, slotOf: SlotOf)
    returns (results: seq<PlaytimeData>, patterns: map<PatternKey, nat>)
    ensures results == Reported(HistoriesOf(fetch, slotOf), players)
    ensures patterns == ApplyPlayers(base, results)
  {
    results, patterns := [], base;
    var s := 0;
    while s < |players|
      invariant s <= |players|
      invariant results == Reported(HistoriesOf(fetch, slotOf), players[..s])
      invariant patterns == ApplyPlayers(base, results)
    {
      assert players[..s + 1] == players[..s] + [players[s]];
      ReportedSnoc(HistoriesOf(fetch, slotOf), players[..s], players[s]);
      results, patterns := ScrapePlayer(base, results, patterns, players[s], fetch, slotOf);
      s := s + 1;
    }
    assert players[..s] == players;
  }

  /** `scrape`: the selected players in turn. Only the patterns table is
      written. */
  method Scrape(db: Db, ordered: seq<PlayerKey>, fetch: Fetch, slotOf: SlotOf)
    returns (result: ScrapeResult<seq<PlaytimeData>>, db': Db)
    requires ListsEachOnce(ordered, db.players.Keys)
    ensures result == Success(Reported(HistoriesOf(fetch, slotOf), Selected(db, ordered)))
    ensures db' == db.(patterns := ApplyPlayers(db.patterns, Reported(HistoriesOf(fetch, slotOf), Selected(db, ordered))))
  {
    var players := Selected(db, ordered);
    if |players| == 0 {
      return Success([]), db;
    }
    var results, patterns := ScrapePlayers(db.patterns, players, fetch, slotOf);
    result := Success(results);
    db' := db.(patterns := patterns);
  }
}
