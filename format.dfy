/** The frontend's formatting helpers: durations in hours and minutes, and
    the colour classes for vocations, guild classifications and online
    status. */
module Format {
  import opened JsString
  import opened Models

  // ---------------------------------------------------------------------
  // Durations
  // ---------------------------------------------------------------------

  /** JavaScript's `a % b` for a positive `b`: the remainder takes the sign
      of `a`. */
  function JsRem(a: int, b: int): (r: int)
    requires b > 0
    ensures a >= 0 ==> 0 <= r < b
    ensures a < 0 ==> -b < r <= 0 && r == -((-a) % b)
  {
    if a >= 0 then a % b else -((-a) % b)
  }

  /** `Math.floor(minutes / 60)` and `minutes % 60`. */
  function DurationParts(minutes: int): (parts: (int, int))
    ensures minutes >= 0 ==> parts.0 * 60 + parts.1 == minutes && 0 <= parts.1 < 60
    ensures minutes >= 0 ==> parts.0 >= 0 && (parts.0 == 0 <==> minutes < 60)
  {
    (minutes / 60, JsRem(minutes, 60))
  }

  /** `formatDuration`: `<m>m` under an hour, `<h>h <m>m` otherwise. The
      text always ends in the minutes' unit, and shows an hours part exactly
      when the whole hours are not zero. */
  function FormatDuration(minutes: int): (s: string)
    ensures |s| >= 2 && s[|s| - 1] == 'm'
    ensures 'h' in s <==> DurationParts(minutes).0 != 0
  {
    NoHourLetter(DurationParts(minutes).1);
    var (hours, mins) := DurationParts(minutes);
    if hours == 0 then IntToString(mins) + "m"
    else IntToString(hours) + "h " + IntToString(mins) + "m"
  }

  /** A printed integer has no letter 'h'. */
  lemma NoHourLetter(i: int)
    ensures 'h' !in IntToString(i) + "m"
  {
    var s := IntToString(i) + "m";
    var n := NatToString(if i < 0 then -i else i);
    forall k | 0 <= k < |s| ensures s[k] != 'h' {
      if i < 0 {
        assert s == "-" + n + "m";
        if 0 < k <= |n| {
          assert s[k] == n[k - 1];
        }
      } else {
        assert s == n + "m";
        if k < |n| {
          assert s[k] == n[k];
        }
      }
    }
  }

  /** For a non-negative duration the two numbers printed are the whole
      hours and the leftover minutes, under 60. */
  lemma FormatDurationSplits(minutes: nat)
    ensures minutes < 60 ==> FormatDuration(minutes) == NatToString(minutes) + "m"
    ensures minutes >= 60 ==>
      FormatDuration(minutes) == NatToString(minutes / 60) + "h " + NatToString(minutes % 60) + "m" &&
      (minutes / 60) * 60 + minutes % 60 == minutes && minutes % 60 < 60
  {
  }

  /** A negative duration under an hour still prints an hour: `-30` is
      `-1h -30m`, since the floor of -0.5 is -1. */
  lemma FormatDurationNegative()
    ensures DurationParts(-30) == (-1, -30)
  {
  }

  // ---------------------------------------------------------------------
  // Colours
  // ---------------------------------------------------------------------

  /** `getVocationColor`: a case-insensitive substring test with priority
      knight, paladin, druid, sorcerer; gray for anything else. */
  function VocationColor(vocation: string): (c: string)
    ensures var v := ToLower(vocation);
      && (Contains(v, "knight") ==> c == "text-red-400")
      && (!Contains(v, "knight") && Contains(v, "paladin") ==> c == "text-green-400")
      && (!Contains(v, "knight") && !Contains(v, "paladin") && Contains(v, "druid") ==> c == "text-blue-400")
      && (!Contains(v, "knight") && !Contains(v, "paladin") && !Contains(v, "druid") && Contains(v, "sorcerer") ==> c == "text-purple-400")
      && (!Contains(v, "knight") && !Contains(v, "paladin") && !Contains(v, "druid") && !Contains(v, "sorcerer") ==> c == "text-gray-400")
  {
    var normalized := ToLower(vocation);
    if Contains(normalized, "knight") then "text-red-400"
    else if Contains(normalized, "paladin") then "text-green-400"
    else if Contains(normalized, "druid") then "text-blue-400"
    else if Contains(normalized, "sorcerer") then "text-purple-400"
    else "text-gray-400"
  }

  /** A string without the first letter of `sub` does not contain it. */
  lemma NotContains(s: string, sub: string)
    requires |sub| > 0 && sub[0] !in s
    ensures !Contains(s, sub)
  {
    forall i | 0 <= i <= |s| ensures !OccursAt(s, sub, i) {
      if i + |sub| <= |s| {
        assert s[i..i + |sub|][0] == s[i];
      }
    }
  }

  /** Both knight vocations are red. */
  lemma KnightsRed()
    ensures VocationColor("Knight") == "text-red-400"
    ensures VocationColor("Elite Knight") == "text-red-400"
  {
    assert ToLower("Knight") == "knight";
    assert OccursAt("knight", "knight", 0);
    assert ToLower("Elite Knight") == "elite knight";
    assert OccursAt("elite knight", "knight", 6);
  }

  /** Both paladin vocations are green: neither name contains "knight". */
  lemma PaladinsGreen()
    ensures VocationColor("Paladin") == "text-green-400"
    ensures VocationColor("Royal Paladin") == "text-green-400"
  {
    assert ToLower("Paladin") == "paladin";
    NotContains("paladin", "knight");
    assert OccursAt("paladin", "paladin", 0);
    assert ToLower("Royal Paladin") == "royal paladin";
    NotContains("royal paladin", "knight");
    assert OccursAt("royal paladin", "paladin", 6);
  }

  /** Both druid vocations are blue. */
  lemma DruidsBlue()
    ensures VocationColor("Druid") == "text-blue-400"
    ensures VocationColor("Elder Druid") == "text-blue-400"
  {
    assert ToLower("Druid") == "druid";
    NotContains("druid", "knight");
    NotContains("druid", "paladin");
    assert OccursAt("druid", "druid", 0);
    assert ToLower("Elder Druid") == "elder druid";
    NotContains("elder druid", "knight");
    NotContains("elder druid", "paladin");
    assert OccursAt("elder druid", "druid", 6);
  }

  /** A sorcerer is purple. */
  lemma SorcererPurple()
    ensures VocationColor("Sorcerer") == "text-purple-400"
  {
    assert ToLower("Sorcerer") == "sorcerer";
    NotContains("sorcerer", "knight");
    NotContains("sorcerer", "paladin");
    NotContains("sorcerer", "druid");
    assert OccursAt("sorcerer", "sorcerer", 0);
  }

  /** A master sorcerer is purple. */
  lemma MasterSorcererPurple()
    ensures VocationColor("Master Sorcerer") == "text-purple-400"
  {
    assert ToLower("Master Sorcerer") == "master sorcerer";
    NotContains("master sorcerer", "knight");
    NotContains("master sorcerer", "paladin");
    NotContains("master sorcerer", "druid");
    assert OccursAt("master sorcerer", "sorcerer", 7);
  }

  /** "None" matches no vocation and is gray. */
  lemma NoneGray()
    ensures VocationColor("None") == "text-gray-400"
  {
    assert ToLower("None") == "none";
    NotContains("none", "knight");
    NotContains("none", "paladin");
    NotContains("none", "druid");
    NotContains("none", "sorcerer");
  }

  /** The colour of each vocation's own name depends only on its base
      vocation: knights red, paladins green, druids blue, sorcerers purple,
      no vocation gray. */
  lemma VocationColorsByBase(v: Vocation)
    ensures VocationColor(v.Name()) == match v.Base() {
      case Knight => "text-red-400"
      case Paladin => "text-green-400"
      case Druid => "text-blue-400"
      case Sorcerer => "text-purple-400"
      case _ => "text-gray-400"
    }
  {
    KnightsRed();
    PaladinsGreen();
    DruidsBlue();
    SorcererPurple();
    MasterSorcererPurple();
    NoneGray();
  }

  /** The hue of a guild classification. */
  function ClassificationHue(classification: string): (hue: string)
    ensures hue == "green" <==> classification == "ally"
    ensures hue == "red" <==> classification == "enemy"
    ensures hue == "green" || hue == "red" || hue == "yellow"
  {
    if classification == "ally" then "green"
    else if classification == "enemy" then "red"
    else "yellow"
  }

  /** `getClassificationColor`: the text colour of the classification's
      hue. */
  function ClassificationColor(classification: string): (c: string)
    ensures c == "text-green-500" <==> classification == "ally"
    ensures c == "text-red-500" <==> classification == "enemy"
    ensures c == "text-yellow-500" <==> ClassificationHue(classification) == "yellow"
  {
    "text-" + ClassificationHue(classification) + "-500"
  }

  /** `getClassificationBg`: a faint background and border of the
      classification's hue. */
  function ClassificationBg(classification: string): (c: string)
    ensures c == "bg-green-500/10 border-green-500/20" <==> classification == "ally"
    ensures c == "bg-red-500/10 border-red-500/20" <==> classification == "enemy"
    ensures c == "bg-yellow-500/10 border-yellow-500/20" <==> ClassificationHue(classification) == "yellow"
  {
    match ClassificationHue(classification)
    case "green" => "bg-green-500/10 border-green-500/20"
    case "red" => "bg-red-500/10 border-red-500/20"
    case _ => "bg-yellow-500/10 border-yellow-500/20"
  }

  /** Text colour and background of classifications agree: two
      classifications share one exactly when they share the other, exactly
      when they have the same hue. */
  lemma ClassificationColorsAgree(a: string, b: string)
    ensures ClassificationColor(a) == ClassificationColor(b) <==> ClassificationHue(a) == ClassificationHue(b)
    ensures ClassificationBg(a) == ClassificationBg(b) <==> ClassificationHue(a) == ClassificationHue(b)
  {
  }

  /** The hue of an online status. */
  function StatusHue(isOnline: bool): (hue: string)
    ensures hue == "green" <==> isOnline
    ensures hue == "gray" <==> !isOnline
  {
    if isOnline then "green" else "gray"
  }

  /** `getStatusColor`: the text colour of the status hue, green exactly
      when online. */
  function StatusColor(isOnline: bool): (c: string)
    ensures c == "text-" + StatusHue(isOnline) + "-500"
  {
    if isOnline then "text-green-500" else "text-gray-500"
  }

  /** `getStatusBadge`: the badge of the status hue, so it always agrees
      with the text colour. */
  function StatusBadge(isOnline: bool): (b: string)
    ensures b == "bg-" + StatusHue(isOnline) + "-500"
  {
    match StatusHue(isOnline)
    case "green" => "bg-green-500"
    case _ => "bg-gray-500"
  }
}
