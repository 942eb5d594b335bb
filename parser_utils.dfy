/** The text normalisers applied to every scraped table cell
    (scraper/src/utils/parser.utils.ts). */
module ParserUtils {
  import opened Wrappers
  import opened JsString
  import opened Models

  // ---------------------------------------------------------------------
  // parsePlayerName: `fullName.replace(/\s*\([^)]*\)/g, '').trim()`
  // ---------------------------------------------------------------------

  /** End of the run of white space that starts at `p`. */
  function SpaceRun(s: string, p: nat): (q: nat)
    requires p <= |s|
    ensures p <= q <= |s|
    ensures forall i :: p <= i < q ==> IsSpace(s[i])
    ensures q < |s| ==> !IsSpace(s[q])
    decreases |s| - p
  {
    if p < |s| && IsSpace(s[p]) then SpaceRun(s, p + 1) else p
  }

  /** Index of the first `)` at or after `p`, if any. */
  function CloseFrom(s: string, p: nat): (r: Option<nat>)
    requires p <= |s|
    ensures r.Some? ==> p <= r.value < |s| && s[r.value] == ')'
    ensures r.Some? ==> forall i :: p <= i < r.value ==> s[i] != ')'
    ensures r.None? <==> forall i :: p <= i < |s| ==> s[i] != ')'
    decreases |s| - p
  {
    if p == |s| then None
    else if s[p] == ')' then Some(p)
    else CloseFrom(s, p + 1)
  }

  /** Where the match of `\s*\([^)]*\)` that starts at `p` ends, if the
      pattern matches there. `\s*` is greedy and the next character must be
      `(`, so backtracking into the white space never helps; `[^)]*` then
      runs up to the first `)`, which must exist. */
  function MatchAt(s: string, p: nat): (r: Option<nat>)
    requires p <= |s|
    ensures r.Some? ==> p < r.value <= |s|
  {
    var w := SpaceRun(s, p);
    if w < |s| && s[w] == '(' then
      match CloseFrom(s, w + 1)
      case None => None
      case Some(q) => Some(q + 1)
    else None
  }

  /** The global replacement, from position `p` on, of every match by the
      empty string: scanning left to right and resuming after each match. */
  function StripFrom(s: string, p: nat): string
    requires p <= |s|
    decreases |s| - p
  {
    if p == |s| then ""
    else
      match MatchAt(s, p)
      case Some(e) => StripFrom(s, e)
      case None => [s[p]] + StripFrom(s, p + 1)
  }

  /** `s.replace(/\s*\([^)]*\)/g, '')`. */
  function StripGroups(s: string): string {
    StripFrom(s, 0)
  }

  /** No `(` is followed, anywhere later, by a `)`: nothing the pattern could
      match is left. */
  predicate NoClosedGroup(s: string) {
    forall i, j :: 0 <= i < j < |s| && s[i] == '(' ==> s[j] != ')'
  }

  /** `parsePlayerName`: the text with every white-space-prefixed
      parenthesised group removed, then trimmed. */
  function ParsePlayerName(fullName: string): (name: string)
    ensures NoClosedGroup(name)
    ensures IsTrimmed(name)
  {
    var stripped := StripGroups(fullName);
    StripFromLeavesNoGroup(fullName, 0);
    NoClosedGroupSlice(stripped, LeadingSpaces(stripped), LeadingSpaces(stripped) + |Trim(stripped)|);
    Trim(stripped)
  }

  /** Stripping keeps no `)` from a stretch that has none. */
  lemma {:induction false} StripFromNoClose(s: string, p: nat)
    requires p <= |s|
    requires forall i :: p <= i < |s| ==> s[i] != ')'
    ensures ')' !in StripFrom(s, p)
    decreases |s| - p
  {
    if p < |s| {
      assert MatchAt(s, p).None?;
      StripFromNoClose(s, p + 1);
    }
  }

  /** After stripping, no `(` is followed by a `)`. */
  lemma {:induction false} StripFromLeavesNoGroup(s: string, p: nat)
    requires p <= |s|
    ensures NoClosedGroup(StripFrom(s, p))
    decreases |s| - p
  {
    if p < |s| {
      match MatchAt(s, p)
      case Some(e) =>
        StripFromLeavesNoGroup(s, e);
      case None =>
        var rest := StripFrom(s, p + 1);
        StripFromLeavesNoGroup(s, p + 1);
        if s[p] == '(' {
          // The pattern failed on a `(` with no white space before it, so no
          // `)` follows it, and nothing kept from the rest is a `)`.
          assert SpaceRun(s, p) == p;
          StripFromNoClose(s, p + 1);
        }
        var r := [s[p]] + rest;
        forall i, j | 0 <= i < j < |r| && r[i] == '('
          ensures r[j] != ')'
        {
          assert r[j] == rest[j - 1];
          if i > 0 {
            assert r[i] == rest[i - 1];
          } else {
            assert rest[j - 1] in rest;
          }
        }
    }
  }

  lemma NoClosedGroupSlice(s: string, lo: nat, hi: nat)
    requires NoClosedGroup(s) && lo <= hi <= |s|
    ensures NoClosedGroup(s[lo..hi])
  {
    var t := s[lo..hi];
    forall i, j | 0 <= i < j < |t| && t[i] == '('
      ensures t[j] != ')'
    {
      assert t[i] == s[lo + i] && t[j] == s[lo + j];
    }
  }

  /** A string with nothing left to match is its own stripping. */
  lemma {:induction false} StripFromNoGroup(s: string, p: nat)
    requires p <= |s|
    requires NoClosedGroup(s)
    ensures StripFrom(s, p) == s[p..]
    decreases |s| - p
  {
    if p < |s| {
      var w := SpaceRun(s, p);
      if w < |s| && s[w] == '(' {
        assert CloseFrom(s, w + 1).None?;
      }
      StripFromNoGroup(s, p + 1);
      assert [s[p]] + s[p + 1..] == s[p..];
    }
  }

  /** Text without `(` is parsed to the same text trimmed. */
  lemma ParsePlayerNameNoParen(s: string)
    requires '(' !in s
    ensures ParsePlayerName(s) == Trim(s)
  {
    StripFromNoGroup(s, 0);
    assert s[0..] == s;
  }

  /** Parsing a parsed name changes nothing. */
  lemma ParsePlayerNameIdempotent(s: string)
    ensures ParsePlayerName(ParsePlayerName(s)) == ParsePlayerName(s)
  {
    var p := ParsePlayerName(s);
    StripFromNoGroup(p, 0);
    assert p[0..] == p;
    TrimTrimmed(p);
  }

  /** Characters from `p` up to index `n` that hold no `(` and end with a
      non-space are kept unchanged when nothing is kept after `n`. */
  lemma {:induction false} StripFromPrefix(s: string, p: nat, n: nat)
    requires p <= n <= |s|
    requires forall i :: p <= i < n ==> s[i] != '('
    requires p == n || !IsSpace(s[n - 1])
    requires StripFrom(s, n) == ""
    ensures StripFrom(s, p) == s[p..n]
    decreases n - p
  {
    if p == n {
      assert s[p..n] == [];
    } else {
      NoMatchBeforeText(s, p, n);
      StripFromNoMatch(s, p);
      StripFromPrefix(s, p + 1, n);
      ConsSlice(s, p, n);
    }
  }

  lemma ConsSlice(s: string, p: nat, n: nat)
    requires p < n <= |s|
    ensures [s[p]] + s[p + 1..n] == s[p..n]
  {
  }

  /** The pattern cannot match at `p` when the characters from `p` up to
      index `n` hold no `(` and end with a non-space. */
  lemma NoMatchBeforeText(s: string, p: nat, n: nat)
    requires p < n <= |s|
    requires forall i :: p <= i < n ==> s[i] != '('
    requires !IsSpace(s[n - 1])
    ensures MatchAt(s, p).None?
  {
    assert SpaceRun(s, p) < n;
  }

  /** Where the pattern does not match, the character is kept. */
  lemma StripFromNoMatch(s: string, p: nat)
    requires p < |s| && MatchAt(s, p).None?
    ensures StripFrom(s, p) == [s[p]] + StripFrom(s, p + 1)
  {
  }

  /** A space, a `(`, text without `)` and a closing `)` at index `n` are
      one match that runs to the end of the string. */
  lemma StripFromTitle(s: string, n: nat)
    requires n + 3 <= |s|
    requires s[n] == ' ' && s[n + 1] == '(' && s[|s| - 1] == ')'
    requires forall i :: n + 2 <= i < |s| - 1 ==> s[i] != ')'
    ensures StripFrom(s, n) == ""
  {
    assert SpaceRun(s, n + 1) == n + 1;
    assert CloseFrom(s, n + 2) == Some(|s| - 1);
    assert MatchAt(s, n) == Some(|s|);
  }

  /** A name followed by a space and a parenthesised title strips to the
      name alone. */
  lemma StripGroupsWithTitle(name: string, title: string)
    requires '(' !in name && ')' !in title
    requires name == [] || !IsSpace(name[|name| - 1])
    ensures StripGroups(name + " (" + title + ")") == name
  {
    var s := name + " (" + title + ")";
    var n := |name|;
    assert forall i :: n + 2 <= i < |s| - 1 ==> s[i] == title[i - n - 2];
    StripFromTitle(s, n);
    assert forall i :: 0 <= i < n ==> s[i] == name[i];
    StripFromPrefix(s, 0, n);
    assert s[0..n] == name;
  }

  /** ... and so parses to the name trimmed. */
  lemma ParsePlayerNameWithTitle(name: string, title: string)
    requires '(' !in name && ')' !in title
    requires name == [] || !IsSpace(name[|name| - 1])
    ensures ParsePlayerName(name + " (" + title + ")") == Trim(name)
  {
    StripGroupsWithTitle(name, title);
  }

  lemma StripGroupsExample()
    ensures StripGroups("Aeon (Guild Leader)") == "Aeon"
  {
    assert "Aeon (Guild Leader)" == "Aeon" + " (" + "Guild Leader" + ")";
    StripGroupsWithTitle("Aeon", "Guild Leader");
  }

  lemma ParsePlayerNameExample()
    ensures ParsePlayerName("Aeon (Guild Leader)") == "Aeon"
  {
    StripGroupsExample();
    TrimTrimmed("Aeon");
  }

  // ---------------------------------------------------------------------
  // parseVocation
  // ---------------------------------------------------------------------

  /** Both the base and the promoted name map to the promoted vocation; "None"
      and every other string map to `NoVocation`. */
  function ParseVocation(text: string): (v: Vocation)
    ensures !v.IsBase()
    ensures v != NoVocation ==> Trim(text) == v.Name() || Trim(text) == v.Base().Name()
    ensures v == NoVocation ==> forall w: Vocation :: w != NoVocation ==> w.Name() != Trim(text)
  {
    var normalized := Trim(text);
    if normalized == "Knight" || normalized == "Elite Knight" then EliteKnight
    else if normalized == "Sorcerer" || normalized == "Master Sorcerer" then MasterSorcerer
    else if normalized == "Druid" || normalized == "Elder Druid" then ElderDruid
    else if normalized == "Paladin" || normalized == "Royal Paladin" then RoyalPaladin
    else NoVocation
  }

  /** Each vocation's own name parses to its promoted form. */
  lemma ParseVocationName(v: Vocation)
    ensures ParseVocation(v.Name()) == v.Promoted()
  {
    TrimTrimmed(v.Name());
  }

  // ---------------------------------------------------------------------
  // parseLevel and parseExperience
  // ---------------------------------------------------------------------

  /** Every character of `d` is a decimal digit. */
  predicate AllDigits(d: string) {
    forall i :: 0 <= i < |d| ==> IsDigit(d[i])
  }

  /** The digits among the first `k` characters of `s`, in order. */
  function DigitsUpTo(s: string, k: nat): (d: string)
    requires k <= |s|
    ensures |d| <= k
  {
    if k == 0 then ""
    else DigitsUpTo(s, k - 1) + (if IsDigit(s[k - 1]) then [s[k - 1]] else "")
  }

  lemma {:induction false} DigitsUpToAllDigits(s: string, k: nat)
    requires k <= |s|
    ensures AllDigits(DigitsUpTo(s, k))
  {
    if k > 0 {
      DigitsUpToAllDigits(s, k - 1);
      AllDigitsAppend(DigitsUpTo(s, k - 1), if IsDigit(s[k - 1]) then [s[k - 1]] else "");
    }
  }

  /** `s.replace(/[^0-9]/g, '')`: the digits of `s`, in order. */
  function Digits(s: string): (d: string)
    ensures |d| <= |s|
    ensures AllDigits(d)
  {
    DigitsUpToAllDigits(s, |s|);
    DigitsUpTo(s, |s|)
  }

  function DigitValue(c: char): (n: nat)
    requires IsDigit(c)
    ensures n < 10
  {
    c as int - '0' as int
  }

  /** The value of the first `k` digits of `d`, most significant first. */
  function ValueUpTo(d: string, k: nat): nat
    requires k <= |d| && AllDigits(d)
  {
    if k == 0 then 0 else ValueUpTo(d, k - 1) * 10 + DigitValue(d[k - 1])
  }

  /** The value of a string of decimal digits; the empty string has value 0,
      as `BigInt("")` does. */
  function DecimalValue(d: string): nat
    requires AllDigits(d)
  {
    ValueUpTo(d, |d|)
  }

  function Pow10(n: nat): (p: nat)
    ensures p >= 1
  {
    if n == 0 then 1 else 10 * Pow10(n - 1)
  }

  /** A value read from `k` digits has at most `k` digits. */
  lemma {:induction false} ValueUpToBelow(d: string, k: nat)
    requires k <= |d| && AllDigits(d)
    ensures ValueUpTo(d, k) < Pow10(k)
  {
    if k > 0 {
      ValueUpToBelow(d, k - 1);
      assert ValueUpTo(d, k - 1) * 10 <= (Pow10(k - 1) - 1) * 10;
    }
  }

  /** `parseInt` of the digits, or 1 when there are none (`NaN`): otherwise
      the same number `BigInt` reads. */
  function ParseLevel(text: string): (level: int)
    ensures Digits(text) == "" ==> level == 1
    ensures Digits(text) != "" ==> level == ParseExperience(text)
    ensures level >= 0
  {
    var d := Digits(text);
    if |d| == 0 then 1 else DecimalValue(d)
  }

  /** `BigInt` of the digits: exact and unbounded, 0 without digits, and
      below 10 to the number of digits. */
  function ParseExperience(text: string): (xp: nat)
    ensures Digits(text) == "" ==> xp == 0
    ensures xp < Pow10(|Digits(text)|)
  {
    ValueUpToBelow(Digits(text), |Digits(text)|);
    DecimalValue(Digits(text))
  }

  /** The digit filter of a prefix does not look past the prefix. */
  lemma {:induction false} DigitsUpToPrefix(a: string, b: string, k: nat)
    requires k <= |a|
    ensures DigitsUpTo(a + b, k) == DigitsUpTo(a, k)
  {
    if k > 0 {
      assert (a + b)[k - 1] == a[k - 1];
      DigitsUpToPrefix(a, b, k - 1);
    }
  }

  lemma {:induction false} DigitsUpToAppend(a: string, b: string, k: nat)
    requires k <= |b|
    ensures DigitsUpTo(a + b, |a| + k) == DigitsUpTo(a, |a|) + DigitsUpTo(b, k)
  {
    if k == 0 {
      DigitsUpToPrefix(a, b, |a|);
    } else {
      assert (a + b)[|a| + k - 1] == b[k - 1];
      DigitsUpToAppend(a, b, k - 1);
    }
  }

  /** The digit filter distributes over concatenation. */
  lemma DigitsAppend(a: string, b: string)
    ensures Digits(a + b) == Digits(a) + Digits(b)
  {
    DigitsUpToAppend(a, b, |b|);
  }

  lemma {:induction false} DigitsUpToOfDigits(d: string, k: nat)
    requires k <= |d| && AllDigits(d)
    ensures DigitsUpTo(d, k) == d[..k]
  {
    if k > 0 {
      DigitsUpToOfDigits(d, k - 1);
      assert d[..k - 1] + [d[k - 1]] == d[..k];
    }
  }

  /** The digit filter keeps a string of digits whole. */
  lemma DigitsOfDigits(d: string)
    requires AllDigits(d)
    ensures Digits(d) == d
  {
    DigitsUpToOfDigits(d, |d|);
  }

  lemma AllDigitsAppend(x: string, y: string)
    requires AllDigits(x) && AllDigits(y)
    ensures AllDigits(x + y)
  {
    forall i | 0 <= i < |x + y|
      ensures IsDigit((x + y)[i])
    {
      if i >= |x| {
        assert (x + y)[i] == y[i - |x|];
      }
    }
  }

  lemma {:induction false} ValueUpToPrefix(x: string, y: string, k: nat)
    requires AllDigits(x + y) && AllDigits(x) && k <= |x|
    ensures ValueUpTo(x + y, k) == ValueUpTo(x, k)
  {
    if k > 0 {
      assert (x + y)[k - 1] == x[k - 1];
      ValueUpToPrefix(x, y, k - 1);
    }
  }

  /** Horner's step after a shift: `(a * p + b) * 10 + c`. */
  lemma ShiftStep(a: int, p: int, b: int, c: int)
    ensures (a * p + b) * 10 + c == a * (10 * p) + (b * 10 + c)
  {
  }

  lemma {:induction false} ValueUpToAppend(x: string, y: string, k: nat)
    requires AllDigits(x + y) && AllDigits(x) && AllDigits(y) && k <= |y|
    ensures ValueUpTo(x + y, |x| + k) == DecimalValue(x) * Pow10(k) + ValueUpTo(y, k)
  {
    if k == 0 {
      ValueUpToPrefix(x, y, |x|);
    } else {
      assert (x + y)[|x| + k - 1] == y[k - 1];
      ValueUpToAppend(x, y, k - 1);
      ShiftStep(DecimalValue(x), Pow10(k - 1), ValueUpTo(y, k - 1), DigitValue(y[k - 1]));
    }
  }

  /** The value of a concatenation of digit strings. */
  lemma DecimalValueAppend(x: string, y: string)
    requires AllDigits(x) && AllDigits(y)
    ensures AllDigits(x + y)
    ensures DecimalValue(x + y) == DecimalValue(x) * Pow10(|y|) + DecimalValue(y)
  {
    AllDigitsAppend(x, y);
    ValueUpToAppend(x, y, |y|);
  }

  /** Experience parsed from two pieces of text laid side by side: the
      digits of the second piece shift the first one's value left. */
  lemma ParseExperienceAppend(a: string, b: string)
    ensures ParseExperience(a + b) == ParseExperience(a) * Pow10(|Digits(b)|) + ParseExperience(b)
  {
    DigitsAppend(a, b);
    DecimalValueAppend(Digits(a), Digits(b));
  }

  lemma {:induction false} DecimalValueOfNatToString(n: nat)
    ensures DecimalValue(NatToString(n)) == n
  {
    if n >= 10 {
      var x, c := NatToString(n / 10), DigitChar(n % 10);
      assert NatToString(n) == x + [c];
      AllDigitsAppend(x, [c]);
      DecimalValueOfNatToString(n / 10);
      ValueUpToPrefix(x, [c], |x|);
      assert (x + [c])[|x|] == c;
      assert DigitValue(c) == n % 10;
      assert DecimalValue(x + [c]) == ValueUpTo(x + [c], |x|) * 10 + DigitValue(c);
    } else {
      assert DecimalValue([DigitChar(n)]) == ValueUpTo([DigitChar(n)], 0) * 10 + DigitValue(DigitChar(n));
    }
  }

  /** Parsing the decimal rendering of a number gives the number back. */
  lemma ParseExperienceRoundTrip(n: nat)
    ensures ParseExperience(NatToString(n)) == n
    ensures ParseLevel(NatToString(n)) == n
  {
    DigitsOfDigits(NatToString(n));
    DecimalValueOfNatToString(n);
  }

  lemma {:induction false} DigitsUpToNone(s: string, k: nat)
    requires k <= |s|
    requires forall i :: 0 <= i < k ==> !IsDigit(s[i])
    ensures DigitsUpTo(s, k) == ""
  {
    if k > 0 {
      DigitsUpToNone(s, k - 1);
    }
  }

  /** Text with no digit parses to level 1 and experience 0. */
  lemma ParseNoDigits(text: string)
    requires forall i :: 0 <= i < |text| ==> !IsDigit(text[i])
    ensures ParseLevel(text) == 1
    ensures ParseExperience(text) == 0
  {
    DigitsUpToNone(text, |text|);
  }

  // The digit filter and the decimal value of "12,345,678,901", one
  // character at a time.

  lemma DigitsExampleHead(s: string)
    requires s == "12,345,678,901"
    ensures DigitsUpTo(s, 7) == "12345"
  {
    assert DigitsUpTo(s, 1) == "1";
    assert DigitsUpTo(s, 2) == "12";
    assert DigitsUpTo(s, 3) == "12";
    assert DigitsUpTo(s, 4) == "123";
    assert DigitsUpTo(s, 5) == "1234";
    assert DigitsUpTo(s, 6) == "12345";
  }

  lemma DigitsExample()
    ensures Digits("12,345,678,901") == "12345678901"
  {
    var s := "12,345,678,901";
    DigitsExampleHead(s);
    assert DigitsUpTo(s, 8) == "123456";
    assert DigitsUpTo(s, 9) == "1234567";
    assert DigitsUpTo(s, 10) == "12345678";
    assert DigitsUpTo(s, 11) == "12345678";
    assert DigitsUpTo(s, 12) == "123456789";
    assert DigitsUpTo(s, 13) == "1234567890";
  }

  lemma DecimalValueExample()
    ensures DecimalValue("12345678901") == 12345678901
  {
    var d := "12345678901";
    assert ValueUpTo(d, 1) == 1;
    assert ValueUpTo(d, 2) == 12;
    assert ValueUpTo(d, 3) == 123;
    assert ValueUpTo(d, 4) == 1234;
    assert ValueUpTo(d, 5) == 12345;
    assert ValueUpTo(d, 6) == 123456;
    assert ValueUpTo(d, 7) == 1234567;
    assert ValueUpTo(d, 8) == 12345678;
    assert ValueUpTo(d, 9) == 123456789;
    assert ValueUpTo(d, 10) == 1234567890;
  }

  /** Experience beyond 32 bits is parsed exactly. */
  lemma ParseExperienceExample()
    ensures ParseExperience("12,345,678,901") == 12345678901
  {
    DigitsExample();
    DecimalValueExample();
  }

  /** The text `parseInt` reads digits from: the cell after its leading
      white space and at most one sign. */
  function Unsigned(text: string): (body: string)
    ensures |body| <= |text| && body == text[|text| - |body|..]
  {
    var t := text[LeadingSpaces(text)..];
    if |t| > 0 && (t[0] == '-' || t[0] == '+') then t[1..] else t
  }

  /** The first character after the leading white space is a minus sign. */
  predicate MinusSign(text: string) {
    var t := text[LeadingSpaces(text)..];
    |t| > 0 && t[0] == '-'
  }

  /** `parseInt` of a cell: the signed value of the leading decimal digits
      after white space and a sign; `None` stands for `NaN`, which is exactly
      the case with no leading digit. */
  function ParseInt(text: string): (r: Option<int>)
    ensures r.None? <==> DigitPrefix(Unsigned(text)) == 0
    ensures r.Some? ==>
      var d := Unsigned(text)[..DigitPrefix(Unsigned(text))];
      AllDigits(d) && r.value == if MinusSign(text) then -(DecimalValue(d) as int) else DecimalValue(d)
    ensures r.Some? ==> -(Pow10(DigitPrefix(Unsigned(text))) as int) < r.value < Pow10(DigitPrefix(Unsigned(text)))
  {
    var body := Unsigned(text);
    var k := DigitPrefix(body);
    if k == 0 then None
    else
      var d := body[..k];
      assert AllDigits(d);
      ValueUpToBelow(d, k);
      var v: int := DecimalValue(d);
      Some(if MinusSign(text) then -v else v)
  }

  /** `parseInt(String(i))` is `i`, for negative numbers too. */
  lemma ParseIntRoundTrip(i: int)
    ensures ParseInt(IntToString(i)) == Some(i)
  {
    var n: nat := if i < 0 then -i else i;
    var s := IntToString(i);
    var digits := NatToString(n);
    assert s == if i < 0 then "-" + digits else digits;
    assert !IsSpace(s[0]);
    assert LeadingSpaces(s) == 0;
    assert Unsigned(s) == digits;
    assert DigitPrefix(digits) == |digits|;
    assert digits[..|digits|] == digits;
    DecimalValueOfNatToString(n);
  }

  /** Length of the run of digits at the start of `s`. */
  function DigitPrefix(s: string): (k: nat)
    ensures k <= |s|
    ensures forall i :: 0 <= i < k ==> IsDigit(s[i])
    ensures k < |s| ==> !IsDigit(s[k])
  {
    if |s| > 0 && IsDigit(s[0]) then
      var k := 1 + DigitPrefix(s[1..]);
      assert forall i :: 1 <= i < k ==> s[i] == s[1..][i - 1];
      k
    else 0
  }

  // ---------------------------------------------------------------------
  // validateRequired
  // ---------------------------------------------------------------------

  /** The JavaScript values a form field can hold. */
  datatype JsValue = JsNull | JsUndefined | JsString(s: string) | JsNumber(n: int) | JsBool(b: bool)

  /** Fails on `null`, `undefined` and `''`, compared strictly, so `0` and
      `false` pass. */
  function ValidateRequired(value: JsValue, fieldName: string): (r: Outcome)
    ensures r.Fail? <==> value == JsNull || value == JsUndefined || value == JsString("")
    ensures r.Fail? ==> r.error == "Required field missing: " + fieldName
  {
    if value == JsNull || value == JsUndefined || value == JsString("") then
      Fail("Required field missing: " + fieldName)
    else Pass
  }

  // ---------------------------------------------------------------------
  // Form payloads
  // ---------------------------------------------------------------------

  datatype FormValue = Text(text: string) | Number(number: int)

  function ServerPayload(serverName: string): (p: map<string, FormValue>)
    ensures p.Keys == {"server"}
    ensures p["server"] == Text(serverName)
  {
    map["server" := Text(serverName)]
  }

  function GuildFilterPayload(serverName: string, guildName: string): (p: map<string, FormValue>)
    ensures p.Keys == {"server", "guild"}
    ensures p["server"] == Text(serverName) && p["guild"] == Text(guildName)
  {
    map["server" := Text(serverName), "guild" := Text(guildName)]
  }

  /** The page number defaults to 1 when the caller gives none. */
  function HighscoresPayload(serverName: string, page: Option<int>): (p: map<string, FormValue>)
    ensures p.Keys == {"server", "page"}
    ensures p["server"] == Text(serverName)
    ensures page.None? ==> p["page"] == Number(1)
    ensures page.Some? ==> p["page"] == Number(page.value)
  {
    map["server" := Text(serverName), "page" := Number(page.GetOr(1))]
  }
}
