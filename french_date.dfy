/**
 * parseFrenchDate of src/utils/date.ts: reads a French date fragment such
 * as "11 février", "11 fév 2025" or "1 janvier 2025" and gives the ISO text
 * YYYY-MM-DD, or null. The text is trimmed, lower-cased and stripped of
 * periods; it must then read `day month [year]` as the pattern
 * ^(\d{1,2})\s+([a-zàâäéèêëïîôùûüç]+)(?:\s+(\d{4}))?$ says; the month word
 * is looked up in a table of full, abbreviated and unaccented names; the
 * day must lie in 1..31; a missing year is the current year, which the
 * caller supplies.
 */
module FrenchDate {
  import opened Wrappers
  import opened JsBuiltins

  /** MONTH_NAMES: month words to month indices 0..11. */
  const MonthNames: map<string, nat> := map[
    "janvier" := 0, "janv" := 0, "jan" := 0,
    "f\U{E9}vrier" := 1, "fevrier" := 1, "f\U{E9}v" := 1, "fev" := 1,
    "mars" := 2, "mar" := 2,
    "avril" := 3, "avr" := 3,
    "mai" := 4,
    "juin" := 5,
    "juillet" := 6, "juil" := 6,
    "ao\U{FB}t" := 7, "aout" := 7, "ao\U{FB}" := 7,
    "septembre" := 8, "sept" := 8, "sep" := 8,
    "octobre" := 9, "oct" := 9,
    "novembre" := 10, "nov" := 10,
    "d\U{E9}cembre" := 11, "decembre" := 11, "d\U{E9}c" := 11, "dec" := 11
  ]

  /** The full French name of each month. */
  function FullMonthName(month: nat): string
    requires month < 12
  {
    [ "janvier", "f\U{E9}vrier", "mars", "avril", "mai", "juin", "juillet",
      "ao\U{FB}t", "septembre", "octobre", "novembre", "d\U{E9}cembre" ][month]
  }

  // ---------------------------------------------------------------------
  // Normalisation: trim, lower-case, drop every period
  // ---------------------------------------------------------------------

  /** replace(/\./g, ''). */
  function RemovePeriods(s: string): (r: string)
    ensures '.' !in r && |r| <= |s|
  {
    if s == [] then []
    else
      var rest := RemovePeriods(s[1..]);
      if s[0] == '.' then rest else [s[0]] + rest
  }

  /** Removing the periods of a text without any changes nothing. */
  lemma {:induction false} RemovePeriodsUnchanged(s: string)
    requires '.' !in s
    ensures RemovePeriods(s) == s
  {
    if s != [] {
      assert s == [s[0]] + s[1..];
      RemovePeriodsUnchanged(s[1..]);
    }
  }

  lemma {:induction false} RemovePeriodsConcat(a: string, b: string)
    ensures RemovePeriods(a + b) == RemovePeriods(a) + RemovePeriods(b)
  {
    if a == [] {
      assert a + b == b;
    } else {
      assert (a + b)[1..] == a[1..] + b;
      RemovePeriodsConcat(a[1..], b);
    }
  }

  /** Lower-casing keeps the periods and makes none, so it commutes with
      their removal. */
  lemma {:induction false} RemovePeriodsLower(s: string)
    ensures ToLower(RemovePeriods(s)) == RemovePeriods(ToLower(s))
  {
    if s != [] {
      assert ToLower(s)[1..] == ToLower(s[1..]);
      RemovePeriodsLower(s[1..]);
    }
  }

  lemma RemovePeriodsIdempotent(s: string)
    ensures RemovePeriods(RemovePeriods(s)) == RemovePeriods(s)
  {
    RemovePeriodsUnchanged(RemovePeriods(s));
  }

  /** Removing periods keeps the characters at both ends when they are not
      periods. */
  lemma RemovePeriodsEnds(s: string)
    requires s != [] && s[0] != '.' && s[|s| - 1] != '.'
    ensures var r := RemovePeriods(s);
            r != [] && r[0] == s[0] && r[|r| - 1] == s[|s| - 1]
  {
    var init := s[..|s| - 1];
    assert s == init + [s[|s| - 1]];
    RemovePeriodsConcat(init, [s[|s| - 1]]);
    assert [s[|s| - 1]][1..] == [];
  }

  /** Trim, toLowerCase and replace(/\./g, ''): the result is lower case,
      holds no period and is no longer than the input. */
  function Normalize(input: string): (r: string)
    ensures '.' !in r && IsLower(r) && |r| <= |input|
  {
    var t := ToLower(Trim(input));
    LowerIdempotent(Trim(input));
    RemovePeriodsLower(t);
    RemovePeriods(t)
  }

  /** A text that needs no normalising is its own normal form. */
  lemma NormalizeClean(s: string)
    requires s == [] || (!IsWhitespace(s[0]) && !IsWhitespace(s[|s| - 1]))
    requires IsLower(s) && '.' !in s
    ensures Normalize(s) == s
  {
    TrimUnchanged(s);
    LowerUnchanged(s);
    RemovePeriodsUnchanged(s);
  }

  // ---------------------------------------------------------------------
  // The pattern
  // ---------------------------------------------------------------------

  /** The letters of the month-word class: a-z and àâäéèêëïîôùûüç. */
  predicate IsMonthLetter(c: char) {
    || ('a' <= c <= 'z')
    || c == '\U{E0}' || c == '\U{E2}' || c == '\U{E4}' || c == '\U{E9}' || c == '\U{E8}'
    || c == '\U{EA}' || c == '\U{EB}' || c == '\U{EF}' || c == '\U{EE}' || c == '\U{F4}'
    || c == '\U{F9}' || c == '\U{FB}' || c == '\U{FC}' || c == '\U{E7}'
  }

  /** The three character classes of the pattern: \d, \s and the letters. */
  datatype CharClass = Digit | Space | Letter

  predicate InClass(c: char, k: CharClass) {
    match k
    case Digit => IsAsciiDigit(c)
    case Space => IsWhitespace(c)
    case Letter => IsMonthLetter(c)
  }

  predicate AllIn(s: string, k: CharClass) {
    forall i :: 0 <= i < |s| ==> InClass(s[i], k)
  }

  lemma AllInDigits(s: string)
    requires AllIn(s, Digit)
    ensures AllDigits(s)
  {
    assert forall i :: 0 <= i < |s| ==> InClass(s[i], Digit);
  }

  /** The character classes are disjoint. */
  lemma ClassesDisjoint(c: char)
    ensures !(InClass(c, Digit) && InClass(c, Space))
    ensures !(InClass(c, Space) && InClass(c, Letter))
    ensures !(InClass(c, Letter) && InClass(c, Digit))
  {
  }

  /** The length of the longest prefix of `s` in class `k`. */
  function RunLength(s: string, k: CharClass): (n: nat)
    ensures n <= |s| && AllIn(s[..n], k)
    ensures n < |s| ==> !InClass(s[n], k)
  {
    if |s| > 0 && InClass(s[0], k) then
      var n := 1 + RunLength(s[1..], k);
      assert s[..n] == [s[0]] + s[1..][..n - 1];
      n
    else
      0
  }

  /** The capture groups of a match: the day digits, the month word and the
      year digits when present. */
  datatype DateMatch = DateMatch(day: string, word: string, year: Option<string>)

  /** The pattern as a scanner, one stage per part. Each class is disjoint
      from the class that follows it, so each run is taken whole and there
      is nothing to backtrack. */
  function MatchDate(s: string): (m: Option<DateMatch>)
    ensures m.Some? ==> 1 <= |m.value.day| <= 2 && AllDigits(m.value.day)
    ensures m.Some? && m.value.year.Some? ==> |m.value.year.value| == 4 && AllDigits(m.value.year.value)
  {
    var nd := RunLength(s, Digit);
    if nd < 1 || nd > 2 then None
    else
      AllInDigits(s[..nd]);
      AfterDay(s[..nd], s[nd..])
  }

  /** After the day: one or more whitespace characters. */
  function AfterDay(day: string, r: string): (m: Option<DateMatch>)
    ensures m.Some? ==> m.value.day == day
    ensures m.Some? && m.value.year.Some? ==> |m.value.year.value| == 4 && AllDigits(m.value.year.value)
  {
    var ns := RunLength(r, Space);
    if ns == 0 then None else AfterSpace(day, r[ns..])
  }

  /** After the first gap: the month word. */
  function AfterSpace(day: string, r: string): (m: Option<DateMatch>)
    ensures m.Some? ==> m.value.day == day
    ensures m.Some? && m.value.year.Some? ==> |m.value.year.value| == 4 && AllDigits(m.value.year.value)
  {
    var nl := RunLength(r, Letter);
    if nl == 0 then None else AfterWord(day, r[..nl], r[nl..])
  }

  /** After the month word: the end of the text, or whitespace and exactly
      four digits. */
  function AfterWord(day: string, word: string, r: string): (m: Option<DateMatch>)
    ensures m.Some? ==> m.value.day == day && m.value.word == word
    ensures m.Some? && m.value.year.Some? ==> |m.value.year.value| == 4 && AllDigits(m.value.year.value)
  {
    if r == [] then Some(DateMatch(day, word, None))
    else
      var ns := RunLength(r, Space);
      var y := r[ns..];
      if ns > 0 && |y| == 4 && AllIn(y, Digit) then
        AllInDigits(y);
        Some(DateMatch(day, word, Some(y)))
      else None
  }

  /** What the regular expression accepts, stated as a decomposition of the
      text: the day (one or two digits), whitespace, the month word (one or
      more letters), then either the end or whitespace and four digits. */
  predicate Decomposes(s: string, day: string, sp1: string, word: string, sp2: string, year: Option<string>) {
    && 1 <= |day| <= 2 && AllIn(day, Digit)
    && |sp1| >= 1 && AllIn(sp1, Space)
    && |word| >= 1 && AllIn(word, Letter)
    && match year
       case None => sp2 == [] && s == day + sp1 + word
       case Some(y) =>
         |sp2| >= 1 && AllIn(sp2, Space) && |y| == 4 && AllIn(y, Digit)
         && s == day + sp1 + word + sp2 + y
  }

  lemma {:induction false} RunLengthOfPrefix(a: string, b: string, k: CharClass)
    requires AllIn(a, k)
    requires b == [] || !InClass(b[0], k)
    ensures RunLength(a + b, k) == |a|
  {
    if a != [] {
      assert (a + b)[1..] == a[1..] + b;
      RunLengthOfPrefix(a[1..], b, k);
    }
  }

  /** Scanning a run of class `k` followed by `rest` takes the run and
      leaves `rest`. */
  lemma RunThen(run: string, rest: string, k: CharClass)
    requires AllIn(run, k)
    requires rest == [] || !InClass(rest[0], k)
    ensures RunLength(run + rest, k) == |run|
    ensures (run + rest)[..|run|] == run && (run + rest)[|run|..] == rest
  {
    RunLengthOfPrefix(run, rest, k);
    assert (run + rest)[..|run|] == run;
    assert (run + rest)[|run|..] == rest;
  }

  lemma MatchDateStep(day: string, r: string)
    requires 1 <= |day| <= 2 && AllIn(day, Digit)
    requires r == [] || !InClass(r[0], Digit)
    ensures MatchDate(day + r) == AfterDay(day, r)
  {
    RunThen(day, r, Digit);
  }

  lemma AfterDayStep(day: string, sp: string, r: string)
    requires |sp| >= 1 && AllIn(sp, Space)
    requires r == [] || !InClass(r[0], Space)
    ensures AfterDay(day, sp + r) == AfterSpace(day, r)
  {
    RunThen(sp, r, Space);
  }

  lemma AfterSpaceStep(day: string, word: string, r: string)
    requires |word| >= 1 && AllIn(word, Letter)
    requires r == [] || !InClass(r[0], Letter)
    ensures AfterSpace(day, word + r) == AfterWord(day, word, r)
  {
    RunThen(word, r, Letter);
  }

  lemma AfterWordYear(day: string, word: string, sp: string, y: string)
    requires |sp| >= 1 && AllIn(sp, Space) && |y| == 4 && AllIn(y, Digit)
    ensures AfterWord(day, word, sp + y) == Some(DateMatch(day, word, Some(y)))
  {
    ClassesDisjoint(y[0]);
    RunThen(sp, y, Space);
  }

  /** Every text the pattern accepts is accepted by the scanner, with the
      same groups. */
  lemma MatchDateComplete(s: string, day: string, sp1: string, word: string, sp2: string, year: Option<string>)
    requires Decomposes(s, day, sp1, word, sp2, year)
    ensures MatchDate(s) == Some(DateMatch(day, word, year))
  {
    var tail := if year.Some? then sp2 + year.value else [];
    assert s == day + (sp1 + (word + tail)) by {
      if year.Some? {
        assert s == day + sp1 + word + sp2 + year.value;
      }
    }
    ClassesDisjoint(sp1[0]);
    MatchDateStep(day, sp1 + (word + tail));
    ClassesDisjoint(word[0]);
    AfterDayStep(day, sp1, word + tail);
    if year.Some? {
      ClassesDisjoint(sp2[0]);
      AfterSpaceStep(day, word, tail);
      AfterWordYear(day, word, sp2, year.value);
    } else {
      AfterSpaceStep(day, word, tail);
    }
  }

  lemma AfterWordSound(day: string, word: string, r: string)
    requires AfterWord(day, word, r).Some?
    ensures var m := AfterWord(day, word, r).value;
            var sp := r[..RunLength(r, Space)];
            match m.year
            case None => r == []
            case Some(y) => |sp| >= 1 && AllIn(sp, Space) && |y| == 4 && AllIn(y, Digit) && r == sp + y
  {
    if r != [] {
      var ns := RunLength(r, Space);
      assert r == r[..ns] + r[ns..];
    }
  }

  lemma AfterSpaceSound(day: string, r: string)
    requires AfterSpace(day, r).Some?
    ensures var nl := RunLength(r, Letter);
            var m := AfterSpace(day, r).value;
            nl >= 1 && AllIn(r[..nl], Letter) && m.word == r[..nl]
            && AfterWord(day, r[..nl], r[nl..]) == Some(m) && r == m.word + r[nl..]
  {
    var nl := RunLength(r, Letter);
    assert r == r[..nl] + r[nl..];
  }

  lemma AfterDaySound(day: string, r: string)
    requires AfterDay(day, r).Some?
    ensures var ns := RunLength(r, Space);
            ns >= 1 && AllIn(r[..ns], Space)
            && AfterSpace(day, r[ns..]) == AfterDay(day, r) && r == r[..ns] + r[ns..]
  {
    var ns := RunLength(r, Space);
    assert r == r[..ns] + r[ns..];
  }

  lemma MatchDateFirstStage(s: string)
    requires MatchDate(s).Some?
    ensures var nd := RunLength(s, Digit);
            1 <= nd <= 2 && AllIn(s[..nd], Digit)
            && AfterDay(s[..nd], s[nd..]) == MatchDate(s) && s == s[..nd] + s[nd..]
  {
    var nd := RunLength(s, Digit);
    assert s == s[..nd] + s[nd..];
  }

  /** The pieces the stages take, put back together, decompose the text. */
  lemma Assemble(s: string, day: string, r1: string, sp1: string, r2: string,
                 word: string, r3: string, sp2: string, year: Option<string>)
    requires 1 <= |day| <= 2 && AllIn(day, Digit) && s == day + r1
    requires |sp1| >= 1 && AllIn(sp1, Space) && r1 == sp1 + r2
    requires |word| >= 1 && AllIn(word, Letter) && r2 == word + r3
    requires year.None? ==> r3 == []
    requires year.Some? ==> |sp2| >= 1 && AllIn(sp2, Space) && |year.value| == 4
                            && AllIn(year.value, Digit) && r3 == sp2 + year.value
    ensures Decomposes(s, day, sp1, word, if year.Some? then sp2 else [], year)
  {
    assert s == day + sp1 + word + r3;
    if year.Some? {
      assert s == day + sp1 + word + sp2 + year.value;
    } else {
      assert s == day + sp1 + word;
    }
  }

  /** Every text the scanner accepts is accepted by the pattern, with the
      groups the scanner reports. */
  lemma MatchDateSound(s: string)
    requires MatchDate(s).Some?
    ensures var m := MatchDate(s).value;
            exists sp1, sp2 :: Decomposes(s, m.day, sp1, m.word, sp2, m.year)
  {
    var m := MatchDate(s).value;
    MatchDateFirstStage(s);
    var nd := RunLength(s, Digit);
    var r1 := s[nd..];
    AfterDaySound(m.day, r1);
    var ns := RunLength(r1, Space);
    var sp1, r2 := r1[..ns], r1[ns..];
    AfterSpaceSound(m.day, r2);
    var r3 := r2[RunLength(r2, Letter)..];
    AfterWordSound(m.day, m.word, r3);
    var sp2 := r3[..RunLength(r3, Space)];
    Assemble(s, m.day, r1, sp1, r2, m.word, r3, sp2, m.year);
  }

  // ---------------------------------------------------------------------
  // parseFrenchDate
  // ---------------------------------------------------------------------

  /** A calendar date as the parser builds it; `month` is the table index
      0..11, as the calendar library takes it. */
  datatype DateParts = DateParts(year: nat, month: nat, day: nat)

  /** Lines 60-70 of parseFrenchDate: the date it hands to the calendar
      library, or None where it returns null. */
  function MatchFrenchDate(input: string, currentYear: nat): (r: Option<DateParts>)
    ensures r.Some? ==> 1 <= r.value.day <= 31 && r.value.month < 12
  {
    DateOfMatch(MatchDate(Normalize(input)), currentYear)
  }

  /** The month lookup and the day check on the groups of a match; a
      missing year is the current year. */
  function DateOfMatch(m: Option<DateMatch>, currentYear: nat): (r: Option<DateParts>)
    requires m.Some? ==> AllDigits(m.value.day)
    requires m.Some? && m.value.year.Some? ==> AllDigits(m.value.year.value)
    ensures r.Some? ==> 1 <= r.value.day <= 31 && r.value.month < 12
  {
    match m
    case None => None
    case Some(g) =>
      var day := ParseDigits(g.day);
      var year := if g.year.Some? then ParseDigits(g.year.value) else currentYear;
      if g.word !in MonthNames then None
      else if day < 1 || day > 31 then None
      else
        MonthNamesInRange(g.word);
        Some(DateParts(year, MonthNames[g.word], day))
  }

  /** d.format('YYYY-MM-DD'): each part padded with zeros, the month printed
      as its index plus one. */
  function FormatIso(p: DateParts): (r: string)
    ensures |r| >= 10
  {
    PadStart(DecimalText(p.year), 4, '0') + "-"
      + PadStart(DecimalText(p.month + 1), 2, '0') + "-"
      + PadStart(DecimalText(p.day), 2, '0')
  }

  /** parseFrenchDate, taking the calendar step to keep the date it is
      given. */
  function ParseFrenchDate(input: string, currentYear: nat): (r: Option<string>)
    ensures r.Some? <==> MatchFrenchDate(input, currentYear).Some?
    ensures r.Some? && MatchFrenchDate(input, currentYear).value.year < 10000 ==>
              var p := MatchFrenchDate(input, currentYear).value;
              r.value == DigitsOf(p.year, 4) + "-" + DigitsOf(p.month + 1, 2) + "-" + DigitsOf(p.day, 2)
  {
    match MatchFrenchDate(input, currentYear)
    case None => None
    case Some(p) =>
      if p.year < 10000 then FormatIsoLayout(p); Some(FormatIso(p))
      else Some(FormatIso(p))
  }

  // ---------------------------------------------------------------------
  // The month table
  // ---------------------------------------------------------------------

  lemma MonthNamesInRange(w: string)
    requires w in MonthNames
    ensures MonthNames[w] < 12
  {
  }

  /** Every word of the table is lower case and consists of pattern
      letters, so the pattern can match it. */
  lemma MonthWordMatchable(w: string)
    requires w in MonthNames
    ensures |w| >= 1 && AllIn(w, Letter) && IsLower(w)
  {
    if MonthNames[w] < 4 {
      EarlyWordsMatchable(w);
    } else if MonthNames[w] < 8 {
      MiddleWordsMatchable(w);
    } else {
      LateWordsMatchable(w);
    }
  }

  lemma EarlyWordsMatchable(w: string)
    requires w in MonthNames && MonthNames[w] < 4
    ensures |w| >= 1 && AllIn(w, Letter) && IsLower(w)
  {
  }

  lemma MiddleWordsMatchable(w: string)
    requires w in MonthNames && 4 <= MonthNames[w] < 8
    ensures |w| >= 1 && AllIn(w, Letter) && IsLower(w)
  {
  }

  lemma LateWordsMatchable(w: string)
    requires w in MonthNames && 8 <= MonthNames[w]
    ensures |w| >= 1 && AllIn(w, Letter) && IsLower(w)
  {
  }

  /** Each month has its full name in the table. */
  lemma FullNamesInTable(month: nat)
    requires month < 12
    ensures FullMonthName(month) in MonthNames && MonthNames[FullMonthName(month)] == month
  {
    if month < 6 {
      assert month == 0 || month == 1 || month == 2 || month == 3 || month == 4 || month == 5;
    } else {
      assert month == 6 || month == 7 || month == 8 || month == 9 || month == 10 || month == 11;
    }
  }

  /** The French accented letters folded to their base letter. */
  function FoldAccent(c: char): char {
    if c == '\U{E9}' || c == '\U{E8}' || c == '\U{EA}' || c == '\U{EB}' then 'e'
    else if c == '\U{FB}' || c == '\U{F9}' || c == '\U{FC}' then 'u'
    else if c == '\U{E0}' || c == '\U{E2}' || c == '\U{E4}' then 'a'
    else if c == '\U{EE}' || c == '\U{EF}' then 'i'
    else if c == '\U{F4}' then 'o'
    else if c == '\U{E7}' then 'c'
    else c
  }

  function FoldAccents(s: string): (r: string)
    ensures |r| == |s| && forall i :: 0 <= i < |s| ==> r[i] == FoldAccent(s[i])
  {
    seq(|s|, i requires 0 <= i < |s| => FoldAccent(s[i]))
  }

  /** Accents aside, `w` begins the full name of the month `month`. */
  predicate Abbreviates(w: string, month: nat)
    requires month < 12
  {
    var full := FoldAccents(FullMonthName(month));
    |w| <= |full| && FoldAccents(w) == full[..|w|]
  }

  lemma WinterSpringWordsAbbreviate(w: string)
    requires w in MonthNames && MonthNames[w] < 4
    ensures Abbreviates(w, MonthNames[w])
  {
  }

  lemma SummerWordsAbbreviate(w: string)
    requires w in MonthNames && 4 <= MonthNames[w] < 8
    ensures Abbreviates(w, MonthNames[w])
  {
  }

  lemma AutumnWordsAbbreviate(w: string)
    requires w in MonthNames && 8 <= MonthNames[w]
    ensures MonthNames[w] < 12 && Abbreviates(w, MonthNames[w])
  {
  }

  /** Every word of the table, accents aside, begins its month's full name:
      each key is that month's name, an abbreviation of it, or a spelling
      without accents. */
  lemma MonthWordAbbreviates(w: string)
    requires w in MonthNames
    ensures MonthNames[w] < 12 && Abbreviates(w, MonthNames[w])
  {
    if MonthNames[w] < 4 {
      WinterSpringWordsAbbreviate(w);
    } else if MonthNames[w] < 8 {
      SummerWordsAbbreviate(w);
    } else {
      AutumnWordsAbbreviate(w);
    }
  }

  // ---------------------------------------------------------------------
  // The output format
  // ---------------------------------------------------------------------

  /** The output is ten characters YYYY-MM-DD: a four-digit year, the
      month index plus one in two digits, the day in two digits. */
  lemma FormatIsoLayout(p: DateParts)
    requires p.year < 10000 && p.month < 12 && 1 <= p.day <= 31
    ensures FormatIso(p) == DigitsOf(p.year, 4) + "-" + DigitsOf(p.month + 1, 2) + "-" + DigitsOf(p.day, 2)
    ensures |FormatIso(p)| == 10
  {
    assert Pow10(2) == 100 && Pow10(4) == 10000;
    PadDecimal(p.year, 4);
    PadDecimal(p.month + 1, 2);
    PadDecimal(p.day, 2);
  }

  // ---------------------------------------------------------------------
  // What the parser accepts
  // ---------------------------------------------------------------------

  /** The text `day month` or `day month year`, single-spaced. */
  function DateText(day: string, word: string, year: Option<string>): string {
    day + " " + word + (if year.Some? then " " + year.value else "")
  }

  /** Characters that lower-casing keeps and that are not periods. */
  predicate PatternChars(s: string) {
    forall i :: 0 <= i < |s| ==> s[i] == ' ' || IsAsciiDigit(s[i]) || IsMonthLetter(s[i])
  }

  lemma PatternCharsClean(s: string)
    requires PatternChars(s)
    ensures IsLower(s) && '.' !in s
  {
    assert forall i :: 0 <= i < |s| ==> LowerChar(s[i]) == s[i] && s[i] != '.';
  }

  lemma DateTextChars(day: string, word: string, year: Option<string>)
    requires AllIn(day, Digit) && AllIn(word, Letter)
    requires year.Some? ==> AllIn(year.value, Digit)
    ensures PatternChars(DateText(day, word, year))
  {
    var t := DateText(day, word, year);
    var y := if year.Some? then " " + year.value else "";
    assert PatternChars(y);
    assert t == day + [' '] + word + y;
    forall i | 0 <= i < |t|
      ensures t[i] == ' ' || IsAsciiDigit(t[i]) || IsMonthLetter(t[i])
    {
      if i < |day| {
        assert t[i] == day[i] && InClass(day[i], Digit);
      } else if i == |day| {
        assert t[i] == ' ';
      } else if i < |day| + 1 + |word| {
        assert t[i] == word[i - |day| - 1] && InClass(word[i - |day| - 1], Letter);
      } else {
        assert t[i] == y[i - |day| - 1 - |word|];
      }
    }
  }

  /** Such a text needs no normalising. */
  lemma DateTextNormal(day: string, word: string, year: Option<string>)
    requires |day| >= 1 && AllIn(day, Digit)
    requires |word| >= 1 && AllIn(word, Letter)
    requires year.Some? ==> |year.value| == 4 && AllIn(year.value, Digit)
    ensures Normalize(DateText(day, word, year)) == DateText(day, word, year)
  {
    var t := DateText(day, word, year);
    DateTextChars(day, word, year);
    PatternCharsClean(t);
    assert t[0] == day[0] && InClass(day[0], Digit);
    if year.Some? {
      assert t[|t| - 1] == year.value[3] && InClass(year.value[3], Digit);
    } else {
      assert t[|t| - 1] == word[|word| - 1] && InClass(word[|word| - 1], Letter);
    }
    NormalizeClean(t);
  }

  /** The pattern splits such a text back into its parts. */
  lemma DateTextSplits(day: string, word: string, year: Option<string>)
    requires 1 <= |day| <= 2 && AllIn(day, Digit)
    requires |word| >= 1 && AllIn(word, Letter)
    requires year.Some? ==> |year.value| == 4 && AllIn(year.value, Digit)
    ensures MatchDate(DateText(day, word, year)) == Some(DateMatch(day, word, year))
  {
    var t := DateText(day, word, year);
    assert AllIn(" ", Space);
    if year.Some? {
      assert t == day + " " + word + " " + year.value;
      MatchDateComplete(t, day, " ", word, " ", year);
    } else {
      assert t == day + " " + word;
      MatchDateComplete(t, day, " ", word, [], None);
    }
  }

  /** The digits of a day 1..99 are one or two digits. */
  lemma DayDigits(day: nat)
    requires day < 100
    ensures var d := DecimalText(day);
            1 <= |d| <= 2 && AllIn(d, Digit) && ParseDigits(d) == day
  {
    assert Pow10(2) == 100;
    DecimalTextFits(day, 2);
    var d := DecimalText(day);
    assert forall i :: 0 <= i < |d| ==> IsAsciiDigit(d[i]);
  }

  /** The four digits of a year below 10000. */
  lemma YearDigits(year: nat)
    requires year < 10000
    ensures var y := DigitsOf(year, 4);
            |y| == 4 && AllIn(y, Digit) && ParseDigits(y) == year
  {
    assert Pow10(4) == 10000;
    ParseDigitsOf(year, 4);
    var y := DigitsOf(year, 4);
    assert forall i :: 0 <= i < |y| ==> IsAsciiDigit(y[i]);
  }

  /** parseFrenchDate's result on a text that needs no normalising and
      that the pattern matches. */
  lemma MatchFrenchDateOf(t: string, g: DateMatch, currentYear: nat)
    requires Normalize(t) == t && MatchDate(t) == Some(g)
    ensures MatchFrenchDate(t, currentYear) == DateOfMatch(Some(g), currentYear)
  {
  }

  /** The groups of a match whose word is in the table and whose day lies
      in 1..31 give that date. */
  lemma DateOfKnownMonth(g: DateMatch, currentYear: nat, year: nat)
    requires AllDigits(g.day) && g.word in MonthNames && 1 <= ParseDigits(g.day) <= 31
    requires g.year.Some? ==> AllDigits(g.year.value) && ParseDigits(g.year.value) == year
    requires g.year.None? ==> year == currentYear
    ensures DateOfMatch(Some(g), currentYear) == Some(DateParts(year, MonthNames[g.word], ParseDigits(g.day)))
  {
  }

  /** On a text built from a day, a word and an optional year the parser
      sees exactly those groups. */
  lemma MatchOfDateText(day: string, word: string, year: Option<string>, currentYear: nat)
    requires 1 <= |day| <= 2 && AllIn(day, Digit)
    requires |word| >= 1 && AllIn(word, Letter)
    requires year.Some? ==> |year.value| == 4 && AllIn(year.value, Digit)
    ensures AllDigits(day) && (year.Some? ==> AllDigits(year.value))
    ensures MatchFrenchDate(DateText(day, word, year), currentYear) == DateOfMatch(Some(DateMatch(day, word, year)), currentYear)
  {
    AllInDigits(day);
    if year.Some? {
      AllInDigits(year.value);
    }
    DateTextNormal(day, word, year);
    DateTextSplits(day, word, year);
    MatchFrenchDateOf(DateText(day, word, year), DateMatch(day, word, year), currentYear);
  }

  lemma MatchWithYear(day: nat, word: string, year: nat, currentYear: nat)
    requires 1 <= day <= 31 && word in MonthNames && year < 10000
    ensures MatchFrenchDate(DateText(DecimalText(day), word, Some(DigitsOf(year, 4))), currentYear)
         == Some(DateParts(year, MonthNames[word], day))
  {
    var d, y := DecimalText(day), DigitsOf(year, 4);
    DayDigits(day);
    YearDigits(year);
    MonthWordMatchable(word);
    MatchOfDateText(d, word, Some(y), currentYear);
    DateOfKnownMonth(DateMatch(d, word, Some(y)), currentYear, year);
  }

  /** The text `day month year` built from any day 1..31, any word of the
      table and any four-digit year parses to that date. */
  lemma ParseWithYear(day: nat, word: string, year: nat, currentYear: nat)
    requires 1 <= day <= 31 && word in MonthNames && year < 10000
    ensures ParseFrenchDate(DecimalText(day) + " " + word + " " + DigitsOf(year, 4), currentYear)
         == Some(FormatIso(DateParts(year, MonthNames[word], day)))
  {
    var d, y := DecimalText(day), DigitsOf(year, 4);
    MatchWithYear(day, word, year, currentYear);
    assert DateText(d, word, Some(y)) == d + " " + word + " " + y;
  }

  /** "1 janvier 2025" reads as 2025-01-01, whatever the current year. */
  lemma FirstOfJanuary(currentYear: nat)
    ensures ParseFrenchDate("1 janvier 2025", currentYear) == Some("2025-01-01")
  {
    JanvierInTable();
    ExampleDigits();
    ParseWithYear(1, "janvier", 2025, currentYear);
    ExampleLayout();
  }

  lemma JanvierInTable()
    ensures "janvier" in MonthNames && MonthNames["janvier"] == 0
  {
  }

  lemma ExampleDigits()
    ensures DecimalText(1) + " " + "janvier" + " " + DigitsOf(2025, 4) == "1 janvier 2025"
  {
    assert DecimalText(1) == "1";
    assert DigitsOf(2025, 4) == "2025";
  }

  lemma ExampleLayout()
    ensures FormatIso(DateParts(2025, 0, 1)) == "2025-01-01"
  {
    FormatIsoLayout(DateParts(2025, 0, 1));
    YearText();
    DayText();
    ExampleJoin(DigitsOf(2025, 4), DigitsOf(1, 2));
  }

  lemma YearText()
    ensures DigitsOf(2025, 4) == "2025"
  {
  }

  lemma DayText()
    ensures DigitsOf(1, 2) == "01"
  {
  }

  lemma ExampleJoin(y: string, d: string)
    requires y == "2025" && d == "01"
    ensures y + "-" + d + "-" + d == "2025-01-01"
  {
  }

  /** A day outside 1..31 gives no date. */
  lemma DateOfBadDay(g: DateMatch, currentYear: nat)
    requires AllDigits(g.day) && (g.year.Some? ==> AllDigits(g.year.value))
    requires !(1 <= ParseDigits(g.day) <= 31)
    ensures DateOfMatch(Some(g), currentYear) == None
  {
  }

  /** A word outside the table gives no date. */
  lemma DateOfUnknownMonth(g: DateMatch, currentYear: nat)
    requires AllDigits(g.day) && (g.year.Some? ==> AllDigits(g.year.value))
    requires g.word !in MonthNames
    ensures DateOfMatch(Some(g), currentYear) == None
  {
  }

  lemma MatchWithoutYear(day: nat, word: string, currentYear: nat)
    requires 1 <= day <= 99 && word in MonthNames
    ensures MatchFrenchDate(DateText(DecimalText(day), word, None), currentYear)
         == if day <= 31 then Some(DateParts(currentYear, MonthNames[word], day)) else None
  {
    var d := DecimalText(day);
    DayDigits(day);
    MonthWordMatchable(word);
    MatchOfDateText(d, word, None, currentYear);
    if day <= 31 {
      DateOfKnownMonth(DateMatch(d, word, None), currentYear, currentYear);
    } else {
      DateOfBadDay(DateMatch(d, word, None), currentYear);
    }
  }

  /** Without a year, the text `day month` parses to that date in the
      current year. */
  lemma ParseWithoutYear(day: nat, word: string, currentYear: nat)
    requires 1 <= day <= 31 && word in MonthNames
    ensures ParseFrenchDate(DecimalText(day) + " " + word, currentYear)
         == Some(FormatIso(DateParts(currentYear, MonthNames[word], day)))
  {
    MatchWithoutYear(day, word, currentYear);
    assert DateText(DecimalText(day), word, None) == DecimalText(day) + " " + word;
  }

  /** A day above 31 is refused, even with a known month word. */
  lemma DayOutOfRangeRejected(day: nat, word: string, currentYear: nat)
    requires 32 <= day <= 99 && word in MonthNames
    ensures ParseFrenchDate(DecimalText(day) + " " + word, currentYear) == None
  {
    MatchWithoutYear(day, word, currentYear);
    assert DateText(DecimalText(day), word, None) == DecimalText(day) + " " + word;
  }

  lemma ZeroDigits(day: string)
    requires day == "0" || day == "00"
    ensures 1 <= |day| <= 2 && AllIn(day, Digit) && AllDigits(day) && ParseDigits(day) == 0
  {
  }

  /** A day written 0 or 00 is refused, even with a known month word. */
  lemma DayZeroRejected(day: string, word: string, currentYear: nat)
    requires day == "0" || day == "00"
    requires word in MonthNames
    ensures ParseFrenchDate(day + " " + word, currentYear) == None
  {
    ZeroDigits(day);
    MonthWordMatchable(word);
    MatchOfDateText(day, word, None, currentYear);
    DateOfBadDay(DateMatch(day, word, None), currentYear);
    assert DateText(day, word, None) == day + " " + word;
  }

  /** A word that is not in the table is refused, whatever the day. */
  lemma UnknownMonthRejected(day: string, word: string, currentYear: nat)
    requires 1 <= |day| <= 2 && AllIn(day, Digit)
    requires |word| >= 1 && AllIn(word, Letter) && word !in MonthNames
    ensures ParseFrenchDate(day + " " + word, currentYear) == None
  {
    MatchOfDateText(day, word, None, currentYear);
    DateOfUnknownMonth(DateMatch(day, word, None), currentYear);
    assert DateText(day, word, None) == day + " " + word;
  }

  // ---------------------------------------------------------------------
  // Normalisation as the user sees it
  // ---------------------------------------------------------------------

  /** Texts with the same normal form parse alike. */
  lemma SameNormalFormSameDate(a: string, b: string, currentYear: nat)
    requires Normalize(a) == Normalize(b)
    ensures ParseFrenchDate(a, currentYear) == ParseFrenchDate(b, currentYear)
  {
  }

  /** Whitespace around the text does not change the result. */
  lemma ParseIgnoresSurroundingWhitespace(pre: string, s: string, post: string, currentYear: nat)
    requires AllWhitespace(pre) && AllWhitespace(post)
    requires s == [] || (!IsWhitespace(s[0]) && !IsWhitespace(s[|s| - 1]))
    ensures ParseFrenchDate(pre + s + post, currentYear) == ParseFrenchDate(s, currentYear)
  {
    var padded := pre + s + post;
    TrimAround(pre, s, post);
    TrimUnchanged(s);
    SameTrimSameNormal(padded, s);
    SameNormalFormSameDate(padded, s, currentYear);
  }

  lemma SameTrimSameNormal(a: string, b: string)
    requires Trim(a) == Trim(b)
    ensures Normalize(a) == Normalize(b)
  {
  }

  /** Upper case parses like lower case. */
  lemma ParseIgnoresCase(s: string, currentYear: nat)
    ensures ParseFrenchDate(ToLower(s), currentYear) == ParseFrenchDate(s, currentYear)
  {
    TrimLowerCommute(s);
    LowerIdempotent(Trim(s));
    SameNormalFormSameDate(ToLower(s), s, currentYear);
  }

  lemma NormalizeRemovePeriods(s: string)
    requires s == [] || (s[0] != '.' && s[|s| - 1] != '.' && !IsWhitespace(s[0]) && !IsWhitespace(s[|s| - 1]))
    ensures Normalize(RemovePeriods(s)) == Normalize(s)
  {
    var r := RemovePeriods(s);
    TrimUnchanged(s);
    if s != [] {
      RemovePeriodsEnds(s);
    }
    TrimUnchanged(r);
    RemovePeriodsLower(s);
    RemovePeriodsIdempotent(ToLower(s));
  }

  /** The periods inside a text do not matter: "11 f\U{E9}v. 2025" reads
      as "11 f\U{E9}v 2025". The text must neither start nor end with
      whitespace or a period, since trimming comes before the periods are
      dropped. */
  lemma ParseIgnoresPeriods(s: string, currentYear: nat)
    requires s == [] || (s[0] != '.' && s[|s| - 1] != '.' && !IsWhitespace(s[0]) && !IsWhitespace(s[|s| - 1]))
    ensures ParseFrenchDate(RemovePeriods(s), currentYear) == ParseFrenchDate(s, currentYear)
  {
    NormalizeRemovePeriods(s);
    SameNormalFormSameDate(RemovePeriods(s), s, currentYear);
  }

  // ---------------------------------------------------------------------
  // What the parser refuses
  // ---------------------------------------------------------------------

  /** Texts the pattern does not match are not dates. */
  lemma NoMatchNoDate(s: string, currentYear: nat)
    requires MatchDate(Normalize(s)) == None
    ensures ParseFrenchDate(s, currentYear) == None
  {
  }

  /** A text of whitespace only, the empty text among them, is not a date. */
  lemma BlankRejected(s: string, currentYear: nat)
    requires AllWhitespace(s)
    ensures ParseFrenchDate(s, currentYear) == None
  {
    assert Normalize(s) == [];
    NoMatchNoDate(s, currentYear);
  }

  lemma DigitsOnlyNoMatch(s: string)
    requires AllIn(s, Digit)
    ensures MatchDate(Normalize(s)) == None
  {
    assert PatternChars(s);
    PatternCharsClean(s);
    if s != [] {
      assert InClass(s[0], Digit) && InClass(s[|s| - 1], Digit);
    }
    NormalizeClean(s);
    RunLengthOfPrefix(s, [], Digit);
    assert s + [] == s;
  }

  /** A day alone, without a month word, is not a date. */
  lemma DigitsOnlyRejected(s: string, currentYear: nat)
    requires AllIn(s, Digit)
    ensures ParseFrenchDate(s, currentYear) == None
  {
    DigitsOnlyNoMatch(s);
    NoMatchNoDate(s, currentYear);
  }

  lemma NoLeadingDigitNoMatch(s: string)
    requires Trim(s) != [] && !IsAsciiDigit(LowerChar(Trim(s)[0])) && Trim(s)[0] != '.'
    ensures MatchDate(Normalize(s)) == None
  {
    var t := ToLower(Trim(s));
    assert Normalize(s) == RemovePeriods(t);
    LeadingNonPeriodKept(t);
    NoLeadingDigitRun(RemovePeriods(t));
  }

  lemma LeadingNonPeriodKept(t: string)
    requires t != [] && t[0] != '.'
    ensures RemovePeriods(t) != [] && RemovePeriods(t)[0] == t[0]
  {
    assert RemovePeriods(t) == [t[0]] + RemovePeriods(t[1..]);
  }

  lemma NoLeadingDigitRun(r: string)
    requires r != [] && !IsAsciiDigit(r[0])
    ensures MatchDate(r) == None
  {
    assert RunLength(r, Digit) == 0;
  }

  /** A text whose first significant character is neither a digit nor a
      period is not a date. */
  lemma NoLeadingDigitRejected(s: string, currentYear: nat)
    requires Trim(s) != [] && !IsAsciiDigit(LowerChar(Trim(s)[0])) && Trim(s)[0] != '.'
    ensures ParseFrenchDate(s, currentYear) == None
  {
    NoLeadingDigitNoMatch(s);
    NoMatchNoDate(s, currentYear);
  }
}
