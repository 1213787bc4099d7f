/**
 The cron engine: parsing the five fields, and the search for the next matching UTC minute.
 Instants are nanoseconds since 0001-01-01T00:00Z.
 */
module Cron {
  import opened Prelude
  import opened Calendar
  import opened CronText

  const MINUTE := 60_000_000_000
  const DAY_MINUTES := 1440
  const CYCLE_MINUTES := CYCLE_DAYS * DAY_MINUTES

  datatype Field = Field(selected: seq<bool>, wildcard: bool) {
    predicate Has(value: int) {
      0 <= value < |selected| && selected[value]
    }
  }

  datatype Schedule = Schedule(minute: Field, hour: Field, day: Field, month: Field, week: Field)

  /* ----- parsing ----- */

  const MONTH_NAMES: map<string, int> := map["JAN" := 1, "FEB" := 2, "MAR" := 3, "APR" := 4, "MAY" := 5, "JUN" := 6,
                                             "JUL" := 7, "AUG" := 8, "SEP" := 9, "OCT" := 10, "NOV" := 11, "DEC" := 12]
  const WEEK_NAMES: map<string, int> := map["SUN" := 0, "MON" := 1, "TUE" := 2, "WED" := 3, "THU" := 4, "FRI" := 5, "SAT" := 6]

  // The limits of one field: its values, its names, and whether 7 is a second name of 0.
  datatype Limits = Limits(minimum: nat, maximum: nat, names: map<string, int>, sundayAlias: bool)

  const LIMITS: seq<Limits> := [Limits(0, 59, map[], false), Limits(0, 23, map[], false), Limits(1, 31, map[], false),
                                Limits(1, 12, MONTH_NAMES, false), Limits(0, 7, WEEK_NAMES, true)]

  function Fold(x: int, limits: Limits): int {
    if limits.sundayAlias && x == 7 then 0 else x
  }

  function TermOf(part: string, limits: Limits): (r: Option<Term>)
    ensures r.Some? ==> limits.minimum <= r.value.first <= r.value.last <= limits.maximum && r.value.step >= 1
  {
    ReadTerm(part, limits.minimum, limits.maximum, limits.names)
  }

  predicate WellFormed(parts: seq<string>, limits: Limits) {
    forall p | p in parts :: TermOf(p, limits).Some?
  }

  ghost predicate Contributes(part: string, limits: Limits, v: int) {
    && TermOf(part, limits).Some?
    && exists x :: Selects(TermOf(part, limits).value, x) && Fold(x, limits) == v
  }

  // The value v is denoted by some part of the list.
  ghost predicate Denotes(parts: seq<string>, limits: Limits, v: int) {
    exists p :: p in parts && Contributes(p, limits, v)
  }

  predicate HasStar(parts: seq<string>) {
    exists p :: p in parts && StartsWithStar(p)
  }

  // The field selects exactly the values its parts denote.
  ghost predicate FieldOf(field: Field, parts: seq<string>, limits: Limits) {
    && |field.selected| == limits.maximum + 1
    && (forall v :: field.Has(v) <==> 0 <= v <= limits.maximum && Denotes(parts, limits, v))
    && (field.wildcard <==> HasStar(parts))
  }

  /* ----- the same, of the items a text spells ----- */

  ghost predicate MeansValue(item: Item, limits: Limits, v: int) {
    var meaning := Meaning(item, limits.minimum, limits.maximum, limits.names);
    meaning.Some? && exists x :: Selects(meaning.value, x) && Fold(x, limits) == v
  }

  predicate AllMean(items: seq<Item>, limits: Limits) {
    forall i | 0 <= i < |items| :: Meaning(items[i], limits.minimum, limits.maximum, limits.names).Some?
  }

  // The text spells items that all have a meaning in the field.
  ghost predicate ProperField(text: string, limits: Limits) {
    exists items :: SpellsField(text, items, limits.names) && AllMean(items, limits)
  }

  // The field selects exactly the values its items mean.
  ghost predicate FieldMeans(field: Field, items: seq<Item>, limits: Limits) {
    && |field.selected| == limits.maximum + 1
    && (forall v :: field.Has(v) <==> exists i :: 0 <= i < |items| && MeansValue(items[i], limits, v))
    && (field.wildcard <==> exists i :: 0 <= i < |items| && items[i].base.Star?)
  }

  // The field is what the text means, whichever way the text is read as items.
  ghost predicate FieldMeansText(field: Field, text: string, limits: Limits) {
    forall items | SpellsField(text, items, limits.names) :: FieldMeans(field, items, limits)
  }

  predicate LimitsOk(limits: Limits) {
    NamesAreWords(limits.names) && limits.maximum <= MAX_INT64
  }

  lemma AllLimitsOk()
    ensures forall limits | limits in LIMITS :: LimitsOk(limits)
  {
    MonthNamesAreWords();
    WeekNamesAreWords();
    hide NamesAreWords;
    assert NamesAreWords(map[]) by { NoNames(); }
  }

  lemma NoNames()
    ensures NamesAreWords(map[])
  {
  }

  lemma MonthNamesAreWords()
    ensures NamesAreWords(MONTH_NAMES)
  {
    assert IsWord("JAN") && IsWord("FEB") && IsWord("MAR") && IsWord("APR") && IsWord("MAY") && IsWord("JUN");
    assert IsWord("JUL") && IsWord("AUG") && IsWord("SEP") && IsWord("OCT") && IsWord("NOV") && IsWord("DEC");
    hide IsWord;
  }

  lemma WeekNamesAreWords()
    ensures NamesAreWords(WEEK_NAMES)
  {
    assert IsWord("SUN") && IsWord("MON") && IsWord("TUE") && IsWord("WED") && IsWord("THU") && IsWord("FRI") && IsWord("SAT");
    hide IsWord;
  }

  // The reading of the parts of a spelled text.
  lemma PartsOfText(text: string, items: seq<Item>, limits: Limits)
    requires LimitsOk(limits) && SpellsField(text, items, limits.names)
    ensures var parts := Split(text, ',');
            && |parts| == |items|
            && (WellFormed(parts, limits) <==> AllMean(items, limits))
            && (HasStar(parts) <==> exists i :: 0 <= i < |items| && items[i].base.Star?)
            && forall v :: Denotes(parts, limits, v) <==> exists i :: 0 <= i < |items| && MeansValue(items[i], limits, v)
  {
    hide SpellsField, Meaning, ReadTerm, StartsWithStar, Split;
    var parts := Split(text, ',');
    ReadSpelledField(text, items, limits.minimum, limits.maximum, limits.names);
    assert forall i | 0 <= i < |items| :: parts[i] in parts;
    assert forall i | 0 <= i < |items| :: TermOf(parts[i], limits) == Meaning(items[i], limits.minimum, limits.maximum, limits.names);
    forall v
      ensures Denotes(parts, limits, v) <==> exists i :: 0 <= i < |items| && MeansValue(items[i], limits, v)
    {
      forall i | 0 <= i < |items|
        ensures Contributes(parts[i], limits, v) <==> MeansValue(items[i], limits, v)
      {
        assert TermOf(parts[i], limits) == Meaning(items[i], limits.minimum, limits.maximum, limits.names);
      }
      if exists i :: 0 <= i < |items| && MeansValue(items[i], limits, v) {
        var i :| 0 <= i < |items| && MeansValue(items[i], limits, v);
        assert parts[i] in parts;
      }
    }
  }

  // The texts whose parts are all read are the spellings of meaningful items, and what the parts denote is what the items mean.
  lemma TextIsItsItems(text: string, limits: Limits)
    requires LimitsOk(limits)
    ensures WellFormed(Split(text, ','), limits) <==> ProperField(text, limits)
    ensures forall field | FieldOf(field, Split(text, ','), limits) :: FieldMeansText(field, text, limits)
  {
    hide SpellsField, WellFormed, AllMean, Split, FieldOf, FieldMeans, LimitsOk;
    if WellFormed(Split(text, ','), limits) {
      var items := TextIsSpelled(text, limits);
      FieldOfItems(Field([], false), text, items, limits);
      assert SpellsField(text, items, limits.names) && AllMean(items, limits);
    }
    forall items, field | SpellsField(text, items, limits.names)
      ensures AllMean(items, limits) ==> WellFormed(Split(text, ','), limits)
      ensures FieldOf(field, Split(text, ','), limits) ==> FieldMeans(field, items, limits)
    {
      FieldOfItems(field, text, items, limits);
    }
    if ProperField(text, limits) {
      var items :| SpellsField(text, items, limits.names) && AllMean(items, limits);
      FieldOfItems(Field([], false), text, items, limits);
    }
  }

  lemma FieldOfItems(field: Field, text: string, items: seq<Item>, limits: Limits)
    requires LimitsOk(limits) && SpellsField(text, items, limits.names)
    ensures WellFormed(Split(text, ','), limits) <==> AllMean(items, limits)
    ensures FieldOf(field, Split(text, ','), limits) ==> FieldMeans(field, items, limits)
  {
    hide SpellsField, WellFormed, AllMean, Split, Denotes, MeansValue, HasStar;
    PartsOfText(text, items, limits);
    ValuesInRange(Split(text, ','), limits);
    if FieldOf(field, Split(text, ','), limits) {
      forall v
        ensures field.Has(v) <==> exists i :: 0 <= i < |items| && MeansValue(items[i], limits, v)
      {
        assert field.Has(v) <==> 0 <= v <= limits.maximum && Denotes(Split(text, ','), limits, v);
        assert Denotes(Split(text, ','), limits, v) ==> 0 <= v <= limits.maximum;
      }
    }
  }

  lemma TextIsSpelled(text: string, limits: Limits) returns (items: seq<Item>)
    requires WellFormed(Split(text, ','), limits)
    ensures SpellsField(text, items, limits.names)
  {
    hide SpellsField, ReadTerm, Split;
    forall p | p in Split(text, ',')
      ensures ReadTerm(p, limits.minimum, limits.maximum, limits.names).Some?
    {
      assert TermOf(p, limits).Some?;
    }
    items := ReadFieldIsSpelled(text, limits.minimum, limits.maximum, limits.names);
  }

  lemma MultipleGrows(d: int, k: int)
    requires d >= 1
    ensures k >= 1 ==> d * k >= d
    ensures k <= -1 ==> d * k <= -d
  {
  }

  lemma DivisionIsUnique(n: int, d: int, q: int, r: int)
    requires d >= 1 && 0 <= r < d && n == d * q + r
    ensures n / d == q && n % d == r
  {
    MultipleGrows(d, q - n / d);
    assert n == d * (n / d) + n % d;
    assert d * (q - n / d) == d * q - d * (n / d);
  }

  lemma NoneBetween(t: Term, p: int, x: int)
    requires t.step >= 1 && (p - t.first) % t.step == 0 && p < x < p + t.step
    ensures (x - t.first) % t.step != 0
  {
    DivisionIsUnique(x - t.first, t.step, (p - t.first) / t.step, x - p);
  }

  lemma NextMultiple(t: Term, p: int)
    requires t.step >= 1 && (p - t.first) % t.step == 0
    ensures (p + t.step - t.first) % t.step == 0
  {
    var q := (p - t.first) / t.step;
    assert t.step * (q + 1) == t.step * q + t.step;
    DivisionIsUnique(p + t.step - t.first, t.step, q + 1, 0);
  }

  // The inner loop: mark the values of one term.
  method MarkTerm(selected: seq<bool>, t: Term, limits: Limits) returns (marked: seq<bool>)
    requires |selected| == limits.maximum + 1 && t.step >= 1
    requires limits.minimum <= t.first <= t.last <= limits.maximum
    ensures |marked| == |selected|
    ensures forall v | 0 <= v < |marked| :: marked[v] <==> selected[v] || exists x :: Selects(t, x) && Fold(x, limits) == v
  {
    marked := selected;
    var position := t.first;
    while position <= t.last
      invariant t.first <= position <= t.last && |marked| == |selected|
      invariant (position - t.first) % t.step == 0
      invariant forall v | 0 <= v < |marked| ::
          marked[v] <==> selected[v] || exists x :: x < position && Selects(t, x) && Fold(x, limits) == v
      decreases t.last - position
    {
      ghost var before := marked;
      marked := marked[Fold(position, limits) := true];
      assert Selects(t, position);
      if t.last - position < t.step {
        forall x | Selects(t, x)
          ensures x <= position
        {
          if position < x { NoneBetween(t, position, x); }
        }
        break;
      }
      forall x | position < x < position + t.step
        ensures !Selects(t, x)
      {
        NoneBetween(t, position, x);
      }
      NextMultiple(t, position);
      position := position + t.step;
    }
  }

  // Exactly the spellings of meaningful items are accepted, and the field selects exactly what the items mean.
  method ParseCronField(value: string, limits: Limits) returns (field: Option<Field>)
    ensures field.Some? <==> WellFormed(Split(value, ','), limits)
    ensures field.Some? ==> FieldOf(field.value, Split(value, ','), limits)
    ensures LimitsOk(limits) ==> (field.Some? <==> ProperField(value, limits))
    ensures LimitsOk(limits) && field.Some? ==> FieldMeansText(field.value, value, limits)
  {
    hide LimitsOk, ProperField, FieldMeansText;
    if LimitsOk(limits) { TextIsItsItems(value, limits); }
    var parts := Split(value, ',');
    var selected, wildcard := seq(limits.maximum + 1, _ => false), false;
    var i := 0;
    while i < |parts|
      invariant 0 <= i <= |parts| && |selected| == limits.maximum + 1
      invariant WellFormed(parts[..i], limits)
      invariant forall v | 0 <= v < |selected| :: selected[v] <==> Denotes(parts[..i], limits, v)
      invariant wildcard <==> HasStar(parts[..i])
    {
      var term := TermOf(parts[i], limits);
      if term.None? {
        assert parts[i] in parts;
        return None;
      }
      ExtendParts(parts, i, limits);
      wildcard := wildcard || StartsWithStar(parts[i]);
      ghost var before := selected;
      selected := MarkTerm(selected, term.value, limits);
      forall v | 0 <= v < |selected|
        ensures selected[v] <==> Denotes(parts[..i + 1], limits, v)
      {
        assert before[v] <==> Denotes(parts[..i], limits, v);
        assert Contributes(parts[i], limits, v) <==> exists x :: Selects(term.value, x) && Fold(x, limits) == v;
      }
      i := i + 1;
    }
    assert parts[..i] == parts;
    ValuesInRange(parts, limits);
    field := Some(Field(selected, wildcard));
  }

  lemma ExtendParts(parts: seq<string>, i: nat, limits: Limits)
    requires i < |parts|
    ensures forall v :: Denotes(parts[..i + 1], limits, v) <==> Denotes(parts[..i], limits, v) || Contributes(parts[i], limits, v)
    ensures HasStar(parts[..i + 1]) <==> HasStar(parts[..i]) || StartsWithStar(parts[i])
    ensures WellFormed(parts[..i + 1], limits) <==> WellFormed(parts[..i], limits) && TermOf(parts[i], limits).Some?
  {
    assert forall p :: p in parts[..i + 1] <==> p in parts[..i] || p == parts[i];
  }

  lemma ValuesInRange(parts: seq<string>, limits: Limits)
    ensures forall v | Denotes(parts, limits, v) :: 0 <= v <= limits.maximum
  {
  }

  // A star alone denotes every value of its field.
  lemma StarDenotesAll(limits: Limits, v: int)
    requires limits.minimum <= limits.maximum && limits.minimum <= v <= limits.maximum && Fold(v, limits) == v
    ensures Split("*", ',') == ["*"] && Denotes(["*"], limits, v) && HasStar(["*"])
  {
    assert Split("*", '/') == ["*"];
    var t := Term(limits.minimum, limits.maximum, 1);
    assert TermOf("*", limits) == Some(t);
    assert Selects(t, v);
    assert Contributes("*", limits, v);
  }

  // In the field of the weekday, 7 is Sunday and nothing else, however it is written.
  lemma SevenIsSunday(text: string, v: int)
    requires SpellsNumber(text, 7)
    ensures var parts := Split(text, ',');
            WellFormed(parts, LIMITS[4]) && (Denotes(parts, LIMITS[4], v) <==> v == 0)
  {
    var items := [Item(Single(Number(7)), None)];
    AllLimitsOk();
    SpelledAlone(text, items[0], WEEK_NAMES);
    PartsOfText(text, items, LIMITS[4]);
    SevenMeansSunday(v);
    hide SpellsNumber, LimitsOk, Denotes, MeansValue, WellFormed, Split;
    assert items[0] == Item(Single(Number(7)), None);
  }

  lemma SpelledAlone(text: string, item: Item, names: map<string, int>)
    requires Spells(text, item, names)
    ensures SpellsField(text, [item], names)
  {
    hide Spells;
    assert Join([text], ',') == text && SpellsEach([text], [item], names);
  }

  lemma SevenMeansSunday(v: int)
    ensures var item := Item(Single(Number(7)), None);
            AllMean([item], LIMITS[4]) && (MeansValue(item, LIMITS[4], v) <==> v == 0)
  {
    assert Meaning(Item(Single(Number(7)), None), 0, 7, WEEK_NAMES) == Some(Term(7, 7, 1));
    assert Selects(Term(7, 7, 1), 7) && Fold(7, LIMITS[4]) == 0;
  }

  // strings.Fields.
  function WordLength(s: string): (n: nat)
    ensures n <= |s|
  {
    if s == "" || IsSpace(s[0]) then 0 else 1 + WordLength(s[1..])
  }

  function Words(s: string): seq<string>
    decreases |s|
  {
    if s == "" then []
    else if IsSpace(s[0]) then Words(s[1..])
    else [s[..WordLength(s)]] + Words(s[WordLength(s)..])
  }

  predicate IsSpaceless(word: string) {
    word != "" && forall i | 0 <= i < |word| :: !IsSpace(word[i])
  }

  function Spaced(gaps: seq<string>, words: seq<string>): string
    requires |gaps| == |words| + 1
    decreases |words|
  {
    if words == [] then gaps[0] else gaps[0] + words[0] + Spaced(gaps[1..], words[1..])
  }

  // White space stands between the words, and perhaps before and after them.
  ghost predicate SpacesOut(gaps: seq<string>, words: seq<string>) {
    && |gaps| == |words| + 1 && (forall i | 0 <= i < |gaps| :: AllSpace(gaps[i]))
    && (forall i | 0 < i < |words| :: gaps[i] != "") && (forall i | 0 <= i < |words| :: IsSpaceless(words[i]))
  }

  lemma {:induction false} WordEnds(word: string, rest: string)
    requires (forall i | 0 <= i < |word| :: !IsSpace(word[i])) && (rest == "" || IsSpace(rest[0]))
    ensures WordLength(word + rest) == |word|
  {
    if word == "" {
      assert word + rest == rest;
    } else {
      assert (word + rest)[0] == word[0] && (word + rest)[1..] == word[1..] + rest;
      WordEnds(word[1..], rest);
    }
  }

  // However a text is words with white space between them, these are its words.
  lemma {:induction false} WordsOfSpaced(gaps: seq<string>, words: seq<string>)
    requires SpacesOut(gaps, words)
    ensures Words(Spaced(gaps, words)) == words
    decreases |Spaced(gaps, words)| + |words|
  {
    hide IsSpace, WordLength;
    var s := Spaced(gaps, words);
    if gaps[0] != "" {
      var fewer := gaps[0 := gaps[0][1..]];
      assert fewer[1..] == gaps[1..];
      assert s[0] == gaps[0][0] && s[1..] == Spaced(fewer, words);
      WordsOfSpaced(fewer, words);
    } else if words != [] {
      var rest := Spaced(gaps[1..], words[1..]);
      assert s == words[0] + rest;
      assert SpacesOut(gaps[1..], words[1..]);
      WordEnds(words[0], rest);
      assert s[..|words[0]|] == words[0] && s[|words[0]|..] == rest && s[0] == words[0][0];
      WordsOfSpaced(gaps[1..], words[1..]);
    }
  }

  // And every text is such words.
  lemma {:induction false} EveryTextIsSpaced(s: string) returns (gaps: seq<string>)
    ensures SpacesOut(gaps, Words(s)) && Spaced(gaps, Words(s)) == s
    decreases |s|
  {
    hide IsSpace, SpacesOut, Spaced;
    if s == "" {
      NoWords();
      gaps := [""];
    } else if IsSpace(s[0]) {
      var fewer := EveryTextIsSpaced(s[1..]);
      SpaceBefore(s[0], fewer, Words(s));
      gaps := fewer[0 := [s[0]] + fewer[0]];
    } else {
      var n := WordLength(s);
      FirstWord(s);
      var fewer := EveryTextIsSpaced(s[n..]);
      gaps := [""] + fewer;
      WordBefore(s[..n], fewer, Words(s[n..]));
    }
  }

  lemma WordBefore(word: string, gaps: seq<string>, words: seq<string>)
    requires SpacesOut(gaps, words) && IsSpaceless(word) && (Spaced(gaps, words) == "" || IsSpace(Spaced(gaps, words)[0]))
    ensures SpacesOut([""] + gaps, [word] + words) && Spaced([""] + gaps, [word] + words) == word + Spaced(gaps, words)
  {
    hide IsSpace;
    assert ([""] + gaps)[1..] == gaps && ([word] + words)[1..] == words;
    if words != [] {
      var tail := Spaced(gaps[1..], words[1..]);
      assert Spaced(gaps, words) == gaps[0] + words[0] + tail && (words[0] + tail)[0] == words[0][0];
    }
  }

  lemma NoWords()
    ensures SpacesOut([""], []) && Spaced([""], []) == ""
  {
  }

  lemma SpaceBefore(c: char, gaps: seq<string>, words: seq<string>)
    requires SpacesOut(gaps, words) && IsSpace(c)
    ensures |gaps| > 0 && SpacesOut(gaps[0 := [c] + gaps[0]], words) && Spaced(gaps[0 := [c] + gaps[0]], words) == [c] + Spaced(gaps, words)
  {
    hide IsSpace;
    assert gaps[0 := [c] + gaps[0]][1..] == gaps[1..];
  }

  lemma {:induction false} FirstWord(s: string)
    ensures forall i | 0 <= i < WordLength(s) :: !IsSpace(s[i])
    ensures WordLength(s) < |s| ==> IsSpace(s[WordLength(s)])
  {
    hide IsSpace;
    if s != "" && !IsSpace(s[0]) {
      FirstWord(s[1..]);
      forall i | 0 < i < WordLength(s) ensures !IsSpace(s[i]) { assert s[i] == s[1..][i - 1]; }
    }
  }

  function Fields(s: Schedule): seq<Field> {
    [s.minute, s.hour, s.day, s.month, s.week]
  }

  ghost predicate AcceptsExpression(expression: string) {
    && |Words(expression)| == 5 && Utf8Length(expression) <= 128 && '?' !in expression
    && forall k | 0 <= k < 5 :: ProperField(Words(expression)[k], LIMITS[k])
  }

  method ParseSchedule(expression: string) returns (schedule: Option<Schedule>)
    ensures schedule.Some? <==> AcceptsExpression(expression)
    ensures schedule.Some? ==>
        forall k | 0 <= k < 5 ::
          && FieldOf(Fields(schedule.value)[k], Split(Words(expression)[k], ','), LIMITS[k])
          && FieldMeansText(Fields(schedule.value)[k], Words(expression)[k], LIMITS[k])
  {
    AllLimitsOk();
    hide Words, Split, WellFormed, FieldOf, LimitsOk, ProperField, FieldMeansText;
    var words := Words(expression);
    if |words| != 5 || Utf8Length(expression) > 128 || '?' in expression {
      return None;
    }
    var values: seq<Field> := [];
    while |values| < 5
      invariant |values| <= 5
      invariant forall k | 0 <= k < |values| :: ProperField(words[k], LIMITS[k])
      invariant forall k | 0 <= k < |values| :: FieldOf(values[k], Split(words[k], ','), LIMITS[k])
      invariant forall k | 0 <= k < |values| :: FieldMeansText(values[k], words[k], LIMITS[k])
    {
      var index := |values|;
      assert LIMITS[index] in LIMITS;
      var parsed := ParseCronField(words[index], LIMITS[index]);
      if parsed.None? {
        return None;
      }
      values := values + [parsed.value];
    }
    var result := Schedule(values[0], values[1], values[2], values[3], values[4]);
    assert Fields(result) == values;
    schedule := Some(result);
  }

  // Parsing has one answer: two fields with the same denotation are equal.
  lemma FieldIsDetermined(a: Field, b: Field, parts: seq<string>, limits: Limits)
    requires FieldOf(a, parts, limits) && FieldOf(b, parts, limits)
    ensures a == b
  {
    forall v | 0 <= v < |a.selected|
      ensures a.selected[v] == b.selected[v]
    {
      assert a.Has(v) <==> b.Has(v);
    }
    assert a.selected == b.selected;
  }

  /* ----- the next run ----- */

  // With a star in either day field both must match, otherwise one of them is enough.
  predicate MatchesDay(s: Schedule, date: Date, weekday: int) {
    if s.day.wildcard || s.week.wildcard then s.day.Has(date.day) && s.week.Has(weekday)
    else s.day.Has(date.day) || s.week.Has(weekday)
  }

  // What the two day fields say together: with a star in either of them, stepped or not, both must hold, and with no star at
  // all either of them does. One that is just a star leaves the other to decide.
  lemma DayFields(s: Schedule, dayText: string, weekText: string, date: Date, weekday: int)
    requires FieldOf(s.day, Split(dayText, ','), LIMITS[2]) && FieldOf(s.week, Split(weekText, ','), LIMITS[4])
    requires ValidDate(date) && 0 <= weekday < 7
    ensures HasStar(Split(dayText, ',')) || HasStar(Split(weekText, ',')) ==>
              (MatchesDay(s, date, weekday) <==>
                 Denotes(Split(dayText, ','), LIMITS[2], date.day) && Denotes(Split(weekText, ','), LIMITS[4], weekday))
    ensures weekText == "*" ==> (MatchesDay(s, date, weekday) <==> Denotes(Split(dayText, ','), LIMITS[2], date.day))
    ensures dayText == "*" ==> (MatchesDay(s, date, weekday) <==> Denotes(Split(weekText, ','), LIMITS[4], weekday))
    ensures !HasStar(Split(dayText, ',')) && !HasStar(Split(weekText, ',')) ==>
              (MatchesDay(s, date, weekday) <==>
                 Denotes(Split(dayText, ','), LIMITS[2], date.day) || Denotes(Split(weekText, ','), LIMITS[4], weekday))
  {
    StarDenotesAll(LIMITS[2], date.day);
    StarDenotesAll(LIMITS[4], weekday);
    hide Denotes, Split, HasStar;
    assert s.day.Has(date.day) <==> Denotes(Split(dayText, ','), LIMITS[2], date.day);
    assert s.week.Has(weekday) <==> Denotes(Split(weekText, ','), LIMITS[4], weekday);
  }

  predicate MatchesDate(s: Schedule, dayNumber: int) {
    s.month.Has(Civil(dayNumber).month) && MatchesDay(s, Civil(dayNumber), Weekday(dayNumber))
  }

  // The schedule runs in the minute that begins at this count of minutes.
  predicate MatchesMinute(s: Schedule, minute: int) {
    && MatchesDate(s, minute / DAY_MINUTES)
    && s.hour.Has(minute % DAY_MINUTES / 60)
    && s.minute.Has(minute % 60)
  }

  ghost predicate Fires(s: Schedule, instant: int) {
    instant % MINUTE == 0 && MatchesMinute(s, instant / MINUTE)
  }

  // The least firing instant strictly after the given one, or None when there is none at all.
  ghost predicate IsNext(s: Schedule, after: int, r: Option<int>) {
    match r
    case Some(t) => after < t && Fires(s, t) && forall u | after < u < t :: !Fires(s, u)
    case None => forall u | after < u :: !Fires(s, u)
  }

  /* ----- what an expression says ----- */

  // The text denotes the value in the field at this place of an expression.
  ghost predicate Says(words: seq<string>, place: nat, v: int)
    requires |words| == 5 && place < 5
  {
    Denotes(Split(words[place], ','), LIMITS[place], v)
  }

  ghost predicate SaysStar(words: seq<string>, place: nat)
    requires |words| == 5 && place < 5
  {
    HasStar(Split(words[place], ','))
  }

  // The expression runs at an hour and minute of a civil date. A day is one that both day fields denote, and without a star in
  // them also one that only one of them denotes.
  ghost predicate RunsAt(words: seq<string>, date: Date, hour: int, minute: int)
    requires |words| == 5
  {
    var day, week := Says(words, 2, date.day), Says(words, 4, Weekday(DayNumber(date)));
    && Says(words, 0, minute) && Says(words, 1, hour) && Says(words, 3, date.month)
    && (day || week) && (SaysStar(words, 2) || SaysStar(words, 4) ==> day && week)
  }

  function InstantOf(date: Date, hour: int, minute: int): int {
    ((DayNumber(date) * 24 + hour) * 60 + minute) * MINUTE
  }

  ghost predicate RunsIn(words: seq<string>, instant: int)
    requires |words| == 5
  {
    exists date, hour, minute :: IsTime(date, hour, minute) && instant == InstantOf(date, hour, minute) && RunsAt(words, date, hour, minute)
  }

  predicate IsTime(date: Date, hour: int, minute: int) {
    ValidDate(date) && 0 <= hour < 24 && 0 <= minute < 60
  }

  // The schedule is what the five words denote.
  ghost predicate ScheduleOf(s: Schedule, words: seq<string>)
    requires |words| == 5
  {
    forall k | 0 <= k < 5 :: FieldOf(Fields(s)[k], Split(words[k], ','), LIMITS[k])
  }

  lemma FieldSays(s: Schedule, words: seq<string>, place: nat, v: int)
    requires |words| == 5 && place < 5 && ScheduleOf(s, words)
    ensures Fields(s)[place].Has(v) <==> Says(words, place, v)
    ensures Fields(s)[place].wildcard <==> SaysStar(words, place)
  {
    hide Denotes, HasStar, Split;
    assert FieldOf(Fields(s)[place], Split(words[place], ','), LIMITS[place]);
    ValuesInRange(Split(words[place], ','), LIMITS[place]);
  }

  lemma MatchesIsRunsAt(s: Schedule, words: seq<string>, date: Date, hour: int, minute: int)
    requires |words| == 5 && ScheduleOf(s, words) && IsTime(date, hour, minute)
    ensures MatchesMinute(s, (DayNumber(date) * 24 + hour) * 60 + minute) <==> RunsAt(words, date, hour, minute)
  {
    hide ScheduleOf, Says, SaysStar, Civil, DayNumber, Weekday, ValidDate;
    var n := DayNumber(date);
    CivilOfDate(date);
    MinuteOf(n, hour, minute);
    MinutesOfDays(n, hour, minute);
    FieldSays(s, words, 0, minute);
    FieldSays(s, words, 1, hour);
    FieldSays(s, words, 2, date.day);
    FieldSays(s, words, 3, date.month);
    FieldSays(s, words, 4, Weekday(n));
  }

  lemma MinutesOfDays(n: int, hour: int, minute: int)
    ensures (n * 24 + hour) * 60 + minute == n * DAY_MINUTES + hour * 60 + minute
  {
  }

  lemma CivilOfDate(date: Date)
    requires ValidDate(date)
    ensures Civil(DayNumber(date)) == date
  {
    DayNumberIsInjective(Civil(DayNumber(date)), date);
  }

  // An instant at which the schedule of an expression fires is a time at which the expression runs, and the other way around.
  lemma FiresIsRunsIn(s: Schedule, words: seq<string>, instant: int)
    requires |words| == 5 && ScheduleOf(s, words)
    ensures Fires(s, instant) <==> RunsIn(words, instant)
  {
    hide ScheduleOf, MatchesMinute, RunsAt;
    if Fires(s, instant) {
      var m := instant / MINUTE;
      var n, rest := m / DAY_MINUTES, m % DAY_MINUTES;
      var date, hour, minute := Civil(n), rest / 60, rest % 60;
      assert IsTime(date, hour, minute);
      assert m == (DayNumber(date) * 24 + hour) * 60 + minute;
      MatchesIsRunsAt(s, words, date, hour, minute);
      assert instant == InstantOf(date, hour, minute);
    }
    if RunsIn(words, instant) {
      var date, hour, minute :| IsTime(date, hour, minute) && instant == InstantOf(date, hour, minute) && RunsAt(words, date, hour, minute);
      MatchesIsRunsAt(s, words, date, hour, minute);
      WholeMinutes(0, (DayNumber(date) * 24 + hour) * 60 + minute);
    }
  }

  // What the search answers for a parsed expression: the first time after the given instant at which its five words let it run,
  // or nothing when there is no such time.
  lemma NextOfExpression(s: Schedule, words: seq<string>, after: int, r: Option<int>)
    requires |words| == 5 && ScheduleOf(s, words) && IsNext(s, after, r)
    ensures r.Some? ==> after < r.value && RunsIn(words, r.value)
    ensures forall u | after < u && (r.Some? ==> u < r.value) :: !RunsIn(words, u)
  {
    hide ScheduleOf, Fires, RunsIn;
    if r.Some? { FiresIsRunsIn(s, words, r.value); }
    forall u | after < u && (r.Some? ==> u < r.value)
      ensures !RunsIn(words, u)
    {
      FiresIsRunsIn(s, words, u);
    }
  }

  // The schedule repeats after 400 years.
  lemma ScheduleRepeats(s: Schedule, minute: int, k: int)
    ensures MatchesMinute(s, minute + CYCLE_MINUTES * k) == MatchesMinute(s, minute)
  {
    hide MatchesDate;
    var n, rest := minute / DAY_MINUTES, minute % DAY_MINUTES;
    var shifted := minute + CYCLE_MINUTES * k;
    DivisionIsUnique(shifted, DAY_MINUTES, n + CYCLE_DAYS * k, rest);
    DivisionIsUnique(shifted, 60, minute / 60 + 24 * CYCLE_DAYS * k, minute % 60);
    SameDate(s, n, k);
  }

  lemma SameDate(s: Schedule, n: int, k: int)
    ensures MatchesDate(s, n + CYCLE_DAYS * k) == MatchesDate(s, n)
  {
    CalendarRepeats(n, k);
  }

  // A match after the window has an image, whole cycles earlier, inside the window.
  lemma MatchInWindow(s: Schedule, start: int, minute: int) returns (image: int)
    requires start <= minute && MatchesMinute(s, minute)
    ensures start <= image < start + CYCLE_MINUTES && MatchesMinute(s, image)
  {
    hide MatchesMinute;
    var k := WholeCycles(minute - start);
    image := minute + CYCLE_MINUTES * -k;
    ScheduleRepeats(s, minute, -k);
  }

  lemma WholeCycles(minutes: int) returns (k: int)
    ensures 0 <= minutes + CYCLE_MINUTES * -k < CYCLE_MINUTES
  {
    k := minutes / CYCLE_MINUTES;
  }

  // Nothing in a window of 146098 civil days, the first perhaps partly over, means nothing ever.
  lemma EmptyWindowMeansNever(s: Schedule, start: int)
    requires forall m | start <= m < (start / DAY_MINUTES + CYCLE_DAYS + 1) * DAY_MINUTES :: !MatchesMinute(s, m)
    ensures forall m | start <= m :: !MatchesMinute(s, m)
  {
    forall m | start <= m
      ensures !MatchesMinute(s, m)
    {
      if MatchesMinute(s, m) {
        var image := MatchInWindow(s, start, m);
      }
    }
  }

  lemma MinuteOf(dayNumber: int, hour: int, minute: int)
    requires 0 <= hour < 24 && 0 <= minute < 60
    ensures var m := dayNumber * DAY_MINUTES + hour * 60 + minute;
            m / DAY_MINUTES == dayNumber && m % DAY_MINUTES / 60 == hour && m % 60 == minute
  {
    var m := dayNumber * DAY_MINUTES + hour * 60 + minute;
    assert m == DAY_MINUTES * dayNumber + (hour * 60 + minute);
    assert m == 60 * (24 * dayNumber + hour) + minute;
  }

  lemma WholeMinutes(after: int, minute: int)
    ensures after < minute * MINUTE <==> after / MINUTE + 1 <= minute
    ensures (minute * MINUTE) % MINUTE == 0 && (minute * MINUTE) / MINUTE == minute
  {
  }

  // From whole minutes back to instants.
  lemma MinutesToInstants(s: Schedule, after: int, r: Option<int>)
    requires r.Some? ==> after / MINUTE + 1 <= r.value && MatchesMinute(s, r.value)
    requires forall m | after / MINUTE + 1 <= m && (r.Some? ==> m < r.value) :: !MatchesMinute(s, m)
    ensures IsNext(s, after, if r.Some? then Some(r.value * MINUTE) else None)
  {
    if r.Some? { WholeMinutes(after, r.value); }
    forall u | after < u && (r.Some? ==> u < r.value * MINUTE)
      ensures !Fires(s, u)
    {
      if u % MINUTE == 0 {
        WholeMinutes(after, u / MINUTE);
        assert u == u / MINUTE * MINUTE;
      }
    }
  }

  // The bounded search over civil days, hours and minutes is exact.
  method Next(s: Schedule, after: int) returns (r: Option<int>)
    ensures IsNext(s, after, r)
  {
    hide MatchesMinute, IsNext, Civil, NextDay;
    var start := after / MINUTE + 1;
    ghost var first := start / DAY_MINUTES;
    var dayNumber := start / DAY_MINUTES;
    var day := Civil(dayNumber);
    var days := 0;
    while days <= CYCLE_DAYS
      invariant 0 <= days <= CYCLE_DAYS + 1
      invariant dayNumber == first + days && day == Civil(dayNumber)
      invariant forall m | start <= m < dayNumber * DAY_MINUTES :: !MatchesMinute(s, m)
    {
      if s.month.Has(day.month) && MatchesDay(s, day, Weekday(dayNumber)) {
        var found := SearchDay(s, dayNumber, start);
        if found.Some? {
          MinutesToInstants(s, after, found);
          return Some(found.value * MINUTE);
        }
      } else {
        DateDoesNotMatch(s, dayNumber);
      }
      NextDayIsNextCivil(dayNumber);
      day := NextDay(day);
      dayNumber := dayNumber + 1;
      days := days + 1;
    }
    EmptyWindowMeansNever(s, start);
    MinutesToInstants(s, after, None);
    r := None;
  }

  lemma DateDoesNotMatch(s: Schedule, dayNumber: int)
    requires !MatchesDate(s, dayNumber)
    ensures forall m | dayNumber * DAY_MINUTES <= m < (dayNumber + 1) * DAY_MINUTES :: !MatchesMinute(s, m)
  {
    forall m | dayNumber * DAY_MINUTES <= m < (dayNumber + 1) * DAY_MINUTES
      ensures !MatchesMinute(s, m)
    {
      DivisionIsUnique(m, DAY_MINUTES, dayNumber, m - dayNumber * DAY_MINUTES);
    }
  }

  // The hours and minutes of one matching day.
  method SearchDay(s: Schedule, dayNumber: int, start: int) returns (r: Option<int>)
    requires MatchesDate(s, dayNumber)
    ensures r.Some? ==> start <= r.value && MatchesMinute(s, r.value) && dayNumber * DAY_MINUTES <= r.value
    ensures forall m | start <= m && dayNumber * DAY_MINUTES <= m < (if r.Some? then r.value else (dayNumber + 1) * DAY_MINUTES) ::
        !MatchesMinute(s, m)
  {
    hide MatchesDate;
    ghost var midnight := dayNumber * DAY_MINUTES;
    for hour := 0 to 24
      invariant forall m | start <= m && midnight <= m < midnight + hour * 60 :: !MatchesMinute(s, m)
    {
      if s.hour.Has(hour) {
        for minute := 0 to 60
          invariant forall m | start <= m && midnight <= m < midnight + hour * 60 + minute :: !MatchesMinute(s, m)
        {
          MinuteOf(dayNumber, hour, minute);
          var candidate := dayNumber * DAY_MINUTES + hour * 60 + minute;
          if s.minute.Has(minute) && start <= candidate {
            return Some(candidate);
          }
        }
      } else {
        forall m | midnight + hour * 60 <= m < midnight + (hour + 1) * 60
          ensures !MatchesMinute(s, m)
        {
          MinuteOf(dayNumber, hour, m - midnight - hour * 60);
        }
      }
    }
    r := None;
  }

  lemma NextIsDetermined(s: Schedule, after: int, a: Option<int>, b: Option<int>)
    requires IsNext(s, after, a) && IsNext(s, after, b)
    ensures a == b
  {
  }

  // A schedule that has a next run once has one from every instant on: a stored job never becomes unreachable.
  lemma ReachableForever(s: Schedule, after: int, r: Option<int>, later: int, r': Option<int>)
    ensures IsNext(s, after, r) && IsNext(s, later, r') ==> (r.Some? <==> r'.Some?)
  {
    hide Fires;
    if IsNext(s, after, r) && IsNext(s, later, r') {
      if r.Some? && r'.None? { FiresAgain(s, r.value, later); }
      if r'.Some? && r.None? { FiresAgain(s, r'.value, after); }
    }
  }

  lemma FiresAgain(s: Schedule, instant: int, later: int)
    requires Fires(s, instant)
    ensures exists u :: later < u && Fires(s, u)
  {
    hide MatchesMinute;
    var minute := instant / MINUTE;
    var k := if later < instant then 0 else later / MINUTE - minute + 1;
    ScheduleRepeats(s, minute, k);
    var m := minute + CYCLE_MINUTES * k;
    assert later / MINUTE + 1 <= m by { CyclesAreLong(k); }
    WholeMinutes(later, m);
    assert Fires(s, m * MINUTE);
  }

  lemma CyclesAreLong(k: int)
    requires 0 <= k
    ensures k <= CYCLE_MINUTES * k
  {
  }
}
