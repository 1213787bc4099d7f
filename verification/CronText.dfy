/**
 The text layer of cron fields: splitting, decimal numbers, and the terms of one field.
 A term is star, one value or a range, with an optional step.
 */
module CronText {
  import opened Prelude

  const MAX_INT64 := 0x7fff_ffff_ffff_ffff

  // strings.Split for a one-byte separator.
  function Split(s: string, sep: char): (pieces: seq<string>)
    ensures |pieces| > 0
    ensures forall p | p in pieces :: sep !in p
    ensures Join(pieces, sep) == s
  {
    if s == "" then [""]
    else
      var rest := Split(s[1..], sep);
      if s[0] == sep then [""] + rest
      else [[s[0]] + rest[0]] + rest[1..]
  }

  function Join(pieces: seq<string>, sep: char): string {
    if |pieces| == 0 then ""
    else if |pieces| == 1 then pieces[0]
    else pieces[0] + [sep] + Join(pieces[1..], sep)
  }

  // Splitting is the inverse of joining pieces that do not contain the separator.
  lemma {:induction false} SplitJoined(pieces: seq<string>, sep: char)
    requires |pieces| > 0
    requires forall p | p in pieces :: sep !in p
    ensures Split(Join(pieces, sep), sep) == pieces
    decreases |pieces|, |pieces[0]|
  {
    var s := Join(pieces, sep);
    var head := pieces[0];
    if head == "" {
      if |pieces| > 1 {
        assert s[1..] == Join(pieces[1..], sep);
        SplitJoined(pieces[1..], sep);
      }
    } else {
      var shorter := [head[1..]] + pieces[1..];
      assert shorter[1..] == pieces[1..];
      assert s[1..] == Join(shorter, sep);
      assert forall p | p in shorter :: p == head[1..] || p in pieces;
      assert sep !in head && forall c | c in head[1..] :: c in head;
      SplitJoined(shorter, sep);
      assert s[0] == head[0] && head[0] in head;
      assert [s[0]] + head[1..] == head;
    }
  }

  predicate IsDigit(c: char) {
    '0' <= c <= '9'
  }

  function Decimal(s: string): (r: Option<nat>) {
    if s == "" || !IsDigit(s[|s| - 1]) then None
    else
      var digit := s[|s| - 1] as int - '0' as int;
      if |s| == 1 then Some(digit)
      else match Decimal(s[..|s| - 1])
        case None => None
        case Some(front) => Some(10 * front + digit)
  }

  // strconv.Atoi: an optional sign, decimal digits, and a value that fits 64 bits.
  function Atoi(s: string): (r: Option<int>) {
    var signed := s != "" && (s[0] == '+' || s[0] == '-');
    match Decimal(if signed then s[1..] else s)
    case None => None
    case Some(n) =>
      if signed && s[0] == '-' then (if n <= MAX_INT64 + 1 then Some(-(n as int)) else None)
      else if n <= MAX_INT64 then Some(n) else None
  }

  function Itoa(n: nat): (s: string)
    ensures s != "" && forall c | c in s :: IsDigit(c)
  {
    var digit := ['0' + (n % 10) as char];
    if n < 10 then digit else Itoa(n / 10) + digit
  }

  function Upper(s: string): string {
    seq(|s|, i requires 0 <= i < |s| => if 'a' <= s[i] <= 'z' then s[i] - 'a' + 'A' else s[i])
  }

  // A value is a three-letter name in either case, where the field has names, or a number.
  function CronValue(value: string, names: map<string, int>): Option<int> {
    if |value| == 3 && Upper(value) in names then Some(names[Upper(value)])
    else Atoi(value)
  }

  // The values first, first + step, ... that do not pass last.
  datatype Term = Term(first: int, last: int, step: int)

  predicate Selects(t: Term, x: int)
    requires t.step >= 1
  {
    t.first <= x <= t.last && (x - t.first) % t.step == 0
  }

  // One part of the comma list, or None where the source rejects it.
  function ReadTerm(part: string, minimum: int, maximum: int, names: map<string, int>): (r: Option<Term>)
    ensures r.Some? ==> minimum <= r.value.first <= r.value.last <= maximum && r.value.step >= 1
  {
    var halves := Split(part, '/');
    if |halves| > 2 || halves[0] == "" then None
    else
      var step := if |halves| == 2 then Atoi(halves[1]) else Some(1);
      if step.None? || step.value < 1 then None
      else match ReadBounds(halves[0], |halves| == 2, minimum, maximum, names)
        case None => None
        case Some((first, last)) =>
          if first < minimum || last > maximum || last < first then None
          else Some(Term(first, last, step.value))
  }

  function ReadBounds(base: string, stepped: bool, minimum: int, maximum: int, names: map<string, int>): Option<(int, int)> {
    if base == "*" then Some((minimum, maximum))
    else
      var bounds := Split(base, '-');
      var first := CronValue(bounds[0], names);
      if |bounds| > 2 || first.None? then None
      else if |bounds| == 2 then
        var last := CronValue(bounds[1], names);
        if last.None? then None else Some((first.value, last.value))
      else Some((first.value, if stepped then maximum else first.value))
  }

  // Only a base that begins with a star marks the field as a wildcard.
  predicate StartsWithStar(part: string) {
    part != "" && part[0] == '*'
  }

  /* ----- the grammar of a field ----- */

  datatype Value = Number(n: nat) | Named(name: string)

  datatype Base = Star | Single(value: Value) | Range(low: Value, high: Value)

  datatype Item = Item(base: Base, step: Option<nat>)

  predicate IsCapital(c: char) {
    'A' <= c <= 'Z'
  }

  predicate IsWord(name: string) {
    |name| == 3 && IsCapital(name[0]) && IsCapital(name[1]) && IsCapital(name[2])
  }

  // Names are three capital letters.
  predicate NamesAreWords(names: map<string, int>) {
    forall name | name in names :: IsWord(name)
  }

  function Zeros(n: nat): string {
    seq(n, _ => '0')
  }

  function Digits(n: nat, zeros: nat, plus: bool): string {
    (if plus then "+" else "") + Zeros(zeros) + Itoa(n)
  }

  // A number is its decimal digits, with any zeros and a plus sign before them.
  ghost predicate SpellsNumber(text: string, n: nat) {
    exists zeros, plus :: text == Digits(n, zeros, plus)
  }

  // A name may be in either case.
  ghost predicate SpellsValue(text: string, value: Value, names: map<string, int>) {
    match value
    case Number(n) => SpellsNumber(text, n)
    case Named(name) => name in names && Upper(text) == name
  }

  ghost predicate SpellsBase(text: string, base: Base, names: map<string, int>) {
    match base
    case Star => text == "*"
    case Single(value) => SpellsValue(text, value, names)
    case Range(low, high) =>
      exists left, right :: SpellsValue(left, low, names) && SpellsValue(right, high, names) && text == left + "-" + right
  }

  ghost predicate Spells(text: string, item: Item, names: map<string, int>) {
    match item.step
    case None => SpellsBase(text, item.base, names)
    case Some(n) => exists base, step :: SpellsBase(base, item.base, names) && SpellsNumber(step, n) && text == base + "/" + step
  }

  ghost predicate SpellsEach(texts: seq<string>, items: seq<Item>, names: map<string, int>) {
    |texts| == |items| > 0 && forall i | 0 <= i < |items| :: Spells(texts[i], items[i], names)
  }

  // A field is its items with commas between them.
  ghost predicate SpellsField(text: string, items: seq<Item>, names: map<string, int>) {
    exists texts :: SpellsEach(texts, items, names) && text == Join(texts, ',')
  }

  function Amount(value: Value, names: map<string, int>): Option<int> {
    match value
    case Number(n) => Some(n)
    case Named(name) => if name in names then Some(names[name]) else None
  }

  // What an item denotes in a field whose values run from minimum to maximum.
  function Meaning(item: Item, minimum: int, maximum: int, names: map<string, int>): Option<Term> {
    var step := item.step.GetOr(1);
    var first := match item.base { case Star => Some(minimum) case Single(value) => Amount(value, names) case Range(low, _) => Amount(low, names) };
    var last := match item.base
      case Star => Some(maximum)
      case Single(value) => if item.step.Some? then Some(maximum) else Amount(value, names)
      case Range(_, high) => Amount(high, names);
    if first.Some? && last.Some? && minimum <= first.value <= last.value <= maximum && 1 <= step <= MAX_INT64
    then Some(Term(first.value, last.value, step))
    else None
  }

  /* ----- reading what is spelled ----- */

  lemma DigitAppended(front: nat, digit: nat)
    requires digit < 10
    ensures Itoa(10 * front + digit) == (if front == 0 then "" else Itoa(front)) + ['0' + digit as char]
  {
    assert (10 * front + digit) / 10 == front && (10 * front + digit) % 10 == digit;
  }

  lemma CharAppended(front: string, c: char)
    requires IsDigit(c)
    ensures Decimal(front + [c]) ==
            if front == "" then Some(c as int - '0' as int)
            else match Decimal(front) case None => None case Some(n) => Some(10 * n + (c as int - '0' as int))
  {
    hide IsDigit;
    assert (front + [c])[..|front|] == front && (front + [c])[|front|] == c;
  }

  lemma DecimalAppended(front: string, digit: nat)
    requires digit < 10
    ensures Decimal(front + ['0' + digit as char]) ==
            if front == "" then Some(digit) else match Decimal(front) case None => None case Some(n) => Some(10 * n + digit)
  {
    var c := '0' + digit as char;
    assert c as int - '0' as int == digit && IsDigit(c);
    hide Decimal, IsDigit;
    CharAppended(front, c);
  }

  lemma {:induction false} DecimalOfDigits(n: nat, zeros: nat)
    ensures Decimal(Zeros(zeros) + Itoa(n)) == Some(n)
    decreases n, zeros
  {
    hide Decimal, Itoa;
    DigitAppended(n / 10, n % 10);
    var front := Zeros(zeros) + if n < 10 then "" else Itoa(n / 10);
    DecimalAppended(front, n % 10);
    assert Zeros(zeros) + Itoa(n) == front + ['0' + (n % 10) as char];
    if n >= 10 {
      DecimalOfDigits(n / 10, zeros);
    } else if zeros > 0 {
      DecimalOfDigits(0, zeros - 1);
      DigitAppended(0, 0);
      assert front == Zeros(zeros - 1) + Itoa(0);
    }
  }

  // Only the digits of a number, and zeros, read as it.
  lemma {:induction false} DigitsOfDecimal(s: string) returns (zeros: nat)
    requires Decimal(s).Some?
    ensures s == Zeros(zeros) + Itoa(Decimal(s).value)
  {
    var front, last := s[..|s| - 1], s[|s| - 1];
    var digit := last as int - '0' as int;
    assert s == front + [last] && last == '0' + digit as char;
    zeros := 0;
    if |s| == 1 {
      DigitAppended(0, digit);
      assert Zeros(0) == "";
    } else {
      assert Decimal(s) == Some(10 * Decimal(front).value + digit);
      var inner := DigitsOfDecimal(front);
      DigitAppended(Decimal(front).value, digit);
      zeros := if Decimal(front).value == 0 then inner + 1 else inner;
      ZerosBefore(Decimal(front).value, inner, digit);
    }
  }

  lemma ZerosBefore(front: nat, zeros: nat, digit: nat)
    requires digit < 10
    ensures Zeros(zeros) + Itoa(front) + ['0' + digit as char]
            == Zeros(if front == 0 then zeros + 1 else zeros) + Itoa(10 * front + digit)
  {
    DigitAppended(front, digit);
    if front == 0 {
      assert Itoa(0) == "0" && Zeros(zeros) + "0" == Zeros(zeros + 1);
    }
  }

  // The characters of a spelled value: none of them separates.
  predicate IsPlain(text: string) {
    text != "" && text[0] != '*' && forall c | c in text :: c != '/' && c != '-' && c != ','
  }

  // The digits of a number, with a plus sign or without.
  lemma SignedDigits(digits: string, n: nat)
    requires digits != "" && IsDigit(digits[0]) && Decimal(digits) == Some(n)
    ensures Atoi(digits) == (if n <= MAX_INT64 then Some(n) else None) && Atoi("+" + digits) == Atoi(digits)
  {
    assert ("+" + digits)[1..] == digits;
  }

  lemma DigitsArePlain(n: nat, zeros: nat)
    ensures var digits := Zeros(zeros) + Itoa(n); IsPlain(digits) && IsDigit(digits[0]) && IsPlain("+" + digits)
  {
    var digits := Zeros(zeros) + Itoa(n);
    hide Itoa;
    assert forall i | 0 <= i < |digits| :: IsDigit(digits[i]);
  }

  lemma SpelledNumber(text: string, n: nat)
    requires SpellsNumber(text, n)
    ensures IsPlain(text) && (IsDigit(text[0]) || text[0] == '+')
    ensures Atoi(text) == if n <= MAX_INT64 then Some(n) else None
  {
    hide Itoa, Decimal, Atoi, Zeros;
    var zeros, plus :| text == Digits(n, zeros, plus);
    var digits := Zeros(zeros) + Itoa(n);
    DecimalOfDigits(n, zeros);
    DigitsArePlain(n, zeros);
    SignedDigits(digits, n);
    assert text == if plus then "+" + digits else digits;
  }

  lemma SignAndDigits(text: string)
    requires Atoi(text).Some? && text[0] != '-'
    ensures text != "" && var plus := text[0] == '+'; Decimal(if plus then text[1..] else text) == Some(Atoi(text).value)
  {
  }

  lemma NumberIsSpelled(text: string)
    requires Atoi(text).Some? && text[0] != '-'
    ensures Atoi(text).value >= 0 && SpellsNumber(text, Atoi(text).value)
  {
    hide Itoa, Decimal, Atoi, Zeros;
    SignAndDigits(text);
    var plus := text[0] == '+';
    var digits := if plus then text[1..] else text;
    var zeros := DigitsOfDecimal(digits);
    assert text == (if plus then "+" else "") + digits;
    assert text == Digits(Atoi(text).value, zeros, plus);
  }

  lemma SpelledValue(text: string, value: Value, names: map<string, int>)
    requires NamesAreWords(names) && SpellsValue(text, value, names)
    ensures IsPlain(text)
    ensures CronValue(text, names) == if value.Number? && value.n > MAX_INT64 then None else Amount(value, names)
  {
    match value
    case Number(n) =>
      SpelledNumber(text, n);
      assert |text| == 3 ==> Upper(text)[0] == text[0];
    case Named(name) =>
      forall c | c in text
        ensures 'A' <= c <= 'Z' || 'a' <= c <= 'z'
      {
        var i :| 0 <= i < |text| && text[i] == c;
        assert Upper(text)[i] == name[i] && IsCapital(name[i]);
      }
      assert text[0] in text;
  }

  lemma ValueIsSpelled(text: string, names: map<string, int>) returns (value: Value)
    requires CronValue(text, names).Some? && '-' !in text
    ensures SpellsValue(text, value, names)
  {
    if |text| == 3 && Upper(text) in names {
      value := Named(Upper(text));
    } else {
      NumberIsSpelled(text);
      value := Number(Atoi(text).value);
    }
  }

  lemma SplitPlain(text: string, sep: char)
    requires sep !in text
    ensures Split(text, sep) == [text]
  {
    assert Join([text], sep) == text;
    SplitJoined([text], sep);
  }

  lemma JoinPair(pieces: seq<string>, sep: char)
    requires |pieces| == 2
    ensures Join(pieces, sep) == pieces[0] + [sep] + pieces[1]
  {
    assert Join(pieces[1..], sep) == pieces[1];
  }

  // The characters of a spelled base: only a star begins with one.
  lemma SpelledBase(text: string, base: Base, names: map<string, int>)
    requires NamesAreWords(names) && SpellsBase(text, base, names)
    ensures text != "" && '/' !in text && ',' !in text && (text[0] == '*' <==> base.Star?)
  {
    hide SpellsNumber;
    match base
    case Star =>
    case Single(value) => SpelledValue(text, value, names);
    case Range(low, high) =>
      var left, right :| SpellsValue(left, low, names) && SpellsValue(right, high, names) && text == left + "-" + right;
      SpelledValue(left, low, names);
      SpelledValue(right, high, names);
  }

  lemma ReadSpelledBase(text: string, base: Base, stepped: bool, minimum: int, maximum: int, names: map<string, int>)
    requires NamesAreWords(names) && SpellsBase(text, base, names)
    ensures var r := ReadBounds(text, stepped, minimum, maximum, names);
            match base
            case Star => r == Some((minimum, maximum))
            case Single(value) =>
              var x := CronValue(text, names);
              r == (if x.None? then None else Some((x.value, if stepped then maximum else x.value)))
              && x == (if value.Number? && value.n > MAX_INT64 then None else Amount(value, names))
            case Range(low, high) =>
              if (low.Number? && low.n > MAX_INT64) || (high.Number? && high.n > MAX_INT64) then r == None
              else Amount(low, names).Some? && Amount(high, names).Some? && r == Some((Amount(low, names).value, Amount(high, names).value))
  {
    hide SpellsNumber, Upper, Atoi;
    match base
    case Star =>
    case Single(value) =>
      SpelledValue(text, value, names);
      SplitPlain(text, '-');
    case Range(low, high) =>
      var left, right :| SpellsValue(left, low, names) && SpellsValue(right, high, names) && text == left + "-" + right;
      SpelledValue(left, low, names);
      SpelledValue(right, high, names);
      JoinPair([left, right], '-');
      SplitJoined([left, right], '-');
  }

  // A spelled item reads as its meaning, and is rejected when it has none.
  lemma ReadSpelled(text: string, item: Item, minimum: int, maximum: int, names: map<string, int>)
    requires NamesAreWords(names) && maximum <= MAX_INT64 && Spells(text, item, names)
    ensures ReadTerm(text, minimum, maximum, names) == Meaning(item, minimum, maximum, names)
    ensures ',' !in text && (StartsWithStar(text) <==> item.base.Star?)
  {
    hide SpellsNumber, SpellsBase, ReadBounds;
    match item.step
    case None =>
      SpelledBase(text, item.base, names);
      SplitPlain(text, '/');
      ReadSpelledBase(text, item.base, false, minimum, maximum, names);
    case Some(n) =>
      var base, step :| SpellsBase(base, item.base, names) && SpellsNumber(step, n) && text == base + "/" + step;
      SpelledBase(base, item.base, names);
      SpelledNumber(step, n);
      JoinPair([base, step], '/');
      SplitJoined([base, step], '/');
      ReadSpelledBase(base, item.base, true, minimum, maximum, names);
  }

  lemma BaseIsSpelled(text: string, stepped: bool, minimum: int, maximum: int, names: map<string, int>) returns (base: Base)
    requires ReadBounds(text, stepped, minimum, maximum, names).Some?
    ensures SpellsBase(text, base, names)
  {
    hide SpellsValue, CronValue;
    if text == "*" {
      base := Star;
    } else {
      var bounds := Split(text, '-');
      var low := ValueIsSpelled(bounds[0], names);
      if |bounds| == 2 {
        var high := ValueIsSpelled(bounds[1], names);
        base := Range(low, high);
        JoinPair(bounds, '-');
      } else {
        base := Single(low);
        assert text == bounds[0];
      }
    }
  }

  // Whatever is read is spelled.
  lemma ReadIsSpelled(text: string, minimum: int, maximum: int, names: map<string, int>) returns (item: Item)
    requires ReadTerm(text, minimum, maximum, names).Some?
    ensures Spells(text, item, names)
  {
    hide SpellsBase, SpellsNumber, ReadBounds;
    var halves := Split(text, '/');
    var base := BaseIsSpelled(halves[0], |halves| == 2, minimum, maximum, names);
    if |halves| == 2 {
      NumberIsSpelled(halves[1]);
      item := Item(base, Some(Atoi(halves[1]).value));
      JoinPair(halves, '/');
    } else {
      item := Item(base, None);
      assert text == halves[0];
    }
  }

  // One part of the list is read exactly if it spells an item that has a meaning in the field, and is read as that meaning.
  lemma ReadTermIsExact(text: string, minimum: int, maximum: int, names: map<string, int>, t: Term)
    requires NamesAreWords(names) && maximum <= MAX_INT64
    ensures ReadTerm(text, minimum, maximum, names) == Some(t) <==>
            exists item :: Spells(text, item, names) && Meaning(item, minimum, maximum, names) == Some(t)
  {
    hide Spells, ReadTerm, Meaning;
    if ReadTerm(text, minimum, maximum, names) == Some(t) {
      var item := ReadIsSpelled(text, minimum, maximum, names);
      ReadSpelled(text, item, minimum, maximum, names);
    }
    forall item | Spells(text, item, names)
      ensures ReadTerm(text, minimum, maximum, names) == Meaning(item, minimum, maximum, names)
    {
      ReadSpelled(text, item, minimum, maximum, names);
    }
  }

  // A spelled list splits into the spellings of its items, each read as its meaning.
  lemma ReadSpelledField(text: string, items: seq<Item>, minimum: int, maximum: int, names: map<string, int>)
    requires NamesAreWords(names) && maximum <= MAX_INT64 && SpellsField(text, items, names)
    ensures var parts := Split(text, ',');
            && |parts| == |items|
            && forall i | 0 <= i < |items| ::
                 && ReadTerm(parts[i], minimum, maximum, names) == Meaning(items[i], minimum, maximum, names)
                 && (StartsWithStar(parts[i]) <==> items[i].base.Star?)
  {
    hide Spells, ReadTerm, Meaning, StartsWithStar;
    var texts :| SpellsEach(texts, items, names) && text == Join(texts, ',');
    forall i | 0 <= i < |items|
      ensures ',' !in texts[i] && ReadTerm(texts[i], minimum, maximum, names) == Meaning(items[i], minimum, maximum, names)
      ensures StartsWithStar(texts[i]) <==> items[i].base.Star?
    {
      ReadSpelled(texts[i], items[i], minimum, maximum, names);
    }
    SplitJoined(texts, ',');
  }

  // A list whose parts are all read is spelled.
  lemma ReadFieldIsSpelled(text: string, minimum: int, maximum: int, names: map<string, int>) returns (items: seq<Item>)
    requires forall p | p in Split(text, ',') :: ReadTerm(p, minimum, maximum, names).Some?
    ensures SpellsField(text, items, names)
  {
    hide Spells, ReadTerm;
    var parts := Split(text, ',');
    items := [];
    while |items| < |parts|
      invariant |items| <= |parts| && forall i | 0 <= i < |items| :: Spells(parts[i], items[i], names)
    {
      var item := ReadIsSpelled(parts[|items|], minimum, maximum, names);
      items := items + [item];
    }
    assert SpellsEach(parts, items, names);
  }

  /* ----- every item can be spelled ----- */

  function PrintValue(value: Value): string {
    match value
    case Number(n) => Itoa(n)
    case Named(name) => name
  }

  function PrintBase(b: Base): string {
    match b
    case Star => "*"
    case Single(value) => PrintValue(value)
    case Range(low, high) => PrintValue(low) + "-" + PrintValue(high)
  }

  function PrintItem(item: Item): string {
    match item.step
    case None => PrintBase(item.base)
    case Some(step) => PrintBase(item.base) + "/" + Itoa(step)
  }

  lemma PrintedNumber(n: nat)
    ensures SpellsNumber(Itoa(n), n)
  {
    assert Itoa(n) == Digits(n, 0, false);
  }

  lemma PrintedValue(value: Value, names: map<string, int>)
    requires NamesAreWords(names) && Amount(value, names).Some?
    ensures SpellsValue(PrintValue(value), value, names)
  {
    hide SpellsNumber;
    match value
    case Number(n) => PrintedNumber(n);
    case Named(name) => assert forall i | 0 <= i < 3 :: Upper(name)[i] == name[i];
  }

  lemma PrintedBase(b: Base, names: map<string, int>)
    requires NamesAreWords(names)
    requires match b { case Star => true case Single(v) => Amount(v, names).Some? case Range(l, h) => Amount(l, names).Some? && Amount(h, names).Some? }
    ensures SpellsBase(PrintBase(b), b, names)
  {
    hide SpellsNumber, SpellsValue, Amount;
    match b
    case Star =>
    case Single(value) => PrintedValue(value, names);
    case Range(low, high) =>
      PrintedValue(low, names);
      PrintedValue(high, names);
  }

  // Every item with a meaning has a spelling, and reading it gives the meaning.
  lemma ReadPrintedItem(item: Item, minimum: int, maximum: int, names: map<string, int>)
    requires NamesAreWords(names) && maximum <= MAX_INT64 && Meaning(item, minimum, maximum, names).Some?
    ensures Spells(PrintItem(item), item, names)
    ensures ReadTerm(PrintItem(item), minimum, maximum, names) == Meaning(item, minimum, maximum, names)
  {
    hide SpellsNumber, SpellsBase, ReadTerm;
    PrintedBase(item.base, names);
    if item.step.Some? { PrintedNumber(item.step.value); }
    ReadSpelled(PrintItem(item), item, minimum, maximum, names);
  }
}
