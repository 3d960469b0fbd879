/** ISO 8601 durations of days, hours, minutes and seconds, and the row filter made from them. */
module IsoDuration {
  import opened Common
  import opened Decimals

  // ----- Grammar -----

  /** The numerals of a duration, as they are written; seconds may have a fraction. */
  datatype Fields = Fields(days: Option<string>, time: Option<TimeFields>)

  datatype TimeFields = TimeFields(hours: Option<string>, minutes: Option<string>, seconds: Option<Seconds>)

  datatype Seconds = Seconds(whole: string, fraction: Option<string>)

  predicate Numeral(s: string) {
    s != "" && AllDigits(s)
  }

  predicate OptionalNumeral(n: Option<string>) {
    n.Some? ==> Numeral(n.value)
  }

  predicate OptionalSeconds(n: Option<Seconds>) {
    n.Some? ==> Numeral(n.value.whole) && OptionalNumeral(n.value.fraction)
  }

  predicate ProperTime(t: TimeFields) {
    OptionalNumeral(t.hours) && OptionalNumeral(t.minutes) && OptionalSeconds(t.seconds)
  }

  predicate Proper(f: Fields) {
    OptionalNumeral(f.days) && (f.time.Some? ==> ProperTime(f.time.value))
  }

  function Part(n: Option<string>, unit: char): string {
    if n.None? then [] else n.value + [unit]
  }

  function FractionText(n: Option<string>): string {
    if n.None? then [] else ['.'] + n.value
  }

  function SecondsText(n: Option<Seconds>): string {
    if n.None? then [] else n.value.whole + (FractionText(n.value.fraction) + ['S'])
  }

  function TimeText(t: TimeFields): string {
    Part(t.hours, 'H') + (Part(t.minutes, 'M') + SecondsText(t.seconds))
  }

  function RestText(time: Option<TimeFields>): string {
    if time.None? then [] else ['T'] + TimeText(time.value)
  }

  /** `P[nD][T[nH][nM][n[.f]S]]`. */
  function Written(f: Fields): string {
    ['P'] + (Part(f.days, 'D') + RestText(f.time))
  }

  // ----- Parser -----

  datatype Error = Invalid | ZeroLength

  function DigitLength(s: string): (n: nat)
    ensures n <= |s| && AllDigits(s[..n]) && (n < |s| ==> !Digit(s[n]))
  {
    if s == "" || !Digit(s[0]) then 0 else 1 + DigitLength(s[1..])
  }

  /** `(?:(\d+)U)?`: the numeral before the unit, and what follows. */
  function Component(s: string, unit: char): (r: (Option<string>, string))
    requires !Digit(unit)
    ensures OptionalNumeral(r.0) && s == Part(r.0, unit) + r.1
  {
    var n := DigitLength(s);
    if 0 < n < |s| && s[n] == unit then (Some(s[..n]), s[n + 1..]) else (None, s)
  }

  /** `(?:\.\d+)?`. */
  function FractionComponent(s: string): (r: (Option<string>, string))
    ensures OptionalNumeral(r.0)
  {
    if s == "" || s[0] != '.' || DigitLength(s[1..]) == 0 then (None, s)
    else
      var digits := s[1..];
      (Some(digits[..DigitLength(digits)]), digits[DigitLength(digits)..])
  }

  lemma FractionSplits(s: string)
    ensures s == FractionText(FractionComponent(s).0) + FractionComponent(s).1
  {
  }

  /** `(?:(\d+(?:\.\d+)?)S)?`. */
  function SecondsComponent(s: string): (r: (Option<Seconds>, string))
    ensures OptionalSeconds(r.0)
  {
    var n := DigitLength(s);
    var (fraction, rest) := FractionComponent(s[n..]);
    if n == 0 || rest == "" || rest[0] != 'S' then (None, s)
    else (Some(Seconds(s[..n], fraction)), rest[1..])
  }

  lemma SecondsSplit(s: string)
    ensures s == SecondsText(SecondsComponent(s).0) + SecondsComponent(s).1
  {
    var n := DigitLength(s);
    var (fraction, rest) := FractionComponent(s[n..]);
    if n > 0 && rest != "" && rest[0] == 'S' {
      FractionSplits(s[n..]);
      Regroup(s[..n], FractionText(fraction), ['S'], rest[1..]);
      assert rest == ['S'] + rest[1..];
      assert s == s[..n] + s[n..];
    }
  }

  lemma Regroup(a: string, b: string, c: string, d: string)
    ensures a + (b + c) + d == a + (b + (c + d))
  {
  }

  function ParseTime(s: string): Option<TimeFields> {
    var (hours, afterHours) := Component(s, 'H');
    var (minutes, afterMinutes) := Component(afterHours, 'M');
    var (seconds, end) := SecondsComponent(afterMinutes);
    if end != "" then None else Some(TimeFields(hours, minutes, seconds))
  }

  function ParseRest(days: Option<string>, rest: string): Option<Fields> {
    if rest == "" then Some(Fields(days, None))
    else if rest[0] != 'T' then None
    else
      var time := ParseTime(rest[1..]);
      if time.None? then None else Some(Fields(days, time))
  }

  function ParseFields(s: string): Option<Fields> {
    if s == "" || s[0] != 'P' then None
    else
      var (days, rest) := Component(s[1..], 'D');
      ParseRest(days, rest)
  }

  function NumeralValue(n: Option<string>): nat
    requires OptionalNumeral(n)
  {
    if n.None? then 0 else Value(n.value)
  }

  /** Whole seconds: a fraction of a second is cut off. */
  function Total(f: Fields): nat
    requires Proper(f)
  {
    86400 * NumeralValue(f.days)
    + if f.time.None? then 0
      else
        var t := f.time.value;
        3600 * NumeralValue(t.hours) + 60 * NumeralValue(t.minutes)
        + if t.seconds.None? then 0 else Value(t.seconds.value.whole)
  }

  /** `_parse_iso_duration_to_seconds`. */
  function Parse(s: string): Result<nat, Error> {
    var f := ParseFields(s);
    if f.None? then Err(Invalid)
    else
      ParsedIsWritten(s);
      if Total(f.value) == 0 then Err(ZeroLength) else Ok(Total(f.value))
  }

  // ----- The parser accepts exactly the grammar -----

  lemma ParsedTimeIsWritten(s: string)
    requires ParseTime(s).Some?
    ensures ProperTime(ParseTime(s).value) && TimeText(ParseTime(s).value) == s
  {
    var t := ParseTime(s).value;
    SecondsSplit(Component(Component(s, 'H').1, 'M').1);
    assert SecondsText(t.seconds) + [] == SecondsText(t.seconds);
  }

  lemma FirstAndRest(s: string)
    requires s != ""
    ensures s == [s[0]] + s[1..]
  {
  }

  lemma ParsedRestIsWritten(days: Option<string>, rest: string)
    requires ParseRest(days, rest).Some?
    ensures var f := ParseRest(days, rest).value;
            f.days == days && (f.time.Some? ==> ProperTime(f.time.value)) && rest == RestText(f.time)
  {
    if rest != "" {
      FirstAndRest(rest);
      ParsedTimeIsWritten(rest[1..]);
    }
  }

  lemma ParsedIsWritten(s: string)
    requires ParseFields(s).Some?
    ensures Proper(ParseFields(s).value) && Written(ParseFields(s).value) == s
  {
    var (days, rest) := Component(s[1..], 'D');
    ParsedRestIsWritten(days, rest);
    assert s == ['P'] + s[1..];
  }

  lemma {:induction false} DigitLengthIs(num: string, rest: string)
    requires AllDigits(num) && (rest != "" ==> !Digit(rest[0]))
    ensures DigitLength(num + rest) == |num|
  {
    if num == "" {
      assert num + rest == rest;
    } else {
      assert (num + rest)[1..] == num[1..] + rest;
      DigitLengthIs(num[1..], rest);
    }
  }

  /** A written part is read back, and a part that is not there is skipped. */
  lemma ComponentReads(n: Option<string>, unit: char, rest: string)
    requires OptionalNumeral(n) && !Digit(unit)
    requires n.None? ==> Component(rest, unit) == (None, rest)
    ensures Component(Part(n, unit) + rest, unit) == (n, rest)
  {
    if n.Some? {
      assert Part(n, unit) + rest == n.value + ([unit] + rest);
      DigitLengthIs(n.value, [unit] + rest);
    } else {
      assert Part(n, unit) + rest == rest;
    }
  }

  /** A text that starts with a numeral and then one of the letters given, or is empty. */
  predicate StartsWithUnit(s: string, units: set<char>) {
    s == "" || (DigitLength(s) < |s| && s[DigitLength(s)] in units)
  }

  lemma PartStarts(n: Option<string>, unit: char, rest: string, units: set<char>)
    requires OptionalNumeral(n) && !Digit(unit) && StartsWithUnit(rest, units)
    ensures StartsWithUnit(Part(n, unit) + rest, units + {unit})
  {
    if n.Some? {
      assert Part(n, unit) + rest == n.value + ([unit] + rest);
      DigitLengthIs(n.value, [unit] + rest);
    } else {
      assert Part(n, unit) + rest == rest;
    }
  }

  lemma FractionReads(n: Option<string>)
    requires OptionalNumeral(n)
    ensures FractionComponent(FractionText(n) + ['S']) == (n, ['S'])
  {
    if n.Some? {
      var tail := FractionText(n) + ['S'];
      assert tail[1..] == n.value + ['S'];
      DigitLengthIs(n.value, ['S']);
    } else {
      assert FractionText(n) + ['S'] == ['S'];
    }
  }

  lemma SecondsRead(n: Option<Seconds>)
    requires OptionalSeconds(n)
    ensures SecondsComponent(SecondsText(n)) == (n, [])
    ensures StartsWithUnit(SecondsText(n), {'S', '.'})
  {
    if n.Some? {
      var tail := FractionText(n.value.fraction) + ['S'];
      DigitLengthIs(n.value.whole, tail);
      assert SecondsText(n)[|n.value.whole|..] == tail && SecondsText(n)[..|n.value.whole|] == n.value.whole;
      FractionReads(n.value.fraction);
      assert ['S'][1..] == [];
      assert n == Some(Seconds(n.value.whole, n.value.fraction));
    }
  }

  lemma TimeReads(t: TimeFields)
    requires ProperTime(t)
    ensures ParseTime(TimeText(t)) == Some(t)
  {
    var seconds := SecondsText(t.seconds);
    var minutes := Part(t.minutes, 'M') + seconds;
    SecondsRead(t.seconds);
    PartStarts(t.minutes, 'M', seconds, {'S', '.'});
    ComponentReads(t.minutes, 'M', seconds);
    ComponentReads(t.hours, 'H', minutes);
  }

  /** The parser reads a text as some fields exactly when the text is those fields written down. */
  lemma ParsesExactlyTheGrammar(s: string, f: Fields)
    ensures ParseFields(s) == Some(f) <==> Proper(f) && s == Written(f)
  {
    if ParseFields(s) == Some(f) {
      ParsedIsWritten(s);
    }
    if Proper(f) && s == Written(f) {
      var rest := RestText(f.time);
      assert s[1..] == Part(f.days, 'D') + rest;
      assert rest != "" ==> DigitLength(rest) == 0;
      ComponentReads(f.days, 'D', rest);
      if f.time.Some? {
        assert rest[1..] == TimeText(f.time.value);
        TimeReads(f.time.value);
      }
    }
  }

  // ----- Totals -----

  /** A duration is accepted, with its total, exactly when it follows the grammar and is not zero. */
  lemma AcceptedExactly(s: string, total: nat)
    ensures Parse(s) == Ok(total) <==> total > 0 && exists f :: Proper(f) && s == Written(f) && Total(f) == total
    ensures Parse(s) == Err(ZeroLength) <==> exists f :: Proper(f) && s == Written(f) && Total(f) == 0
  {
    forall f | Proper(f) && s == Written(f) ensures ParseFields(s) == Some(f) {
      ParsesExactlyTheGrammar(s, f);
    }
    if ParseFields(s).Some? { ParsedIsWritten(s); }
  }

  lemma WrittenParses(s: string, f: Fields)
    requires Proper(f) && s == Written(f)
    ensures Parse(s) == if Total(f) > 0 then Ok(Total(f)) else Err(ZeroLength)
  {
    ParsesExactlyTheGrammar(s, f);
  }

  function PrintAll(days: nat, hours: nat, minutes: nat, seconds: nat): string {
    ['P'] + (Print(days) + ['D'] + (['T'] + PrintTime(hours, minutes, seconds)))
  }

  function PrintTime(hours: nat, minutes: nat, seconds: nat): string {
    Print(hours) + ['H'] + (Print(minutes) + ['M'] + (Print(seconds) + ['S']))
  }

  function FieldsOf(days: nat, hours: nat, minutes: nat, seconds: nat): Fields {
    Fields(Some(Print(days)),
           Some(TimeFields(Some(Print(hours)), Some(Print(minutes)), Some(Seconds(Print(seconds), None)))))
  }

  lemma PrintAllIsWritten(days: nat, hours: nat, minutes: nat, seconds: nat)
    ensures PrintAll(days, hours, minutes, seconds) == Written(FieldsOf(days, hours, minutes, seconds))
  {
  }

  lemma TotalOfFields(days: nat, hours: nat, minutes: nat, seconds: nat)
    ensures Total(FieldsOf(days, hours, minutes, seconds)) == 86400 * days + 3600 * hours + 60 * minutes + seconds
  {
    ValueOfPrint(days);
    ValueOfPrint(hours);
    ValueOfPrint(minutes);
    ValueOfPrint(seconds);
  }

  /** Printing days, hours, minutes and whole seconds and parsing gives their total back, unless it is zero. */
  lemma PrintThenParse(days: nat, hours: nat, minutes: nat, seconds: nat)
    ensures var total := 86400 * days + 3600 * hours + 60 * minutes + seconds;
            Parse(PrintAll(days, hours, minutes, seconds)) == if total > 0 then Ok(total) else Err(ZeroLength)
  {
    PrintAllIsWritten(days, hours, minutes, seconds);
    WrittenParses(PrintAll(days, hours, minutes, seconds), FieldsOf(days, hours, minutes, seconds));
    TotalOfFields(days, hours, minutes, seconds);
  }

  function Printed(n: Option<nat>): Option<string> {
    if n.None? then None else Some(Print(n.value))
  }

  function Or0(n: Option<nat>): nat {
    if n.None? then 0 else n.value
  }

  function SomeFields(days: Option<nat>, hours: Option<nat>, minutes: Option<nat>, seconds: Option<nat>,
                      fraction: Option<string>): Fields
  {
    Fields(Printed(days),
           Some(TimeFields(Printed(hours), Printed(minutes),
                           if seconds.None? then None else Some(Seconds(Print(seconds.value), fraction)))))
  }

  lemma SomePartsWritten(days: Option<nat>, hours: Option<nat>, minutes: Option<nat>, seconds: Option<nat>,
                         fraction: Option<string>)
    requires OptionalNumeral(fraction)
    ensures Proper(SomeFields(days, hours, minutes, seconds, fraction))
    ensures Written(SomeFields(days, hours, minutes, seconds, fraction)) ==
            ['P'] + ((if days.Some? then Print(days.value) + ['D'] else []) +
            (['T'] + ((if hours.Some? then Print(hours.value) + ['H'] else []) +
            ((if minutes.Some? then Print(minutes.value) + ['M'] else []) +
             (if seconds.Some? then Print(seconds.value) + ((if fraction.Some? then ['.'] + fraction.value else []) + ['S'])
              else [])))))
    ensures Total(SomeFields(days, hours, minutes, seconds, fraction)) ==
            86400 * Or0(days) + 3600 * Or0(hours) + 60 * Or0(minutes) + Or0(seconds)
  {
    if days.Some? { ValueOfPrint(days.value); }
    if hours.Some? { ValueOfPrint(hours.value); }
    if minutes.Some? { ValueOfPrint(minutes.value); }
    if seconds.Some? { ValueOfPrint(seconds.value); }
  }

  /** Any of the parts may be left out, and counts as zero then; a fraction of a second is cut off. */
  lemma PartsThenParse(days: Option<nat>, hours: Option<nat>, minutes: Option<nat>, seconds: Option<nat>,
                       fraction: Option<string>)
    requires OptionalNumeral(fraction)
    ensures var text := ['P'] + ((if days.Some? then Print(days.value) + ['D'] else []) +
              (['T'] + ((if hours.Some? then Print(hours.value) + ['H'] else []) +
              ((if minutes.Some? then Print(minutes.value) + ['M'] else []) +
               (if seconds.Some? then Print(seconds.value) + ((if fraction.Some? then ['.'] + fraction.value else []) + ['S'])
                else [])))));
            var total := 86400 * Or0(days) + 3600 * Or0(hours) + 60 * Or0(minutes) + Or0(seconds);
            Parse(text) == if total > 0 then Ok(total) else Err(ZeroLength)
  {
    var f := SomeFields(days, hours, minutes, seconds, fraction);
    SomePartsWritten(days, hours, minutes, seconds, fraction);
    WrittenParses(Written(f), f);
  }

  /** Days alone count as days; without a part there is no length. */
  lemma DaysThenParse(days: nat)
    ensures Parse(['P'] + (Print(days) + ['D'])) == if days > 0 then Ok(86400 * days) else Err(ZeroLength)
    ensures Parse(['P']) == Err(ZeroLength)
  {
    var f := Fields(Some(Print(days)), None);
    ValueOfPrint(days);
    assert Written(f) == ['P'] + (Print(days) + ['D']);
    WrittenParses(Written(f), f);
    assert Written(Fields(None, None)) == ['P'];
    WrittenParses(['P'], Fields(None, None));
  }

  // ----- The row filter -----

  /** `CAST(to_unixtime(t) AS BIGINT) % seconds = 0`. */
  predicate Aligned(epoch: int, seconds: nat)
    requires seconds > 0
  {
    epoch % seconds == 0
  }

  lemma MultipleOfMultiple(epoch: int, coarse: nat, fine: nat)
    requires fine > 0 && coarse > 0 && coarse % fine == 0 && epoch % coarse == 0
    ensures epoch % fine == 0
  {
    var a, b := epoch / coarse, coarse / fine;
    assert epoch == a * coarse && coarse == b * fine;
    assert epoch == (a * b) * fine;
    ModOfMultiple(a * b, fine);
  }

  lemma MultipleGrows(k: int, m: nat)
    ensures k >= 1 ==> k * m >= m
    ensures k <= -1 ==> k * m <= 0 - m
  {
  }

  lemma ModOfMultiple(k: int, m: nat)
    requires m > 0
    ensures k * m % m == 0
  {
    var q, r := k * m / m, k * m % m;
    assert k * m == q * m + r;
    assert (k - q) * m == r;
    MultipleGrows(k - q, m);
  }

  /** A coarser duration keeps only rows that a finer one keeps, exactly when it is a multiple of the finer. */
  lemma CoarserIsSubset(coarse: string, fine: string)
    requires Parse(coarse).Ok? && Parse(fine).Ok?
    ensures Parse(coarse).value > 0 && Parse(fine).value > 0
    ensures (forall epoch :: Aligned(epoch, Parse(coarse).value) ==> Aligned(epoch, Parse(fine).value)) <==>
            Parse(coarse).value % Parse(fine).value == 0
  {
    var c, d := Parse(coarse).value, Parse(fine).value;
    if c % d == 0 {
      forall epoch | Aligned(epoch, c) ensures Aligned(epoch, d) { MultipleOfMultiple(epoch, c, d); }
    } else {
      assert Aligned(c, c) && !Aligned(c, d);
    }
  }
}
