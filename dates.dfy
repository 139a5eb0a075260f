/** The date-time text format '%d/%m/%Y %H:%M' of the service, as Python's
    `datetime.strptime` reads it and `datetime.strftime` writes it.

    `strptime` turns the format into a regular expression, one group per
    directive, and raises ValueError unless the whole string matches and the
    matched numbers form a real date:
      %d  `3[01]|[12]\d|0[1-9]|[1-9]| [1-9]`   (a day may also be a space and a digit)
      %m  `1[0-2]|0[1-9]|[1-9]`
      %Y  `\d\d\d\d`
      ' ' `\s+`                                 (one space in the format matches any whitespace run)
      %H  `2[0-3]|[0-1]\d|\d`
      %M  `[0-5]\d|\d`
    Parse works on positions: Scan finds the separators and the end of the
    whitespace run, and Read checks and converts the numbers between them.
    The same reading is also stated on the groups themselves: Split cuts a
    string into its groups and Assemble checks and converts them, and
    ParseGroups proves that Parse is Assemble after Split. */
module Dates {
  import opened Wrappers

  /** The fields of a Python `datetime` that the format reads or writes
      (seconds and microseconds are always zero for values parsed with it). */
  datatype Stamp = Stamp(year: int, month: int, day: int, hour: int, minute: int)

  /** The Gregorian leap-year rule used by Python's `calendar.isleap`. */
  predicate IsLeapYear(year: int) {
    year % 4 == 0 && (year % 100 != 0 || year % 400 == 0)
  }

  function DaysInMonth(year: int, month: int): int
    requires 1 <= month <= 12
  {
    if month == 2 then (if IsLeapYear(year) then 29 else 28)
    else if month == 4 || month == 6 || month == 9 || month == 11 then 30
    else 31
  }

  /** What Python's `datetime` accepts: a year in MINYEAR..MAXYEAR (1..9999),
      a day that exists in its month, and a time of day. */
  predicate InCalendar(d: Stamp) {
    && 1 <= d.year <= 9999
    && 1 <= d.month <= 12
    && 1 <= d.day <= DaysInMonth(d.year, d.month)
    && 0 <= d.hour <= 23
    && 0 <= d.minute <= 59
  }

  /** A Python `datetime` value: it cannot hold a date outside the calendar. */
  type DateTime = d: Stamp | InCalendar(d) witness Stamp(1, 1, 1, 0, 0)

  // ---------------------------------------------------------------------------
  // Characters and digit strings

  predicate IsDigit(c: char) {
    '0' <= c <= '9'
  }

  /** The ASCII characters for which Python's `str.isspace` holds (what `\s` matches among them). */
  predicate IsSpace(c: char) {
    c == ' ' || 9 <= c as int <= 13 || 28 <= c as int <= 31
  }

  predicate IsDigits(t: string) {
    forall i :: 0 <= i < |t| ==> IsDigit(t[i])
  }

  /** The decimal value of a digit string, as Python's `int` reads it. */
  function DigitsValue(t: string): nat
    requires IsDigits(t)
    decreases |t|
  {
    if t == [] then 0 else DigitsValue(t[..|t| - 1]) * 10 + (t[|t| - 1] as int - '0' as int)
  }

  function DigitChar(n: nat): (c: char)
    requires n < 10
    ensures IsDigit(c) && c as int - '0' as int == n
  {
    ('0' as int + n) as char
  }

  // ---------------------------------------------------------------------------
  // Scanning: where the separators are

  /** The position of the first `c` in `s` at or after `from`. */
  function FirstIndex(s: string, c: char, from: nat): (r: Option<nat>)
    requires from <= |s|
    ensures r.Some? ==> from <= r.value < |s| && s[r.value] == c
    ensures r.Some? ==> forall k :: from <= k < r.value ==> s[k] != c
    ensures r.None? ==> forall k :: from <= k < |s| ==> s[k] != c
    decreases |s| - from
  {
    if from == |s| then None
    else if s[from] == c then Some(from)
    else FirstIndex(s, c, from + 1)
  }

  /** Where the whitespace run that starts at `from` ends. */
  function SpaceEnd(s: string, from: nat): (n: nat)
    requires from <= |s|
    ensures from <= n <= |s|
    ensures forall i :: from <= i < n ==> IsSpace(s[i])
    ensures n < |s| ==> !IsSpace(s[n])
    decreases |s| - from
  {
    if from < |s| && IsSpace(s[from]) then SpaceEnd(s, from + 1) else from
  }

  /** Where the match puts its separators: the two slashes, the end of the
      whitespace run that follows the four year characters, and the colon. */
  datatype Cuts = Cuts(slash1: nat, slash2: nat, spaceEnd: nat, colon: nat)

  predicate Fits(s: string, c: Cuts) {
    c.slash1 < c.slash2 && c.slash2 + 5 <= c.spaceEnd <= c.colon < |s|
  }

  /** The separators of `s`, or None when one is missing: the first '/', the
      next '/', four characters for the year, the longest whitespace run,
      then the first ':'. */
  function Scan(s: string): (r: Option<Cuts>)
    ensures r.Some? ==> Fits(s, r.value)
  {
    match FirstIndex(s, '/', 0)
    case None => None
    case Some(i) =>
      match FirstIndex(s, '/', i + 1)
      case None => None
      case Some(j) =>
        if |s| < j + 5 then None
        else
          var w := SpaceEnd(s, j + 5);
          match FirstIndex(s, ':', w)
          case None => None
          case Some(k) => Some(Cuts(i, j, w, k))
  }

  // ---------------------------------------------------------------------------
  // Reading the numbers between the separators

  predicate DigitsIn(s: string, lo: nat, hi: nat)
    requires lo <= hi <= |s|
  {
    forall i :: lo <= i < hi ==> IsDigit(s[i])
  }

  /** The decimal value of the digits at positions lo..hi of `s`. */
  function ValueIn(s: string, lo: nat, hi: nat): nat
    requires lo <= hi <= |s| && DigitsIn(s, lo, hi)
    decreases hi - lo
  {
    if hi == lo then 0 else ValueIn(s, lo, hi - 1) * 10 + (s[hi - 1] as int - '0' as int)
  }

  /** The group of %m, %H or %M at lo..hi: one or two digits with a value in min..max. */
  function NumberIn(s: string, lo: nat, hi: nat, min: int, max: int): Option<int>
    requires lo <= hi <= |s|
  {
    if 1 <= hi - lo <= 2 && DigitsIn(s, lo, hi) && min <= ValueIn(s, lo, hi) <= max
    then Some(ValueIn(s, lo, hi)) else None
  }

  /** The group of %d at lo..hi: a number 1..31 of one or two digits, or a space and a digit 1..9. */
  function DayIn(s: string, lo: nat, hi: nat): Option<int>
    requires lo <= hi <= |s|
  {
    if hi - lo == 2 && s[lo] == ' ' && '1' <= s[lo + 1] <= '9' then Some(s[lo + 1] as int - '0' as int)
    else NumberIn(s, lo, hi, 1, 31)
  }

  /** The group of %Y at lo..hi: exactly four digits. */
  function YearIn(s: string, lo: nat, hi: nat): Option<int>
    requires lo <= hi <= |s|
  {
    if hi - lo == 4 && DigitsIn(s, lo, hi) then Some(ValueIn(s, lo, hi)) else None
  }

  /** The `datetime` that `s` denotes once its separators are found, or None
      where `strptime` raises ValueError: a field is malformed, the whitespace
      run is empty, or the numbers are not a date. */
  function Read(s: string, c: Cuts): Option<DateTime>
    requires Fits(s, c)
  {
    Combine(c.slash2 + 5 < c.spaceEnd,
            DayIn(s, 0, c.slash1), NumberIn(s, c.slash1 + 1, c.slash2, 1, 12), YearIn(s, c.slash2 + 1, c.slash2 + 5),
            NumberIn(s, c.spaceEnd, c.colon, 0, 23), NumberIn(s, c.colon + 1, |s|, 0, 59))
  }

  /** The date the fields denote: every field read, the whitespace present
      and the date in the calendar; else None. */
  function Combine(spaced: bool, day: Option<int>, month: Option<int>, year: Option<int>,
                   hour: Option<int>, minute: Option<int>): Option<DateTime>
  {
    if && spaced
       && day.Some? && month.Some? && year.Some? && hour.Some? && minute.Some?
       && InCalendar(Stamp(year.value, month.value, day.value, hour.value, minute.value))
    then Some(Stamp(year.value, month.value, day.value, hour.value, minute.value))
    else None
  }

  /** `datetime.strptime(s, '%d/%m/%Y %H:%M')`: Some(the value), or None for ValueError. */
  function Parse(s: string): Option<DateTime> {
    match Scan(s)
    case None => None
    case Some(c) => Read(s, c)
  }

  // ---------------------------------------------------------------------------
  // The groups: the text each directive matched
  //
  // The group grammar below (DayToken, SmallNumber, YearToken, DigitsValue,
  // Assemble) is the specification: it reads each matched group on its own,
  // as the regular expression's groups are read. Parse itself uses the
  // positional readers above (DayIn, NumberIn, YearIn, ValueIn, Read), which
  // read the same digits in place without cutting the string. Proofs about
  // callers of Parse then do not reason about slices. ReadPieces and
  // ParseGroups prove that the two readings agree on every string.

  /** The groups of a string matched against the format, in order:
      day '/' month '/' year space hour ':' minute. */
  datatype Tokens = Tokens(day: string, month: string, year: string, space: string, hour: string, minute: string)

  function Spell(t: Tokens): string {
    t.day + ("/" + (t.month + ("/" + (t.year + (t.space + (t.hour + (":" + t.minute)))))))
  }

  /** The groups as the regular expression delimits them: no group of %d, %m
      or %H contains its following separator, the year is four characters and
      the whitespace run is as long as it can be. */
  predicate Separable(t: Tokens) {
    && '/' !in t.day
    && '/' !in t.month
    && |t.year| == 4
    && (forall i :: 0 <= i < |t.space| ==> IsSpace(t.space[i]))
    && (t.hour != [] ==> !IsSpace(t.hour[0]))
    && ':' !in t.hour
  }

  /** The text between the separators. */
  function Pieces(s: string, c: Cuts): Tokens
    requires Fits(s, c)
  {
    Tokens(s[..c.slash1], s[c.slash1 + 1..c.slash2], s[c.slash2 + 1..c.slash2 + 5],
           s[c.slash2 + 5..c.spaceEnd], s[c.spaceEnd..c.colon], s[c.colon + 1..])
  }

  /** The groups of `s`, or None when a separator is missing. */
  function Split(s: string): (r: Option<Tokens>)
    ensures r.Some? ==> Separable(r.value) && Spell(r.value) == s
  {
    match Scan(s)
    case None => None
    case Some(c) =>
      ScanPieces(s, c);
      Some(Pieces(s, c))
  }

  /** One or two digits with a value in lo..hi: the groups of %m, %H and %M. */
  function SmallNumber(t: string, lo: int, hi: int): Option<int> {
    if 1 <= |t| <= 2 && IsDigits(t) && lo <= DigitsValue(t) <= hi then Some(DigitsValue(t)) else None
  }

  /** The group of %d: a number 1..31 of one or two digits, or a space and a digit 1..9. */
  function DayToken(t: string): Option<int> {
    if |t| == 2 && t[0] == ' ' && '1' <= t[1] <= '9' then Some(t[1] as int - '0' as int)
    else SmallNumber(t, 1, 31)
  }

  /** The group of %Y: exactly four digits. */
  function YearToken(t: string): Option<int> {
    if |t| == 4 && IsDigits(t) then Some(DigitsValue(t)) else None
  }

  /** The `datetime` the groups denote, or None where `strptime` raises ValueError. */
  function Assemble(t: Tokens): Option<DateTime> {
    Combine(t.space != [], DayToken(t.day), SmallNumber(t.month, 1, 12), YearToken(t.year),
            SmallNumber(t.hour, 0, 23), SmallNumber(t.minute, 0, 59))
  }

  // ---------------------------------------------------------------------------
  // The scan reads the groups

  /** `t` occurs in `s` at position `p`. */
  predicate At(s: string, p: nat, t: string) {
    p + |t| <= |s| && forall x :: 0 <= x < |t| ==> s[p + x] == t[x]
  }

  lemma AtAppend(s: string, p: nat, a: string, b: string)
    requires At(s, p, a + b)
    ensures At(s, p, a) && At(s, p + |a|, b)
  {
    assert forall x :: 0 <= x < |a| ==> (a + b)[x] == a[x];
    assert forall x :: 0 <= x < |b| ==> (a + b)[|a| + x] == b[x];
  }

  lemma AtSlice(s: string, p: nat, t: string)
    requires At(s, p, t)
    ensures s[p..p + |t|] == t
  {
  }

  /** What the scan finds: separators at the cut positions, none of the
      same kind before them in their fields, and a maximal whitespace run. */
  predicate Delimits(s: string, c: Cuts) {
    && Fits(s, c)
    && s[c.slash1] == '/' && s[c.slash2] == '/' && s[c.colon] == ':'
    && (forall k :: 0 <= k < c.slash1 ==> s[k] != '/')
    && (forall k :: c.slash1 < k < c.slash2 ==> s[k] != '/')
    && (forall k :: c.slash2 + 5 <= k < c.spaceEnd ==> IsSpace(s[k]))
    && !IsSpace(s[c.spaceEnd])
    && (forall k :: c.spaceEnd <= k < c.colon ==> s[k] != ':')
  }

  lemma ScanExact(s: string, c: Cuts)
    ensures Scan(s) == Some(c) <==> Delimits(s, c)
  {
    if Delimits(s, c) {
      DelimitsScan(s, c);
    }
  }

  lemma DelimitsScan(s: string, c: Cuts)
    requires Delimits(s, c)
    ensures Scan(s) == Some(c)
  {
    FirstIndexAt(s, '/', 0, c.slash1);
    FirstIndexAt(s, '/', c.slash1 + 1, c.slash2);
    SpaceEndAt(s, c.slash2 + 5, c.spaceEnd);
    FirstIndexAt(s, ':', c.spaceEnd, c.colon);
  }

  lemma PiecesSeparable(s: string, c: Cuts)
    requires Delimits(s, c)
    ensures Separable(Pieces(s, c))
  {
    var t := Pieces(s, c);
    assert forall x :: 0 <= x < |t.day| ==> t.day[x] == s[x];
    assert forall x :: 0 <= x < |t.month| ==> t.month[x] == s[c.slash1 + 1 + x];
    assert forall x :: 0 <= x < |t.space| ==> t.space[x] == s[c.slash2 + 5 + x];
    assert forall x :: 0 <= x < |t.hour| ==> t.hour[x] == s[c.spaceEnd + x];
  }

  lemma PiecesSpell(s: string, c: Cuts)
    requires Fits(s, c) && s[c.slash1] == '/' && s[c.slash2] == '/' && s[c.colon] == ':'
    ensures Spell(Pieces(s, c)) == s
  {
    SpellFromDay(s, c);
    AtWhole(s, Spell(Pieces(s, c)));
  }

  /** From the hour on, `s` reads the hour group, the colon and the minute group. */
  lemma SpellFromHour(s: string, c: Cuts)
    requires Fits(s, c) && s[c.colon] == ':'
    ensures var t := Pieces(s, c); At(s, c.spaceEnd, t.hour + (":" + t.minute))
  {
    var t := Pieces(s, c);
    AtPiece(s, c.colon + 1, |s|);
    assert s[c.colon + 1..|s|] == t.minute;
    AtChar(s, c.colon);
    AtJoin(s, c.colon, ":", t.minute);
    AtPiece(s, c.spaceEnd, c.colon);
    AtJoin(s, c.spaceEnd, t.hour, ":" + t.minute);
  }

  /** From the second slash on, `s` reads the slash, the year and whitespace
      groups and the rest from the hour. */
  lemma SpellFromYear(s: string, c: Cuts)
    requires Fits(s, c) && s[c.slash2] == '/' && s[c.colon] == ':'
    ensures var t := Pieces(s, c); At(s, c.slash2, "/" + (t.year + (t.space + (t.hour + (":" + t.minute)))))
  {
    var t := Pieces(s, c);
    var fromHour := t.hour + (":" + t.minute);
    SpellFromHour(s, c);
    AtPiece(s, c.slash2 + 5, c.spaceEnd);
    AtJoin(s, c.slash2 + 5, t.space, fromHour);
    AtPiece(s, c.slash2 + 1, c.slash2 + 5);
    AtJoin(s, c.slash2 + 1, t.year, t.space + fromHour);
    AtChar(s, c.slash2);
    AtJoin(s, c.slash2, "/", t.year + (t.space + fromHour));
  }

  /** From the start, `s` reads the whole spelling of its groups. */
  lemma SpellFromDay(s: string, c: Cuts)
    requires Fits(s, c) && s[c.slash1] == '/' && s[c.slash2] == '/' && s[c.colon] == ':'
    ensures At(s, 0, Spell(Pieces(s, c)))
  {
    var t := Pieces(s, c);
    var fromYear := "/" + (t.year + (t.space + (t.hour + (":" + t.minute))));
    SpellFromYear(s, c);
    AtPiece(s, c.slash1 + 1, c.slash2);
    AtJoin(s, c.slash1 + 1, t.month, fromYear);
    AtChar(s, c.slash1);
    AtJoin(s, c.slash1, "/", t.month + fromYear);
    AtPiece(s, 0, c.slash1);
    assert s[0..c.slash1] == t.day;
    AtJoin(s, 0, t.day, "/" + (t.month + fromYear));
  }

  lemma AtPiece(s: string, p: nat, q: nat)
    requires p <= q <= |s|
    ensures At(s, p, s[p..q])
  {
  }

  lemma AtChar(s: string, p: nat)
    requires p < |s|
    ensures At(s, p, [s[p]])
  {
  }

  lemma AtJoin(s: string, p: nat, a: string, b: string)
    requires At(s, p, a) && At(s, p + |a|, b)
    ensures At(s, p, a + b)
  {
    forall x | 0 <= x < |a + b|
      ensures s[p + x] == (a + b)[x]
    {
      if x >= |a| {
        assert s[p + |a| + (x - |a|)] == b[x - |a|];
      }
    }
  }

  lemma AtWhole(s: string, a: string)
    requires At(s, 0, a) && |a| == |s|
    ensures a == s
  {
    assert forall x :: 0 <= x < |s| ==> s[0 + x] == a[x];
  }

  /** Found separators cut `s` into groups the regular expression delimits, which spell `s`. */
  lemma ScanPieces(s: string, c: Cuts)
    requires Scan(s) == Some(c)
    ensures Separable(Pieces(s, c)) && Spell(Pieces(s, c)) == s
  {
    ScanExact(s, c);
    PiecesSeparable(s, c);
    PiecesSpell(s, c);
  }

  lemma {:induction false} DigitsInSlice(s: string, lo: nat, hi: nat)
    requires lo <= hi <= |s|
    ensures DigitsIn(s, lo, hi) <==> IsDigits(s[lo..hi])
    ensures DigitsIn(s, lo, hi) ==> DigitsValue(s[lo..hi]) == ValueIn(s, lo, hi)
    decreases hi - lo
  {
    var t := s[lo..hi];
    assert forall x :: 0 <= x < |t| ==> t[x] == s[lo + x];
    if hi > lo && DigitsIn(s, lo, hi) {
      DigitsInSlice(s, lo, hi - 1);
      assert t[..|t| - 1] == s[lo..hi - 1];
    }
  }

  lemma NumberInSlice(s: string, lo: nat, hi: nat, min: int, max: int)
    requires lo <= hi <= |s|
    ensures NumberIn(s, lo, hi, min, max) == SmallNumber(s[lo..hi], min, max)
  {
    DigitsInSlice(s, lo, hi);
  }

  lemma DayInSlice(s: string, hi: nat)
    requires hi <= |s|
    ensures DayIn(s, 0, hi) == DayToken(s[..hi])
  {
    NumberInSlice(s, 0, hi, 1, 31);
    assert s[0..hi] == s[..hi];
    assert hi == 2 ==> s[..hi][0] == s[0] && s[..hi][1] == s[1];
  }

  lemma YearInSlice(s: string, lo: nat, hi: nat)
    requires lo <= hi <= |s|
    ensures YearIn(s, lo, hi) == YearToken(s[lo..hi])
  {
    DigitsInSlice(s, lo, hi);
  }

  /** The scan reads the numbers where the groups have them. */
  lemma ReadPieces(s: string, c: Cuts)
    requires Fits(s, c)
    ensures Read(s, c) == Assemble(Pieces(s, c))
  {
    DayPiece(s, c);
    MonthPiece(s, c);
    YearPiece(s, c);
    HourPiece(s, c);
    MinutePiece(s, c);
  }

  lemma DayPiece(s: string, c: Cuts)
    requires Fits(s, c)
    ensures DayIn(s, 0, c.slash1) == DayToken(Pieces(s, c).day)
  {
    DayInSlice(s, c.slash1);
  }

  lemma MonthPiece(s: string, c: Cuts)
    requires Fits(s, c)
    ensures NumberIn(s, c.slash1 + 1, c.slash2, 1, 12) == SmallNumber(Pieces(s, c).month, 1, 12)
  {
    NumberInSlice(s, c.slash1 + 1, c.slash2, 1, 12);
  }

  lemma YearPiece(s: string, c: Cuts)
    requires Fits(s, c)
    ensures YearIn(s, c.slash2 + 1, c.slash2 + 5) == YearToken(Pieces(s, c).year)
  {
    YearInSlice(s, c.slash2 + 1, c.slash2 + 5);
  }

  lemma HourPiece(s: string, c: Cuts)
    requires Fits(s, c)
    ensures NumberIn(s, c.spaceEnd, c.colon, 0, 23) == SmallNumber(Pieces(s, c).hour, 0, 23)
  {
    NumberInSlice(s, c.spaceEnd, c.colon, 0, 23);
  }

  lemma MinutePiece(s: string, c: Cuts)
    requires Fits(s, c)
    ensures NumberIn(s, c.colon + 1, |s|, 0, 59) == SmallNumber(Pieces(s, c).minute, 0, 59)
  {
    NumberInSlice(s, c.colon + 1, |s|, 0, 59);
    assert s[c.colon + 1..|s|] == s[c.colon + 1..];
  }

  /** `strptime` reads a string through its groups: it fails when a
      separator is missing, and otherwise gives what the groups denote. */
  lemma ParseGroups(s: string)
    ensures Parse(s) == match Split(s) case None => None case Some(t) => Assemble(t)
  {
    match Scan(s)
    case None =>
    case Some(c) => ReadPieces(s, c);
  }

  // ---------------------------------------------------------------------------
  // Formatting

  function Pad2(n: nat): string
    requires n < 100
  {
    [DigitChar(n / 10), DigitChar(n % 10)]
  }

  function Pad4(n: nat): string
    requires n < 10000
  {
    Pad2(n / 100) + Pad2(n % 100)
  }

  /** The pieces `strftime('%d/%m/%Y %H:%M')` writes: every number zero-padded. */
  function FormatTokens(d: DateTime): Tokens {
    Tokens(Pad2(d.day), Pad2(d.month), Pad4(d.year), " ", Pad2(d.hour), Pad2(d.minute))
  }

  /** `d.strftime('%d/%m/%Y %H:%M')`. */
  function Format(d: DateTime): string {
    Spell(FormatTokens(d))
  }

  /** The zero-padded shape dd/mm/yyyy HH:MM. */
  predicate ZeroPadded(s: string) {
    && |s| == 16
    && s[2] == '/' && s[5] == '/' && s[10] == ' ' && s[13] == ':'
    && (forall i :: 0 <= i < 16 && i != 2 && i != 5 && i != 10 && i != 13 ==> IsDigit(s[i]))
  }

  // ---------------------------------------------------------------------------
  // Properties

  /** Where the separators of `Spell(t)` are. */
  function CutsOf(t: Tokens): Cuts {
    var i := |t.day|;
    var j := i + 1 + |t.month|;
    var w := j + 1 + |t.year| + |t.space|;
    Cuts(i, j, w, w + |t.hour|)
  }

  /** Where each group sits in the string it spells. */
  lemma SpellAt(t: Tokens)
    ensures var s := Spell(t);
      var c := CutsOf(t);
      && At(s, 0, t.day) && At(s, c.slash1, "/") && At(s, c.slash1 + 1, t.month) && At(s, c.slash2, "/")
      && At(s, c.slash2 + 1, t.year) && At(s, c.slash2 + 1 + |t.year|, t.space) && At(s, c.spaceEnd, t.hour)
      && At(s, c.colon, ":") && At(s, c.colon + 1, t.minute) && c.colon + 1 + |t.minute| == |s|
  {
    var s := Spell(t);
    var c := CutsOf(t);
    assert At(s, 0, s);
    AtAppend(s, 0, t.day, "/" + (t.month + ("/" + (t.year + (t.space + (t.hour + (":" + t.minute)))))));
    AtAppend(s, c.slash1, "/", t.month + ("/" + (t.year + (t.space + (t.hour + (":" + t.minute))))));
    AtAppend(s, c.slash1 + 1, t.month, "/" + (t.year + (t.space + (t.hour + (":" + t.minute)))));
    AtAppend(s, c.slash2, "/", t.year + (t.space + (t.hour + (":" + t.minute))));
    AtAppend(s, c.slash2 + 1, t.year, t.space + (t.hour + (":" + t.minute)));
    AtAppend(s, c.slash2 + 1 + |t.year|, t.space, t.hour + (":" + t.minute));
    AtAppend(s, c.spaceEnd, t.hour, ":" + t.minute);
    AtAppend(s, c.colon, ":", t.minute);
  }

  lemma SpellDelimits(t: Tokens)
    requires Separable(t)
    ensures Delimits(Spell(t), CutsOf(t))
  {
    var s := Spell(t);
    var c := CutsOf(t);
    SpellAt(t);
    assert t.hour != [] ==> s[c.spaceEnd] == t.hour[0];
  }

  lemma SpellPieces(t: Tokens)
    requires |t.year| == 4
    ensures Fits(Spell(t), CutsOf(t)) && Pieces(Spell(t), CutsOf(t)) == t
  {
    SpellAt(t);
    PiecesAt(Spell(t), CutsOf(t), t);
  }

  /** The slices Pieces takes are the groups found at the cut positions. */
  lemma PiecesAt(s: string, c: Cuts, t: Tokens)
    requires c.slash1 == |t.day| && c.slash2 == c.slash1 + 1 + |t.month| && |t.year| == 4
    requires c.spaceEnd == c.slash2 + 5 + |t.space| && c.colon == c.spaceEnd + |t.hour| && c.colon + 1 + |t.minute| == |s|
    requires At(s, 0, t.day) && At(s, c.slash1 + 1, t.month) && At(s, c.slash2 + 1, t.year)
    requires At(s, c.slash2 + 5, t.space) && At(s, c.spaceEnd, t.hour) && At(s, c.colon + 1, t.minute)
    ensures Fits(s, c) && Pieces(s, c) == t
  {
    assert s[..c.slash1] == t.day by { AtSlice(s, 0, t.day); assert s[..c.slash1] == s[0..c.slash1]; }
    assert s[c.slash1 + 1..c.slash2] == t.month by { AtSlice(s, c.slash1 + 1, t.month); }
    assert s[c.slash2 + 1..c.slash2 + 5] == t.year by { AtSlice(s, c.slash2 + 1, t.year); }
    assert s[c.slash2 + 5..c.spaceEnd] == t.space by { AtSlice(s, c.slash2 + 5, t.space); }
    assert s[c.spaceEnd..c.colon] == t.hour by { AtSlice(s, c.spaceEnd, t.hour); }
    assert s[c.colon + 1..] == t.minute by {
      AtSlice(s, c.colon + 1, t.minute);
      assert s[c.colon + 1..] == s[c.colon + 1..c.colon + 1 + |t.minute|];
    }
  }

  /** Lexing is exact: a string splits into given groups exactly when it is
      spelled by them and they are delimited as the regular expression
      delimits them. With the ensures of Split this is an if-and-only-if. */
  lemma SplitSpell(t: Tokens)
    requires Separable(t)
    ensures Split(Spell(t)) == Some(t)
  {
    SpellDelimits(t);
    SpellPieces(t);
    ScanExact(Spell(t), CutsOf(t));
  }

  lemma FirstIndexAt(s: string, c: char, from: nat, i: nat)
    requires from <= i < |s| && s[i] == c
    requires forall k :: from <= k < i ==> s[k] != c
    ensures FirstIndex(s, c, from) == Some(i)
  {
  }

  lemma SpaceEndAt(s: string, from: nat, n: nat)
    requires from <= n <= |s|
    requires forall i :: from <= i < n ==> IsSpace(s[i])
    requires n < |s| ==> !IsSpace(s[n])
    ensures SpaceEnd(s, from) == n
  {
  }

  /** Every value `strptime` returns is a real date; the type says so, and this
      spells out the ranges of the format's fields. */
  lemma ParseInRange(s: string)
    requires Parse(s).Some?
    ensures var d := Parse(s).value;
      && 1 <= d.year <= 9999 && 1 <= d.month <= 12 && 1 <= d.day <= 31
      && (d.month == 2 ==> d.day <= (if IsLeapYear(d.year) then 29 else 28))
      && (d.month == 4 || d.month == 6 || d.month == 9 || d.month == 11 ==> d.day <= 30)
      && 0 <= d.hour <= 23 && 0 <= d.minute <= 59
  {
  }

  lemma DigitsValue2(t: string)
    requires |t| == 2 && IsDigits(t)
    ensures DigitsValue(t) == (t[0] as int - '0' as int) * 10 + (t[1] as int - '0' as int)
  {
    assert t[..1][..0] == [];
    assert DigitsValue(t[..1]) == t[0] as int - '0' as int;
  }

  lemma DigitsValue4(t: string)
    requires |t| == 4 && IsDigits(t)
    ensures IsDigits(t[..2]) && IsDigits(t[2..])
    ensures DigitsValue(t) == DigitsValue(t[..2]) * 100 + DigitsValue(t[2..])
  {
    assert t[..3][..2] == t[..2];
    DigitsValue2(t[..2]);
    DigitsValue2(t[2..]);
    assert DigitsValue(t[..3]) == DigitsValue(t[..2]) * 10 + (t[2] as int - '0' as int);
  }

  lemma Pad2Digits(n: nat)
    requires n < 100
    ensures IsDigits(Pad2(n)) && DigitsValue(Pad2(n)) == n
  {
    DigitsValue2(Pad2(n));
  }

  lemma Pad4Digits(n: nat)
    requires n < 10000
    ensures IsDigits(Pad4(n)) && DigitsValue(Pad4(n)) == n
  {
    var t := Pad4(n);
    Pad2Digits(n / 100);
    Pad2Digits(n % 100);
    assert t[..2] == Pad2(n / 100) && t[2..] == Pad2(n % 100);
    DigitsValue4(t);
  }

  lemma Pad2OfValue(t: string)
    requires |t| == 2 && IsDigits(t)
    ensures DigitsValue(t) < 100 && Pad2(DigitsValue(t)) == t
  {
    DigitsValue2(t);
  }

  lemma Pad4OfValue(t: string)
    requires |t| == 4 && IsDigits(t)
    ensures DigitsValue(t) < 10000 && Pad4(DigitsValue(t)) == t
  {
    DigitsValue4(t);
    Pad2OfValue(t[..2]);
    Pad2OfValue(t[2..]);
    var a, b := DigitsValue(t[..2]), DigitsValue(t[2..]);
    assert (a * 100 + b) / 100 == a && (a * 100 + b) % 100 == b;
    assert t == t[..2] + t[2..];
  }

  lemma SmallNumberPad2(n: nat, lo: int, hi: int)
    requires lo <= n <= hi < 100
    ensures SmallNumber(Pad2(n), lo, hi) == Some(n)
  {
    Pad2Digits(n);
  }

  lemma AssembleFormat(d: DateTime)
    ensures Assemble(FormatTokens(d)) == Some(d)
  {
    SmallNumberPad2(d.day, 1, 31);
    SmallNumberPad2(d.month, 1, 12);
    Pad4Digits(d.year);
    SmallNumberPad2(d.hour, 0, 23);
    SmallNumberPad2(d.minute, 0, 59);
  }

  /** Round trip one way: `strptime(strftime(d))` gives `d` back, for every datetime. */
  lemma ParseFormat(d: DateTime)
    ensures Parse(Format(d)) == Some(d)
  {
    var t := FormatTokens(d);
    assert Separable(t);
    SplitSpell(t);
    AssembleFormat(d);
    ParseGroups(Format(d));
  }

  /** `strftime` always writes the zero-padded shape. */
  lemma FormatZeroPadded(d: DateTime)
    ensures ZeroPadded(Format(d))
  {
    Pad2Digits(d.day);
    Pad2Digits(d.month);
    Pad4Digits(d.year);
    Pad2Digits(d.hour);
    Pad2Digits(d.minute);
    SpellPadded(FormatTokens(d));
  }

  /** Two-digit day, month, hour and minute groups, a four-digit year and one
      space spell the zero-padded shape. */
  lemma SpellPadded(t: Tokens)
    requires |t.day| == 2 && |t.month| == 2 && |t.year| == 4 && t.space == " " && |t.hour| == 2 && |t.minute| == 2
    requires IsDigits(t.day) && IsDigits(t.month) && IsDigits(t.year) && IsDigits(t.hour) && IsDigits(t.minute)
    ensures ZeroPadded(Spell(t))
  {
    var s := Spell(t);
    SpellAt(t);
    assert s[10 + 0] == t.space[0];
    forall i | 0 <= i < 16 && i != 2 && i != 5 && i != 10 && i != 13
      ensures IsDigit(s[i])
    {
      if i < 2 { assert s[0 + i] == t.day[i]; }
      else if i < 5 { assert s[3 + (i - 3)] == t.month[i - 3]; }
      else if i < 10 { assert s[6 + (i - 6)] == t.year[i - 6]; }
      else if i < 13 { assert s[11 + (i - 11)] == t.hour[i - 11]; }
      else { assert s[14 + (i - 14)] == t.minute[i - 14]; }
    }
  }

  /** The pieces of a zero-padded string. */
  function PaddedTokens(s: string): Tokens
    requires ZeroPadded(s)
  {
    Tokens(s[..2], s[3..5], s[6..10], s[10..11], s[11..13], s[14..])
  }

  lemma SplitZeroPadded(s: string)
    requires ZeroPadded(s)
    ensures Split(s) == Some(PaddedTokens(s))
  {
    var t := PaddedTokens(s);
    assert forall i :: 0 <= i < 2 ==> t.day[i] == s[i];
    assert forall i :: 0 <= i < 2 ==> t.month[i] == s[i + 3];
    assert forall i :: 0 <= i < 2 ==> t.hour[i] == s[i + 11];
    assert Separable(t);
    assert s == Spell(t);
    SplitSpell(t);
  }

  /** Round trip the other way: a zero-padded string that `strptime` accepts is
      written back unchanged by `strftime`. */
  lemma FormatParse(s: string)
    requires ZeroPadded(s) && Parse(s).Some?
    ensures Format(Parse(s).value) == s
  {
    ParseGroups(s);
    SplitZeroPadded(s);
    PaddedTokensDigits(s);
    var t := PaddedTokens(s);
    var d := Parse(s).value;
    PaddedNumber(t.day, 1, 31);
    PaddedNumber(t.month, 1, 12);
    Pad4OfValue(t.year);
    PaddedNumber(t.hour, 0, 23);
    PaddedNumber(t.minute, 0, 59);
    assert FormatTokens(d) == t;
  }

  lemma PaddedTokensDigits(s: string)
    requires ZeroPadded(s)
    ensures var t := PaddedTokens(s);
      IsDigits(t.day) && IsDigits(t.month) && IsDigits(t.year) && IsDigits(t.hour) && IsDigits(t.minute)
      && t.space == " "
  {
    var t := PaddedTokens(s);
    assert forall i :: 0 <= i < 2 ==> t.day[i] == s[i] && t.month[i] == s[i + 3];
    assert forall i :: 0 <= i < 4 ==> t.year[i] == s[i + 6];
    assert forall i :: 0 <= i < 2 ==> t.hour[i] == s[i + 11] && t.minute[i] == s[i + 14];
  }

  /** A two-digit group that the format accepts is its own zero-padded spelling. */
  lemma PaddedNumber(t: string, lo: int, hi: int)
    requires |t| == 2 && IsDigits(t) && 0 <= lo && hi < 100
    ensures SmallNumber(t, lo, hi).Some? ==> Pad2(SmallNumber(t, lo, hi).value) == t
    ensures DayToken(t) == SmallNumber(t, 1, 31)
  {
    Pad2OfValue(t);
  }

  /** Canonical form: formatting whatever `strptime` accepted gives the
      zero-padded string, which parses back to the same value. */
  lemma CanonicalForm(s: string)
    requires Parse(s).Some?
    ensures ZeroPadded(Format(Parse(s).value))
    ensures Parse(Format(Parse(s).value)) == Parse(s)
  {
    FormatZeroPadded(Parse(s).value);
    ParseFormat(Parse(s).value);
  }

  // ---------------------------------------------------------------------------
  // Examples

  /** The documented form is read as day, month, year, hour and minute. */
  lemma ParseExample()
    ensures Parse("01/01/2025 10:00") == Some(Stamp(2025, 1, 1, 10, 0))
  {
    var d: DateTime := Stamp(2025, 1, 1, 10, 0);
    assert Format(d) == "01/01/2025 10:00";
    ParseFormat(d);
  }

  /** Single-digit fields and a run of spaces are accepted too. */
  lemma LenientExample()
    ensures Parse("1/2/2025  9:05") == Some(Stamp(2025, 2, 1, 9, 5))
  {
    SplitExample(Tokens("1", "2", "2025", "  ", "9", "05"), "1/2/2025  9:05");
    LenientTokens();
  }

  lemma LenientTokens()
    ensures Assemble(Tokens("1", "2", "2025", "  ", "9", "05")) == Some(Stamp(2025, 2, 1, 9, 5))
  {
    Pad4Digits(2025);
    Pad2Digits(5);
    assert Pad4(2025) == "2025" && Pad2(5) == "05";
  }

  /** The calendar decides: 29 February exists in 2024 and not in 2023, and
      no month has a 32nd day. */
  lemma LeapDayExample()
    ensures Parse("29/02/2024 10:00") == Some(Stamp(2024, 2, 29, 10, 0))
  {
    var d: DateTime := Stamp(2024, 2, 29, 10, 0);
    assert Format(d) == "29/02/2024 10:00";
    ParseFormat(d);
  }

  lemma NoLeapDayExample()
    ensures Parse("29/02/2023 10:00") == None
  {
    SplitExample(Tokens("29", "02", "2023", " ", "10", "00"), "29/02/2023 10:00");
    NoLeapDayTokens();
  }

  lemma NoLeapDayTokens()
    ensures Assemble(Tokens("29", "02", "2023", " ", "10", "00")) == None
  {
    Pad2Digits(29);
    Pad2Digits(2);
    Pad4Digits(2023);
    assert Pad2(29) == "29" && Pad2(2) == "02" && Pad4(2023) == "2023";
  }

  lemma DayOutOfRangeExample()
    ensures Parse("32/01/2025 10:00") == None
  {
    SplitExample(Tokens("32", "01", "2025", " ", "10", "00"), "32/01/2025 10:00");
    DayOutOfRangeTokens();
  }

  lemma DayOutOfRangeTokens()
    ensures Assemble(Tokens("32", "01", "2025", " ", "10", "00")) == None
  {
    Pad2Digits(32);
    assert Pad2(32) == "32";
  }

  /** A string cut into pieces that delimit themselves is read from those pieces. */
  lemma SplitExample(t: Tokens, s: string)
    requires Separable(t) && Spell(t) == s
    ensures Parse(s) == Assemble(t)
  {
    SplitSpell(t);
    ParseGroups(s);
  }

  /** The year has exactly four digits: after a two-digit year the four
      year characters run into the time, and nothing is left to match the
      whitespace. */
  lemma YearExample()
    ensures Parse("01/01/25 10:00") == None
  {
    SplitExample(Tokens("01", "01", "25 1", "", "0", "00"), "01/01/25 10:00");
  }
}
