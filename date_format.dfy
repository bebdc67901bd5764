/**
 * The date-string helpers of `src/utils/dateFormat.js`.
 *
 * `ParseDate` turns what a user typed (`dd/mm/yyyy`, `d/m/yy`, or an
 * already-ISO `yyyy-mm-dd`) into the `yyyy-mm-dd` string the rows store;
 * `ToInputDate` turns a stored date into the value of an
 * `<input type="date">`. Both are pure string functions.
 */
module DateFormat {
  import opened Text
  import opened Options

  const Slash: set<char> := {'/'}
  const DateSeparators: set<char> := {'/', '-'}

  /** A two-digit year is read as 20yy; every year is zero-padded to four digits. */
  function ExpandYear(y: string): (r: string)
    ensures |r| >= 4
  {
    PadStart(if |y| == 2 then "20" + y else y, 4, '0')
  }

  /** Day, month and year parts laid out as `yyyy-mm-dd`. */
  function DmyToIso(d: string, m: string, y: string): string
  {
    ExpandYear(y) + "-" + PadStart(m, 2, '0') + "-" + PadStart(d, 2, '0')
  }

  /**
   * `parseDate`: the empty string stays empty, a string without `/` is
   * returned as it is, and a string with `/` is read as `d/m/y` (parts after
   * the third are ignored). `None` stands for the TypeError the source
   * raises when a string holds a single `/` (its year part is undefined).
   */
  function ParseDate(value: string): (r: Option<string>)
    ensures '/' !in value ==> r == Some(value)
    ensures r.None? ==> '/' in value && |Split(value, Slash)| < 3
  {
    if value == "" then Some("")
    else if '/' in value then
      var parts := Split(value, Slash);
      if |parts| < 3 then None
      else Some(DmyToIso(parts[0], parts[1], parts[2]))
    else Some(value)
  }

  /**
   * `toInputDate`: split on `/` or `-`; anything but three parts gives "";
   * a four-character first part is taken as a year (`yyyy-m-d`), otherwise
   * the parts are day, month and year.
   */
  function ToInputDate(s: string): (r: string)
    ensures |Split(s, DateSeparators)| != 3 ==> r == ""
    ensures s == "" ==> r == ""
  {
    if s == "" then ""
    else
      var parts := Split(s, DateSeparators);
      if |parts| != 3 then ""
      else if |parts[0]| == 4 then parts[0] + "-" + PadStart(parts[1], 2, '0') + "-" + PadStart(parts[2], 2, '0')
      else DmyToIso(parts[0], parts[1], parts[2])
  }

  lemma AvoidsChar(s: string, c: char)
    ensures Avoids(s, {c}) <==> c !in s
  {
    if c in s {
      var k :| 0 <= k < |s| && s[k] == c;
    }
  }

  lemma {:induction false} SplitThree(d: string, m: string, y: string, seps: set<char>, c1: char, c2: char)
    requires Avoids(d, seps) && Avoids(m, seps) && Avoids(y, seps) && c1 in seps && c2 in seps
    ensures Split(d + [c1] + m + [c2] + y, seps) == [d, m, y]
  {
    assert d + [c1] + m + [c2] + y == d + [c1] + (m + [c2] + y);
    SplitAtFirst(d, c1, m + [c2] + y, seps);
    SplitAtFirst(m, c2, y, seps);
    SplitAvoiding(y, seps);
  }

  /** `d/m/y` with slash-free parts parses to `yyyy-mm-dd`. */
  lemma {:induction false} ParseDayMonthYear(d: string, m: string, y: string)
    requires Avoids(d, Slash) && Avoids(m, Slash) && Avoids(y, Slash)
    ensures ParseDate(d + "/" + m + "/" + y) == Some(DmyToIso(d, m, y))
  {
    var v := d + "/" + m + "/" + y;
    SplitThree(d, m, y, Slash, '/', '/');
    assert v[|d|] == '/';
  }

  /** Parts after the third are ignored: `d/m/y/extra` parses like `d/m/y`. */
  lemma {:induction false} ParseIgnoresExtraParts(d: string, m: string, y: string, extra: string)
    requires Avoids(d, Slash) && Avoids(m, Slash) && Avoids(y, Slash)
    ensures ParseDate(d + "/" + m + "/" + y + "/" + extra) == Some(DmyToIso(d, m, y))
  {
    var t3 := y + ['/'] + extra;
    var t2 := m + ['/'] + t3;
    var v := d + ['/'] + t2;
    SplitAtFirst(y, '/', extra, Slash);
    SplitAtFirst(m, '/', t3, Slash);
    SplitAtFirst(d, '/', t2, Slash);
    assert Split(v, Slash)[..3] == [d, m, y];
    assert v[|d|] == '/';
    assert d + "/" + m + "/" + y + "/" + extra == v;
  }

  /** A string with exactly one `/` makes the source throw. */
  lemma {:induction false} ParseSingleSlashThrows(a: string, b: string)
    requires Avoids(a, Slash) && Avoids(b, Slash)
    ensures ParseDate(a + "/" + b) == None
  {
    var v := a + "/" + b;
    SplitAtFirst(a, '/', b, Slash);
    SplitAvoiding(b, Slash);
    assert v[|a|] == '/';
  }

  lemma ExpandYearAvoids(y: string, seps: set<char>)
    requires Avoids(y, seps) && '0' !in seps && '2' !in seps
    ensures Avoids(ExpandYear(y), seps)
  {
    if |y| == 2 {
      AvoidsConcat("20", y, seps);
      PadStartAvoids("20" + y, 4, '0', seps);
    } else {
      PadStartAvoids(y, 4, '0', seps);
    }
  }

  lemma DmyToIsoAvoids(d: string, m: string, y: string, seps: set<char>)
    requires Avoids(d, seps) && Avoids(m, seps) && Avoids(y, seps)
    requires '0' !in seps && '2' !in seps && '-' !in seps
    ensures Avoids(DmyToIso(d, m, y), seps)
  {
    var e, mm, dd := ExpandYear(y), PadStart(m, 2, '0'), PadStart(d, 2, '0');
    ExpandYearAvoids(y, seps);
    PadStartAvoids(m, 2, '0', seps);
    PadStartAvoids(d, 2, '0', seps);
    AvoidsConcat(e, "-", seps);
    AvoidsConcat(e + "-", mm, seps);
    AvoidsConcat(e + "-" + mm, "-", seps);
    AvoidsConcat(e + "-" + mm + "-", dd, seps);
  }

  /** What `ParseDate` returns never holds a `/`. */
  lemma {:induction false} ParsedHasNoSlash(value: string)
    requires ParseDate(value).Some?
    ensures '/' !in ParseDate(value).value
  {
    if '/' in value {
      var parts := Split(value, Slash);
      SplitPartsAvoid(value, Slash);
      DmyToIsoAvoids(parts[0], parts[1], parts[2], Slash);
      AvoidsChar(ParseDate(value).value, '/');
    }
  }

  /** Parsing is idempotent: a parsed date parses to itself. */
  lemma {:induction false} ParseDateIdempotent(value: string)
    requires ParseDate(value).Some?
    ensures ParseDate(ParseDate(value).value) == ParseDate(value)
  {
    ParsedHasNoSlash(value);
  }

  /**
   * On `d/m/y` strings without `-` whose first part is not four characters
   * long, `ParseDate` and `ToInputDate` agree.
   */
  lemma {:induction false} ParseAgreesWithToInputDate(s: string)
    requires '-' !in s
    requires |Split(s, Slash)| == 3 && |Split(s, Slash)[0]| != 4
    ensures ParseDate(s) == Some(ToInputDate(s))
  {
    forall k | 0 <= k < |s|
      ensures s[k] in Slash <==> s[k] in DateSeparators
    {
      assert s[k] != '-';
    }
    SplitSameSeparators(s, Slash, DateSeparators);
    if '/' !in s {
      AvoidsChar(s, '/');
      SplitAvoiding(s, Slash);
      assert false;
    }
  }

  /**
   * A year-first slash date `yyyy/m/d` is read day-first by `ParseDate`
   * (the year becomes the day and the day the year), while `ToInputDate`
   * reads it year-first.
   */
  lemma {:induction false} YearFirstSlashDate(y: string, m: string, d: string)
    requires |y| == 4
    requires Avoids(y, DateSeparators) && Avoids(m, DateSeparators) && Avoids(d, DateSeparators)
    ensures ParseDate(y + "/" + m + "/" + d) == Some(DmyToIso(y, m, d))
    ensures ToInputDate(y + "/" + m + "/" + d) == y + "-" + PadStart(m, 2, '0') + "-" + PadStart(d, 2, '0')
  {
    SplitThree(y, m, d, DateSeparators, '/', '/');
    SplitThree(y, m, d, Slash, '/', '/');
    assert (y + "/" + m + "/" + d)[|y|] == '/';
  }

  /** An ISO `yyyy-m-d` date is laid out by `ToInputDate` with a two-digit month and day. */
  lemma {:induction false} ToInputDateOfIso(y: string, m: string, d: string)
    requires |y| == 4
    requires Avoids(y, DateSeparators) && Avoids(m, DateSeparators) && Avoids(d, DateSeparators)
    ensures ToInputDate(y + "-" + m + "-" + d) == y + "-" + PadStart(m, 2, '0') + "-" + PadStart(d, 2, '0')
  {
    SplitThree(y, m, d, DateSeparators, '-', '-');
  }

  /**
   * A value whose first part is not four characters long is read day first,
   * whichever of `/` and `-` separates its parts: `1-2-2024` becomes
   * `2024-02-01`.
   */
  lemma {:induction false} ToInputDateOfDayFirst(d: string, m: string, y: string, c1: char, c2: char)
    requires |d| != 4 && c1 in DateSeparators && c2 in DateSeparators
    requires Avoids(d, DateSeparators) && Avoids(m, DateSeparators) && Avoids(y, DateSeparators)
    ensures ToInputDate(d + [c1] + m + [c2] + y) == DmyToIso(d, m, y)
  {
    SplitThree(d, m, y, DateSeparators, c1, c2);
    assert (d + [c1] + m + [c2] + y)[|d|] == c1;
  }

  /** A laid-out `yyyy-mm-dd` date is a fixed point of `ToInputDate`. */
  lemma {:induction false} ToInputDateKeepsIso(y: string, mm: string, dd: string)
    requires |y| == 4 && |mm| >= 2 && |dd| >= 2
    requires Avoids(y, DateSeparators) && Avoids(mm, DateSeparators) && Avoids(dd, DateSeparators)
    ensures ToInputDate(y + "-" + mm + "-" + dd) == y + "-" + mm + "-" + dd
  {
    ToInputDateOfIso(y, mm, dd);
  }

  /**
   * Round trip: a date `ParseDate` produced from `d/m/y` is a fixed point of
   * `ToInputDate` whenever its year is four characters long.
   */
  lemma {:induction false} ToInputDateOfParsed(d: string, m: string, y: string)
    requires Avoids(d, DateSeparators) && Avoids(m, DateSeparators) && Avoids(y, DateSeparators)
    requires |ExpandYear(y)| == 4
    ensures ToInputDate(DmyToIso(d, m, y)) == DmyToIso(d, m, y)
  {
    ExpandYearAvoids(y, DateSeparators);
    PadStartAvoids(m, 2, '0', DateSeparators);
    PadStartAvoids(d, 2, '0', DateSeparators);
    ToInputDateKeepsIso(ExpandYear(y), PadStart(m, 2, '0'), PadStart(d, 2, '0'));
  }
}
