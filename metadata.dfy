/**
 * The one-line metadata record of a card, `"<level>,<epochMs>"`: written by
 * `CardIO.updateData` (and, for a new card, as `"0,<id>"`), read back by
 * `CardIO.parseData` with `readLine()`, `split(",")`, `toInt()` and `toLong()`.
 */
module Metadata {
  import opened Wrappers
  import opened Numbers
  import opened Decimal

  /** What `parseData` yields: the level and the last-answered time in epoch milliseconds. */
  datatype Meta = Meta(level: Int32, date: Long)

  /** Each way `parseData` throws. */
  datatype ParseError =
    | NoLine        // readLine() returned null: the file is empty
    | TooFewFields  // arr[1] is out of bounds: the line has no comma
    | BadLevel      // arr[0].toInt() failed
    | BadDate       // arr[1].toLong() failed

  /** The fields joined back with the separator. */
  function Join(fields: seq<string>, sep: char): string
    requires |fields| >= 1
    decreases |fields|
  {
    if |fields| == 1 then fields[0] else fields[0] + [sep] + Join(fields[1..], sep)
  }

  /**
   * Kotlin's `split(",")` without a limit: every separator cuts, empty fields
   * (also trailing ones) are kept.
   */
  function Split(s: string, sep: char): (fields: seq<string>)
    ensures |fields| >= 1
    ensures Join(fields, sep) == s
    ensures forall i :: 0 <= i < |fields| ==> sep !in fields[i]
    decreases |s|
  {
    if s == [] then [""]
    else
      var tail := Split(s[1..], sep);
      if s[0] == sep then [""] + tail
      else
        assert Join(tail, sep) == s[1..];
        var r := [[s[0]] + tail[0]] + tail[1..];
        assert r[1..] == tail[1..];
        r
  }

  /** Splitting a text made of a separator-free field, the separator and a rest. */
  lemma {:induction false} SplitAtFirst(a: string, b: string, sep: char)
    requires sep !in a
    ensures Split(a + [sep] + b, sep) == [a] + Split(b, sep)
    decreases |a|
  {
    if a == [] {
      assert a + [sep] + b == [sep] + b;
    } else {
      var s := a + [sep] + b;
      assert s[0] == a[0] && s[1..] == a[1..] + [sep] + b;
      SplitAtFirst(a[1..], b, sep);
      var tail := Split(s[1..], sep);
      assert tail == [a[1..]] + Split(b, sep);
      assert Split(s, sep) == [[a[0]] + tail[0]] + tail[1..];
      assert [a[0]] + a[1..] == a;
      assert tail[1..] == Split(b, sep);
    }
  }

  lemma {:induction false} SplitNoSeparator(a: string, sep: char)
    requires sep !in a
    ensures Split(a, sep) == [a]
    decreases |a|
  {
    if a != [] {
      SplitNoSeparator(a[1..], sep);
      assert [a[0]] + a[1..] == a;
    }
  }

  /** The characters before the first line terminator (`\n` or `\r`). */
  function TakeLine(s: string): (line: string)
    ensures |line| <= |s| && line == s[..|line|]
    ensures '\n' !in line && '\r' !in line
    ensures |line| < |s| ==> s[|line|] == '\n' || s[|line|] == '\r'
    decreases |s|
  {
    if s == [] || s[0] == '\n' || s[0] == '\r' then [] else [s[0]] + TakeLine(s[1..])
  }

  /** `BufferedReader.readLine()` on a whole file: null (None) at end of stream. */
  function ReadLine(content: string): (r: Option<string>)
    ensures r.None? <==> content == []
    ensures r.Some? ==> r.value == TakeLine(content)
  {
    if content == [] then None else Some(TakeLine(content))
  }

  /** The line `updateData` writes: `"$level,$date"`. */
  function Serialize(level: int, date: int): (line: string)
    ensures ',' in line && '\n' !in line && '\r' !in line
  {
    var l := IntToDecimal(level);
    var d := IntToDecimal(date);
    assert (l + "," + d)[|l|] == ',';
    l + "," + d
  }

  /**
   * The first line of the file, split on commas; a third field and beyond are
   * ignored. `Pair(arr[0].toInt(), Date(arr[1].toLong()))` evaluates
   * `arr[0].toInt()` before it indexes `arr[1]`, so a line whose first field
   * is not a number fails on the level even when it has no comma.
   */
  function ParseLine(line: string): (r: Result<Meta, ParseError>)
    ensures r.Ok? ==> |Split(line, ',')| >= 2
    ensures r.Ok? ==> ParseInteger(Split(line, ',')[0], INT_MIN, INT_MAX) == Some(r.value.level)
    ensures r.Ok? ==> ParseInteger(Split(line, ',')[1], LONG_MIN, LONG_MAX) == Some(r.value.date)
    ensures ',' !in line ==> r.Err?
  {
    var fields := Split(line, ',');
    match ParseInteger(fields[0], INT_MIN, INT_MAX)
    case None => Err(BadLevel)
    case Some(level) =>
      if |fields| < 2 then
        Err(TooFewFields)
      else
        assert ',' in line by {
          if ',' !in line {
            SplitNoSeparator(line, ',');
          }
        }
        match ParseInteger(fields[1], LONG_MIN, LONG_MAX)
        case None => Err(BadDate)
        case Some(date) => Ok(Meta(level, date))
  }

  /** `parseData`: read the first line of the file's text and parse it; the rest of the file is never read. */
  function ParseData(content: string): (r: Result<Meta, ParseError>)
    ensures content == [] ==> r == Err(NoLine)
    ensures content != [] ==> r == ParseLine(TakeLine(content))
  {
    match ReadLine(content)
    case None => Err(NoLine)
    case Some(line) => ParseLine(line)
  }

  /**
   * Which exception `parseData` throws on a line: the level is read first, so
   * `BadLevel` exactly when the first field is not an `Int`, and
   * `TooFewFields` exactly when the line is a lone `Int` without a comma.
   */
  lemma ParseLineErrorKinds(line: string)
    ensures ParseLine(line) == Err(BadLevel) <==> ParseInteger(Split(line, ',')[0], INT_MIN, INT_MAX).None?
    ensures ParseLine(line) == Err(TooFewFields) <==> ParseInteger(line, INT_MIN, INT_MAX).Some? && ',' !in line
    ensures ParseLine(line) == Err(BadDate) <==>
      && |Split(line, ',')| >= 2
      && ParseInteger(Split(line, ',')[0], INT_MIN, INT_MAX).Some?
      && ParseInteger(Split(line, ',')[1], LONG_MIN, LONG_MAX).None?
    ensures ParseLine(line).Ok? <==>
      && |Split(line, ',')| >= 2
      && ParseInteger(Split(line, ',')[0], INT_MIN, INT_MAX).Some?
      && ParseInteger(Split(line, ',')[1], LONG_MIN, LONG_MAX).Some?
  {
    if ',' !in line {
      SplitNoSeparator(line, ',');
    }
  }

  /** The texts "5" and "100" read as 5 and 100. */
  lemma SmallNumbersParse()
    ensures ParseInteger("5", INT_MIN, INT_MAX) == Some(5)
    ensures ParseInteger("100", LONG_MIN, LONG_MAX) == Some(100)
  {
    assert "5"[0..] == "5" && "5"[..0] == "";
    var h := "100";
    assert SignLength(h) == 0 && h[0..] == h && AllDigits(h);
    assert h[..2] == "10" && "10"[..1] == "1" && "1"[..0] == "";
    assert DigitsValue("1") == 1 && DigitsValue("10") == 10 && DigitsValue(h) == 100;
  }

  /** Fields after the second are never looked at: "5,100,x" is level 5, date 100. */
  lemma ExtraFieldsIgnored()
    ensures ParseLine("5,100,x") == Ok(Meta(5, 100))
  {
    SplitNoSeparator("x", ',');
    SplitAtFirst("100", "x", ',');
    assert "100" + [','] + "x" == "100,x";
    SplitAtFirst("5", "100,x", ',');
    assert "5" + [','] + "100,x" == "5,100,x";
    SmallNumbersParse();
  }

  /** A `+` sign on the level is accepted, as `toInt` accepts it: "+5,100" is level 5, date 100. */
  lemma PlusSignAccepted()
    ensures ParseLine("+5,100") == Ok(Meta(5, 100))
  {
    SplitNoSeparator("100", ',');
    SplitAtFirst("+5", "100", ',');
    assert "+5" + [','] + "100" == "+5,100";
    ParseIntegerLenient(INT_MIN, INT_MAX);
    SmallNumbersParse();
  }

  /** The level is read before the second field is looked up: a comma-free line fails on the level unless it is a number. */
  lemma LevelReadFirst()
    ensures ParseLine("x") == Err(BadLevel)
    ensures ParseLine("") == Err(BadLevel)
    ensures ParseLine("5") == Err(TooFewFields)
  {
    ParseLineErrorKinds("x");
    ParseLineErrorKinds("");
    ParseLineErrorKinds("5");
    SplitNoSeparator("x", ',');
    SplitNoSeparator("", ',');
    assert !IsDigit('x') && "x"[0] == 'x';
    ParseIntegerRejects("x", INT_MIN, INT_MAX, 0);
  }

  lemma SplitSerialized(level: int, date: int)
    ensures Split(Serialize(level, date), ',') == [IntToDecimal(level), IntToDecimal(date)]
  {
    var l, d := IntToDecimal(level), IntToDecimal(date);
    assert ',' !in l && ',' !in d by {
      assert forall i :: 0 <= i < |l| ==> l[i] != ',';
      assert forall i :: 0 <= i < |d| ==> d[i] != ',';
    }
    SplitAtFirst(l, d, ',');
    SplitNoSeparator(d, ',');
  }

  /** Reading back a record that `updateData` wrote gives the level and time that were written. */
  lemma RoundTrip(level: Int32, date: Long)
    ensures ParseData(Serialize(level, date)) == Ok(Meta(level, date))
  {
    var line := Serialize(level, date);
    assert TakeLine(line) == line;
    SplitSerialized(level, date);
    ParseIntegerRoundTrip(level, INT_MIN, INT_MAX);
    ParseIntegerRoundTrip(date, LONG_MIN, LONG_MAX);
  }

  /** A level outside the `Int` range is a parse failure, not a wrapped value. */
  lemma LevelOutOfRangeRejected(date: Long)
    ensures ParseData(Serialize(INT_MAX + 1, date)) == Err(BadLevel)
  {
    var line := Serialize(INT_MAX + 1, date);
    assert TakeLine(line) == line;
    SplitSerialized(INT_MAX + 1, date);
    ParseIntegerOutOfRange(INT_MAX + 1, INT_MIN, INT_MAX);
  }
}
