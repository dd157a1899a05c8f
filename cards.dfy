/**
 * `CardDataSource`: one card as the scheduler sees it, the level-to-interval
 * table and the due predicate `isFire`. The clock is a parameter `now`
 * (epoch milliseconds).
 */
module Cards {
  import opened Wrappers
  import opened Numbers
  import opened Metadata

  /**
   * A `DocumentFile` handle, opaque to the scheduler: its identity, its name
   * and whether it is a directory.
   */
  datatype DocFile = DocFile(uri: string, name: string, isDirectory: bool)

  /**
   * The storage collaborator: the entries `listFiles()` returns for a
   * directory and the text of a file.
   */
  datatype Storage = Storage(children: DocFile -> seq<DocFile>, read: DocFile -> string)

  /** `CardDataSource`: id, the question, answer and metadata files, last-answered time and level. */
  datatype Card = Card(id: string, question: DocFile, answer: DocFile, data: DocFile, date: Long, level: Int32)

  const MINUTES_PER_DAY: int := 60 * 24
  const MS_PER_MINUTE: int := 1000 * 60

  /** `levelToIntervalMin`: minutes that must pass after an answer before the card is due again. */
  function IntervalMin(level: int): (m: nat)
    ensures m == 0 <==> level == 0 || level == 1
    ensures m <= 20 * MINUTES_PER_DAY
    ensures level != 2 ==> m % MINUTES_PER_DAY == 0
  {
    match level
    case 0 => 0
    case 1 => 0
    case 2 => 10
    case 3 => MINUTES_PER_DAY
    case 4 => MINUTES_PER_DAY * 2
    case 5 => MINUTES_PER_DAY * 5
    case 6 => MINUTES_PER_DAY * 9
    case 7 => MINUTES_PER_DAY * 14
    case _ => MINUTES_PER_DAY * 20
  }

  /** `isFire`: is the card due at `now`? */
  function IsFire(card: Card, now: Long): (fire: bool)
    ensures card.level == 0 || card.level == 1 ==> fire
    ensures card.level != 0 && card.level != 1 ==>
      (fire <==> WrapLong(now - card.date) >= (IntervalMin(card.level) + 1) * MS_PER_MINUTE)
  {
    if card.level == 0 || card.level == 1 then true
    else
      var diffMs := WrapLong(now - card.date);
      if diffMs < 0 then false
      else
        DivisionThreshold(diffMs, IntervalMin(card.level));
        diffMs / MS_PER_MINUTE > IntervalMin(card.level)
  }

  /** `copyWithLevel`: the same card with a new level, stamped with the current time. */
  function CopyWithLevel(card: Card, level: Int32, now: Long): (r: Card)
    ensures r.level == level && r.date == now
    ensures r.id == card.id && r.question == card.question && r.answer == card.answer && r.data == card.data
  {
    card.(level := level, date := now)
  }

  /**
   * `updateData`: the line written to the card's metadata file. It records
   * the card's level with the time of writing, `writtenAt`, read from the
   * clock afresh (not the card's own `date`); reading it back gives both.
   */
  function UpdateData(card: Card, writtenAt: Long): (line: string)
    ensures ParseData(line) == Ok(Meta(card.level, writtenAt))
  {
    RoundTrip(card.level, writtenAt);
    Serialize(card.level, writtenAt)
  }

  /** The table, level by level; every other level, negative ones included, waits 20 days. */
  lemma IntervalTable(level: int)
    ensures [IntervalMin(0), IntervalMin(1), IntervalMin(2), IntervalMin(3), IntervalMin(4),
             IntervalMin(5), IntervalMin(6), IntervalMin(7)]
            == [0, 0, 10, 1440, 2880, 7200, 12960, 20160]
    ensures (level < 0 || level > 7) ==> IntervalMin(level) == 28800
  {
  }

  /** Over levels 0 and up the interval never shrinks as the level grows. */
  lemma IntervalMonotone(a: int, b: int)
    requires 0 <= a <= b
    ensures IntervalMin(a) <= IntervalMin(b)
  {
  }

  /** Levels 0 and 1 are due whatever the dates. */
  lemma NewAndRetriedAlwaysDue(card: Card, now: Long)
    requires card.level == 0 || card.level == 1
    ensures IsFire(card, now)
  {
  }

  lemma DivisionThreshold(d: int, k: nat)
    requires d >= 0
    ensures d / MS_PER_MINUTE > k <==> d >= (k + 1) * MS_PER_MINUTE
  {
    var q := d / MS_PER_MINUTE;
    assert d == q * MS_PER_MINUTE + d % MS_PER_MINUTE;
    if q > k {
      assert q >= k + 1;
      assert q * MS_PER_MINUTE >= (k + 1) * MS_PER_MINUTE;
    } else {
      assert q * MS_PER_MINUTE <= k * MS_PER_MINUTE;
    }
  }

  /**
   * Above level 1, and when `now - date` does not overflow a Long, a card is
   * due exactly when more than its interval's whole minutes have passed: at
   * least (interval + 1) minutes, in milliseconds. A future date is never due.
   */
  lemma DueThreshold(card: Card, now: Long)
    requires card.level != 0 && card.level != 1
    requires LONG_MIN <= now - card.date <= LONG_MAX
    ensures IsFire(card, now) <==> now - card.date >= (IntervalMin(card.level) + 1) * MS_PER_MINUTE
    ensures now < card.date ==> !IsFire(card, now)
  {
    if now - card.date >= 0 {
      DivisionThreshold(now - card.date, IntervalMin(card.level));
    }
  }

  /** Once due, a card stays due as the clock advances (while `now - date` fits in a Long). */
  lemma DueMonotone(card: Card, now1: Long, now2: Long)
    requires now1 <= now2
    requires LONG_MIN <= now1 - card.date && now2 - card.date <= LONG_MAX
    ensures IsFire(card, now1) ==> IsFire(card, now2)
  {
    if card.level != 0 && card.level != 1 {
      DueThreshold(card, now1);
      DueThreshold(card, now2);
    }
  }

  /**
   * A new card (level 0, created at `created`) answered "normal" at `answered`
   * gets level 2 and is due again exactly from 11 whole minutes after the answer.
   */
  lemma NewCardAnsweredNormal(card: Card, answered: Long, now: Long)
    requires card.level == 0
    requires 0 <= answered <= now
    ensures var next := CopyWithLevel(card, 2, answered);
      IsFire(next, now) <==> now - answered >= 11 * MS_PER_MINUTE
  {
    DueThreshold(CopyWithLevel(card, 2, answered), now);
  }

  /** The `Long` subtraction in `isFire` wraps: a date far in the past can look like the future. */
  lemma ElapsedWrapsAround(card: Card)
    requires card.level == 2 && card.date == LONG_MIN
    ensures !IsFire(card, 1)
  {
  }
}
