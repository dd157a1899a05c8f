/**
 * `QAActivity`: the review session. After the answer is shown the user picks
 * one of the offered choices; the card is re-leveled, its metadata rewritten
 * and it goes back to `rest`; then the next card is popped, refilling
 * `target` with a fresh `setup` when it has run out, until a fresh `setup`
 * finds nothing due. Clock reads and shuffle draws are parameters.
 */
module Review {
  import opened Wrappers
  import opened Numbers
  import opened Decimal
  import opened Metadata
  import opened Leveling
  import opened Cards
  import opened DeckIndex
  import opened Queue

  datatype Outcome = Retry | Hard | Normal

  /**
   * One button of `Content`: the outcome, the level it sets, and the interval
   * text shown above its name (empty for retry, which shows none).
   */
  datatype Choice = Choice(outcome: Outcome, nextLevel: Int32, interval: string)

  /**
   * The buttons `Content` offers for a card at `level`. `daysLabel` is the
   * text of the `label_days` string resource.
   */
  function Choices(level: Int32, daysLabel: string): (cs: seq<Choice>)
    ensures 0 <= level <= 2 ==> |cs| == 2 && cs[0].outcome == Retry && cs[1].outcome == Normal
    ensures !(0 <= level <= 2) ==> |cs| == 3 && cs[0].outcome == Retry && cs[1].outcome == Hard && cs[2].outcome == Normal
    ensures forall i :: 0 <= i < |cs| && cs[i].outcome == Normal ==> cs[i].nextLevel == NextLevelNormal(level)
    ensures forall i :: 0 <= i < |cs| && cs[i].outcome == Hard ==> cs[i].nextLevel == NextLevelHard(level)
    ensures cs[0].nextLevel == 0 || cs[0].nextLevel == 1
    ensures 0 <= level <= 2 ==> cs[0].nextLevel == (if level == 2 then 0 else level)
    ensures !(0 <= level <= 2) ==> cs[0].nextLevel == NextLevelRetry(level)
  {
    if level == 0 || level == 1 || level == 2 then
      var normalLevel := NextLevelNormal(level);
      var normalIntervalMin := IntervalMin(normalLevel);
      var nextLabel := if level == 0 then IntToDecimal(normalIntervalMin) + " min" else "1 day";
      var retryLevel := if level == 2 then 0 else level;
      [Choice(Retry, retryLevel, ""), Choice(Normal, normalLevel, nextLabel)]
    else
      var retryLevel := NextLevelRetry(level);
      var hardLevel := NextLevelHard(level);
      var normalLevel := NextLevelNormal(level);
      var hardIntervalDays := IntervalMin(hardLevel) / MINUTES_PER_DAY;
      var normalIntervalDays := IntervalMin(normalLevel) / MINUTES_PER_DAY;
      [Choice(Retry, retryLevel, ""),
       Choice(Hard, hardLevel, IntToDecimal(hardIntervalDays) + daysLabel),
       Choice(Normal, normalLevel, IntToDecimal(normalIntervalDays) + daysLabel)]
  }

  /** Whatever the level, "retry" sets level 0 or 1, so the card is due again at once. */
  lemma RetryIsDueAtOnce(card: Card, daysLabel: string, answeredAt: Long, now: Long)
    ensures var cs := Choices(card.level, daysLabel);
      IsFire(CopyWithLevel(card, cs[0].nextLevel, answeredAt), now)
  {
  }

  /** In the learning ramp the retry button differs from `nextLevelRetry` at levels 0 and 2. */
  lemma EarlyRetryDiffers(level: Int32)
    requires level == 0 || level == 2
    ensures Choices(level, "")[0].nextLevel == 0 != NextLevelRetry(level)
  {
  }

  /**
   * The interval texts say how long the chosen level waits: at level 0 the
   * normal button shows the level-2 wait, "10 min"; at levels 1 and 2 it
   * shows "1 day", which is the wait of the level it sets.
   */
  lemma EarlyLabelsAccurate(level: Int32, daysLabel: string)
    requires 0 <= level <= 2
    ensures var cs := Choices(level, daysLabel);
      && (level == 0 ==> cs[1].interval == "10 min" && IntervalMin(cs[1].nextLevel) == 10)
      && (level != 0 ==> cs[1].interval == "1 day" && IntervalMin(cs[1].nextLevel) == MINUTES_PER_DAY)
  {
    if level == 0 {
      assert NatToDecimal(10) == NatToDecimal(1) + [DigitChar(0)];
      assert IntToDecimal(10) == "10";
    }
  }

  /**
   * From level 3 on (and at negative levels) the hard and normal buttons show
   * whole days, and the day count is exact: the level they set waits a whole
   * number of days.
   */
  lemma DayLabelsExact(level: Int32, daysLabel: string)
    requires !(0 <= level <= 2)
    ensures var cs := Choices(level, daysLabel);
      forall i :: 1 <= i < 3 ==>
        && cs[i].interval == IntToDecimal(IntervalMin(cs[i].nextLevel) / MINUTES_PER_DAY) + daysLabel
        && IntervalMin(cs[i].nextLevel) % MINUTES_PER_DAY == 0
  {
  }

  /** `QAActivity`'s state: its queue, the card on screen, whether it has finished, and the metadata it wrote. */
  class Session {
    const queue: CardQueue
    var current: Option<Card>
    var finished: bool
    var written: map<DocFile, string>

    /**
     * `onCreate` with the lazily built queue: a `CardQueue` of the deck's
     * valid cards, set up once; then finish at once when nothing is due, or
     * pop the first card.
     */
    constructor (cards: seq<Card>, now: Long, rand: nat -> nat)
      ensures fresh(queue)
      ensures queue.rest == Unfired(cards, now)
      ensures finished <==> Fired(cards, now) == []
      ensures finished ==> current == None && queue.target == []
      ensures !finished ==> current.Some? && multiset(queue.target) + multiset{current.value} == multiset(Fired(cards, now))
      ensures written == map[]
    {
      queue := new CardQueue(cards);
      current := None;
      finished := false;
      written := map[];
      new;
      queue.Setup(now, rand);
      PopOrFinish();
    }

    /**
     * The tail shared by `onCreate` and `onResult`: pop the next card onto the
     * screen, or `finish()` when `target` is empty.
     */
    method PopOrFinish()
      requires !finished
      modifies this, queue
      ensures queue.rest == old(queue.rest) && written == old(written)
      ensures finished <==> old(queue.target) == []
      ensures finished ==> queue.target == [] && current == old(current)
      ensures !finished ==> current == Some(old(queue.target)[0]) && queue.target == old(queue.target)[1..]
      ensures multiset(queue.target) + (if finished then multiset{} else multiset{current.value}) == multiset(old(queue.target))
      ensures queue.Pool() + (if finished then multiset{} else multiset{current.value}) == old(queue.Pool())
    {
      if !queue.IsEnd() {
        var c := queue.Pop();
        current := Some(c);
      } else {
        finished := true;
      }
    }

    /**
     * `onResult(nextLevel)`: re-level the card on screen, write its metadata,
     * put it back in `rest`, then pop the next card; when `target` is empty,
     * `setup` again first, and finish if that finds nothing due. The three
     * clock reads are `answeredAt` (`copyWithLevel`), `writtenAt`
     * (`updateData`) and `setupAt` (`setup`).
     */
    method OnResult(nextLevel: Int32, answeredAt: Long, writtenAt: Long, setupAt: Long, rand: nat -> nat)
      requires !finished && current.Some?
      modifies this, queue
      ensures written == old(written)[old(current).value.data := Serialize(nextLevel, writtenAt)]
      ensures var updated := CopyWithLevel(old(current).value, nextLevel, answeredAt);
        old(queue.target) != [] ==>
          && !finished && current == Some(old(queue.target)[0])
          && queue.target == old(queue.target)[1..] && queue.rest == old(queue.rest) + [updated]
      ensures var pushed := old(queue.rest) + [CopyWithLevel(old(current).value, nextLevel, answeredAt)];
        old(queue.target) == [] ==>
          && queue.rest == Unfired(pushed, setupAt)
          && (finished <==> Fired(pushed, setupAt) == [])
          && (finished ==> queue.target == [] && current == old(current))
          && (!finished ==> current.Some? && multiset(queue.target) + multiset{current.value} == multiset(Fired(pushed, setupAt)))
      ensures !finished ==> current.Some?
      ensures queue.Pool() + (if finished then multiset{} else multiset{current.value})
              == old(queue.Pool()) + multiset{CopyWithLevel(old(current).value, nextLevel, answeredAt)}
      ensures old(queue.target) == [] && (nextLevel == 0 || nextLevel == 1) ==> !finished
    {
      var updated := CopyWithLevel(current.value, nextLevel, answeredAt);
      written := written[updated.data := UpdateData(updated, writtenAt)];
      Requeue(updated, setupAt, rand);
      PopOrFinish();
    }

    /**
     * The middle of `onResult`: `pushRest` the answered card, then `setup`
     * when `target` has run out. Only the queue changes.
     */
    method Requeue(updated: Card, setupAt: Long, rand: nat -> nat)
      modifies queue
      ensures old(queue.target) != [] ==> queue.target == old(queue.target) && queue.rest == old(queue.rest) + [updated]
      ensures var pushed := old(queue.rest) + [updated];
        old(queue.target) == [] ==>
          && queue.rest == Unfired(pushed, setupAt)
          && multiset(queue.target) == multiset(Fired(pushed, setupAt))
          && (queue.target == [] <==> Fired(pushed, setupAt) == [])
      ensures old(queue.target) == [] && IsFire(updated, setupAt) ==> queue.target != []
      ensures queue.Pool() == old(queue.Pool()) + multiset{updated}
    {
      ghost var pushed := queue.rest + [updated];
      FiredSnoc(queue.rest, updated, setupAt);
      queue.PushRest(updated);
      if queue.IsEnd() {
        queue.Setup(setupAt, rand);
        assert |queue.target| == |Fired(pushed, setupAt)|;
      }
    }
  }

  /**
   * Open a deck for review: index it, then start the session; null where
   * indexing throws on a metadata file that does not parse.
   */
  method OpenSession(deckDir: DocFile, storage: Storage, now: Long, rand: nat -> nat) returns (s: Session?)
    ensures s == null <==> DeckCards(storage.children(deckDir), storage.read).None?
    ensures s != null ==> (
      && fresh(s) && fresh(s.queue) && s.written == map[]
      && s.queue.rest == Unfired(DeckCards(storage.children(deckDir), storage.read).value, now)
      && (s.finished <==> Fired(DeckCards(storage.children(deckDir), storage.read).value, now) == []))
  {
    var cards := LoadValidCards(deckDir, storage);
    if cards.None? {
      return null;
    }
    s := new Session(cards.value, now, rand);
  }
}
