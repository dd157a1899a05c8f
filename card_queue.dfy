/**
 * `CardQueue`: the review session's two pools. `target` holds the cards to
 * present in this pass, `rest` the others; `setup` moves the cards due now
 * from `rest` to `target` and shuffles `target`.
 */
module Queue {
  import opened Numbers
  import opened Cards

  /** `rest.filter { it.isFire }`: the due cards, in their order. */
  function Fired(cards: seq<Card>, now: Long): (r: seq<Card>)
    ensures forall c {:trigger c in r} :: c in r <==> c in cards && IsFire(c, now)
    ensures |r| <= |cards|
    decreases |cards|
  {
    if cards == [] then []
    else if IsFire(cards[0], now) then [cards[0]] + Fired(cards[1..], now)
    else Fired(cards[1..], now)
  }

  /** `rest` after `removeAll { it.isFire }`: the cards not due, in their order. */
  function Unfired(cards: seq<Card>, now: Long): (r: seq<Card>)
    ensures forall c {:trigger c in r} :: c in r <==> c in cards && !IsFire(c, now)
    ensures |r| <= |cards|
    decreases |cards|
  {
    if cards == [] then []
    else if IsFire(cards[0], now) then Unfired(cards[1..], now)
    else [cards[0]] + Unfired(cards[1..], now)
  }

  /** The due and the not-due cards together are the cards we started with, each as often. */
  lemma {:induction false} FiredUnfiredPartition(cards: seq<Card>, now: Long)
    ensures multiset(Fired(cards, now)) + multiset(Unfired(cards, now)) == multiset(cards)
    decreases |cards|
  {
    if cards != [] {
      FiredUnfiredPartition(cards[1..], now);
      assert cards == [cards[0]] + cards[1..];
    }
  }

  /** Filtering for due cards what was kept as not due finds nothing: a second setup moves no card. */
  lemma {:induction false} UnfiredHasNoneFired(cards: seq<Card>, now: Long)
    ensures Fired(Unfired(cards, now), now) == []
    ensures Unfired(Unfired(cards, now), now) == Unfired(cards, now)
    decreases |cards|
  {
    if cards != [] {
      UnfiredHasNoneFired(cards[1..], now);
    }
  }

  /** Filtering distributes over appending one card, as `pushRest` does. */
  lemma {:induction false} FiredSnoc(cards: seq<Card>, c: Card, now: Long)
    ensures IsFire(c, now) ==> Fired(cards + [c], now) == Fired(cards, now) + [c]
    ensures !IsFire(c, now) ==> Fired(cards + [c], now) == Fired(cards, now)
    decreases |cards|
  {
    if cards == [] {
      assert [c][1..] == [];
    } else {
      var head, tail := cards[0], cards[1..];
      FiredSnoc(tail, c, now);
      assert (cards + [c])[0] == head && (cards + [c])[1..] == tail + [c];
      if IsFire(head, now) {
        assert Fired(cards, now) == [head] + Fired(tail, now);
        assert Fired(cards + [c], now) == [head] + Fired(tail + [c], now);
      } else {
        assert Fired(cards, now) == Fired(tail, now);
        assert Fired(cards + [c], now) == Fired(tail + [c], now);
      }
    }
  }

  lemma {:induction false} UnfiredSnoc(cards: seq<Card>, c: Card, now: Long)
    ensures IsFire(c, now) ==> Unfired(cards + [c], now) == Unfired(cards, now)
    ensures !IsFire(c, now) ==> Unfired(cards + [c], now) == Unfired(cards, now) + [c]
    decreases |cards|
  {
    if cards == [] {
      assert [c][1..] == [];
    } else {
      var head, tail := cards[0], cards[1..];
      UnfiredSnoc(tail, c, now);
      assert (cards + [c])[0] == head && (cards + [c])[1..] == tail + [c];
      if IsFire(head, now) {
        assert Unfired(cards, now) == Unfired(tail, now);
        assert Unfired(cards + [c], now) == Unfired(tail + [c], now);
      } else {
        assert Unfired(cards, now) == [head] + Unfired(tail, now);
        assert Unfired(cards + [c], now) == [head] + Unfired(tail + [c], now);
      }
    }
  }

  /**
   * `shuffle()`: java.util.Collections.shuffle, which swaps position i - 1
   * with a position drawn from [0, i) for i from the size down to 2. The draws
   * come from `rand`, so any permutation can come out.
   */
  method Shuffle<T>(s: seq<T>, rand: nat -> nat) returns (r: seq<T>)
    ensures multiset(r) == multiset(s)
    ensures |r| == |s|
  {
    r := s;
    var i := |r|;
    while i > 1
      invariant 0 <= i <= |r| == |s|
      invariant multiset(r) == multiset(s)
    {
      var j := rand(i) % i;
      r := r[i - 1 := r[j]][j := r[i - 1]];
      i := i - 1;
    }
  }

  class CardQueue {
    var target: seq<Card>
    var rest: seq<Card>

    /** Every card the queue holds, in either pool. */
    ghost function Pool(): multiset<Card>
      reads this
    {
      multiset(target) + multiset(rest)
    }

    /** `CardQueue(cards)`: nothing to present yet, every card waiting in `rest`. */
    constructor (cards: seq<Card>)
      ensures target == [] && rest == cards
    {
      target := [];
      rest := cards;
    }

    /**
     * `setup()`, with the two `isFire` evaluations taken at one instant `now`:
     * the due cards of `rest` join `target`, `rest` keeps the others in
     * order, and `target` is shuffled. No card is lost or duplicated.
     */
    method Setup(now: Long, rand: nat -> nat)
      modifies this
      ensures rest == Unfired(old(rest), now)
      ensures multiset(target) == multiset(old(target)) + multiset(Fired(old(rest), now))
      ensures |target| == |old(target)| + |Fired(old(rest), now)|
      ensures Pool() == old(Pool())
      ensures forall c :: c in rest ==> !IsFire(c, now)
    {
      var moved := Fired(rest, now);
      FiredUnfiredPartition(rest, now);
      rest := Unfired(rest, now);
      target := Shuffle(target + moved, rand);
    }

    /** `isEnd`. */
    predicate IsEnd(): (end: bool)
      reads this
      ensures end <==> |target| == 0
      ensures end ==> Pool() == multiset(rest)
    {
      target == []
    }

    /** `pop()`: take the first card of `target`; callers check `isEnd` first. */
    method Pop() returns (card: Card)
      requires target != []
      modifies this
      ensures card == old(target)[0] && target == old(target)[1..] && rest == old(rest)
      ensures multiset(target) + multiset{card} == multiset(old(target))
      ensures Pool() + multiset{card} == old(Pool())
    {
      card := target[0];
      assert target == [card] + target[1..];
      target := target[1..];
    }

    /** `pushRest(card)`: the answered card waits in `rest` for the next `setup`. */
    method PushRest(card: Card)
      modifies this
      ensures rest == old(rest) + [card] && target == old(target)
      ensures Pool() == old(Pool()) + multiset{card}
    {
      rest := rest + [card];
    }
  }

  /**
   * `setup()` as written: `rest.filter { it.isFire }` and
   * `rest.removeAll { it.isFire }` each read the clock, at `filterAt` and at
   * `removeAt`. Returns the new `target` (before the shuffle) and `rest`.
   */
  function SetupAsWritten(target: seq<Card>, rest: seq<Card>, filterAt: Long, removeAt: Long): (pools: (seq<Card>, seq<Card>))
    ensures forall c :: c in pools.0 <==> c in target || (c in rest && IsFire(c, filterAt))
    ensures forall c :: c in pools.1 <==> c in rest && !IsFire(c, removeAt)
  {
    (target + Fired(rest, filterAt), Unfired(rest, removeAt))
  }

  /**
   * A level-2 card answered at time 0 becomes due at 660000 ms. If the first
   * clock read is one millisecond earlier than the second, the card is in
   * neither pool afterwards: the session silently skips it.
   */
  lemma SetupAsWrittenDropsCard(f: DocFile)
    ensures var c := Card("1", f, f, f, 0, 2);
      SetupAsWritten([], [c], 659_999, 660_000) == ([], [])
  {
    var c := Card("1", f, f, f, 0, 2);
    assert !IsFire(c, 659_999);
    assert IsFire(c, 660_000);
    assert [c][1..] == [];
    assert Fired([c], 659_999) == [] && Unfired([c], 660_000) == [];
    var empty: seq<Card> := [];
    assert empty + Fired([c], 659_999) == [];
  }

  /** With one instant for both reads (as `Setup` takes it) the pools keep every card. */
  lemma SetupOneInstantConserves(target: seq<Card>, rest: seq<Card>, now: Long)
    ensures var pools := SetupAsWritten(target, rest, now, now);
      multiset(pools.0) + multiset(pools.1) == multiset(target) + multiset(rest)
  {
    FiredUnfiredPartition(rest, now);
  }

  /** Three cards at levels 0, 1 and 5: setup puts the first two in `target` and leaves the level-5 card to its interval. */
  lemma ThreeCardsScenario(q: Card, r: Card, s: Card, now: Long)
    requires q.level == 0 && r.level == 1 && s.level == 5
    requires LONG_MIN <= now - s.date <= LONG_MAX
    ensures Fired([q, r, s], now) == (if now - s.date >= 7201 * MS_PER_MINUTE then [q, r, s] else [q, r])
    ensures Unfired([q, r, s], now) == (if now - s.date >= 7201 * MS_PER_MINUTE then [] else [s])
  {
    DueThreshold(s, now);
    assert [q, r, s][1..] == [r, s] && [r, s][1..] == [s] && [s][1..] == [];
    assert IsFire(q, now) && IsFire(r, now);
    assert Fired([r, s], now) == [r] + Fired([s], now);
    assert Unfired([r, s], now) == Unfired([s], now);
  }
}
