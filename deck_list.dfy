/**
 * `DeckListActivity`: the decks are the sub-directories of the root
 * directory, listed by name in descending order; each shows a
 * "due/total" label that starts as the placeholder "N/N" and is replaced
 * once every deck's cards have been indexed.
 */
module DeckList {
  import opened Wrappers
  import opened Numbers
  import opened Decimal
  import opened Metadata
  import opened Cards
  import opened DeckIndex
  import opened Queue

  /**
   * Kotlin's `String.compareTo(other) < 0`: the first differing character
   * decides by its code; when one name is a prefix of the other, the
   * shorter one is smaller.
   */
  predicate NameLess(a: string, b: string): (less: bool)
    ensures less <==> a < b || exists k :: 0 <= k < |a| && k < |b| && a[..k] == b[..k] && a[k] < b[k]
    decreases |a|
  {
    if a == [] then b != []
    else if b == [] then false
    else if a[0] != b[0] then a[0] < b[0]
    else
      var a', b' := a[1..], b[1..];
      assert a == [a[0]] + a' && b == [b[0]] + b';
      assert (a < b) == (a' < b');
      forall k | 0 <= k < |a| && k < |b| && a[..k] == b[..k] && a[k] < b[k]
        ensures 0 <= k - 1 < |a'| && k - 1 < |b'| && a'[..k - 1] == b'[..k - 1] && a'[k - 1] < b'[k - 1]
      {
        assert a[..k][1..] == a'[..k - 1] && b[..k][1..] == b'[..k - 1];
      }
      forall k | 0 <= k < |a'| && k < |b'| && a'[..k] == b'[..k] && a'[k] < b'[k]
        ensures a[..k + 1] == b[..k + 1] && a[k + 1] < b[k + 1]
      {
        assert a[..k + 1] == [a[0]] + a'[..k] && b[..k + 1] == [b[0]] + b'[..k];
      }
      NameLess(a', b')
  }

  lemma {:induction false} NameLessIrreflexive(a: string)
    ensures !NameLess(a, a)
    decreases |a|
  {
    if a != [] {
      NameLessIrreflexive(a[1..]);
    }
  }

  lemma {:induction false} NameLessAsymmetric(a: string, b: string)
    ensures NameLess(a, b) ==> !NameLess(b, a)
    decreases |a|
  {
    if a != [] && b != [] && a[0] == b[0] {
      NameLessAsymmetric(a[1..], b[1..]);
    }
  }

  /** Two different names are always ordered one way or the other. */
  lemma {:induction false} NameLessTotal(a: string, b: string)
    ensures a == b || NameLess(a, b) || NameLess(b, a)
    decreases |a|
  {
    if a != [] && b != [] && a[0] == b[0] {
      NameLessTotal(a[1..], b[1..]);
      if a[1..] == b[1..] {
        assert a == [a[0]] + a[1..] && b == [b[0]] + b[1..];
      }
    }
  }

  lemma {:induction false} NameLessTransitive(a: string, b: string, c: string)
    requires NameLess(a, b) && NameLess(b, c)
    ensures NameLess(a, c)
    decreases |a|
  {
    if a != [] && a[0] == b[0] && b[0] == c[0] {
      NameLessTransitive(a[1..], b[1..], c[1..]);
    }
  }

  /** "Not smaller" (`compareTo >= 0`) is transitive as well. */
  lemma NotLessTransitive(a: string, b: string, c: string)
    requires !NameLess(a, b) && !NameLess(b, c)
    ensures !NameLess(a, c)
  {
    NameLessTotal(a, b);
    NameLessTotal(b, c);
    if b != a && c != b {
      NameLessTransitive(c, b, a);
    }
    NameLessAsymmetric(c, a);
    NameLessIrreflexive(a);
  }

  /** `.filter { it.isDirectory }`: the entries that are directories, in order. */
  function Directories(files: seq<DocFile>): (dirs: seq<DocFile>)
    ensures forall d :: d in dirs <==> d in files && d.isDirectory
    ensures multiset(dirs) <= multiset(files)
    ensures forall d :: multiset(dirs)[d] == if d.isDirectory then multiset(files)[d] else 0
    decreases |files|
  {
    if files == [] then []
    else
      assert files == [files[0]] + files[1..];
      (if files[0].isDirectory then [files[0]] else []) + Directories(files[1..])
  }

  /** Each deck's name is not smaller than the next one's. */
  predicate SortedDesc(decks: seq<DocFile>) {
    forall i :: 0 <= i < |decks| - 1 ==> !NameLess(decks[i].name, decks[i + 1].name)
  }

  /**
   * Insert `d` after the decks whose names are larger than its own: a deck
   * inserted this way stays ahead of the decks with an equal name, as
   * the stable sort keeps it.
   */
  function InsertDesc(d: DocFile, decks: seq<DocFile>): (r: seq<DocFile>)
    ensures multiset(r) == multiset(decks) + multiset{d}
    ensures forall x :: x in r <==> x in decks || x == d
    ensures |r| == |decks| + 1
    ensures r[0] == d || (decks != [] && r[0] == decks[0])
    decreases |decks|
  {
    if decks == [] then [d]
    else if NameLess(d.name, decks[0].name) then
      assert decks == [decks[0]] + decks[1..];
      [decks[0]] + InsertDesc(d, decks[1..])
    else [d] + decks
  }

  lemma {:induction false} InsertKeepsSorted(d: DocFile, decks: seq<DocFile>)
    requires SortedDesc(decks)
    ensures SortedDesc(InsertDesc(d, decks))
    decreases |decks|
  {
    if decks != [] && NameLess(d.name, decks[0].name) {
      var tail := decks[1..];
      assert SortedDesc(tail) by {
        forall i | 0 <= i < |tail| - 1
          ensures !NameLess(tail[i].name, tail[i + 1].name)
        {
          assert tail[i] == decks[i + 1] && tail[i + 1] == decks[i + 2];
        }
      }
      InsertKeepsSorted(d, tail);
      var rest := InsertDesc(d, tail);
      NameLessAsymmetric(d.name, decks[0].name);
      assert !NameLess(decks[0].name, rest[0].name);
      assert InsertDesc(d, decks) == [decks[0]] + rest;
    }
  }

  /** `.sortedByDescending { it.name }`, by insertion. */
  function SortByNameDesc(decks: seq<DocFile>): (r: seq<DocFile>)
    ensures multiset(r) == multiset(decks)
    ensures forall x :: x in r <==> x in decks
    ensures SortedDesc(r)
    decreases |decks|
  {
    if decks == [] then []
    else
      var sorted := SortByNameDesc(decks[1..]);
      InsertKeepsSorted(decks[0], sorted);
      assert decks == [decks[0]] + decks[1..];
      InsertDesc(decks[0], sorted)
  }

  /** In a descending list, every earlier deck's name is not smaller than every later one's. */
  lemma {:induction false} SortedDescPairwise(decks: seq<DocFile>, i: int, j: int)
    requires SortedDesc(decks) && 0 <= i <= j < |decks|
    ensures !NameLess(decks[i].name, decks[j].name)
    decreases j - i
  {
    if i == j {
      NameLessIrreflexive(decks[i].name);
    } else {
      SortedDescPairwise(decks, i + 1, j);
      NotLessTransitive(decks[i].name, decks[i + 1].name, decks[j].name);
    }
  }

  datatype ListError = NotDirectory

  /**
   * `listFiles(url)`: the sub-directories of the root, largest name first;
   * an error when the root is not a directory.
   */
  function ListDecks(root: DocFile, storage: Storage): (r: Result<seq<DocFile>, ListError>)
    ensures r.Err? <==> !root.isDirectory
    ensures r.Ok? ==> multiset(r.value) == multiset(Directories(storage.children(root)))
    ensures r.Ok? ==> forall d :: d in r.value <==> d in storage.children(root) && d.isDirectory
    ensures r.Ok? ==> SortedDesc(r.value)
  {
    if !root.isDirectory then Err(NotDirectory)
    else Ok(SortByNameDesc(Directories(storage.children(root))))
  }

  /** `"$fireNum/$total"`: how many of the cards are due now, and how many there are. */
  function FireLabel(cards: seq<Card>, now: Long): (text: string)
  {
    IntToDecimal(|Fired(cards, now)|) + "/" + IntToDecimal(|cards|)
  }

  /** The label splits at its one '/' into the due count and the total, and the first never exceeds the second. */
  lemma FireLabelReadsBack(cards: seq<Card>, now: Long)
    ensures var fields := Split(FireLabel(cards, now), '/');
      && |fields| == 2
      && ParseInteger(fields[0], 0, |cards|) == Some(|Fired(cards, now)|)
      && ParseInteger(fields[1], 0, |cards|) == Some(|cards|)
  {
    var f, t := IntToDecimal(|Fired(cards, now)|), IntToDecimal(|cards|);
    assert '/' !in f && '/' !in t by {
      assert forall i :: 0 <= i < |f| ==> f[i] != '/';
      assert forall i :: 0 <= i < |t| ==> t[i] != '/';
    }
    assert FireLabel(cards, now) == f + ['/'] + t;
    SplitAtFirst(f, t, '/');
    SplitNoSeparator(t, '/');
    ParseIntegerRoundTrip(|Fired(cards, now)|, 0, |cards|);
    ParseIntegerRoundTrip(|cards|, 0, |cards|);
  }

  /** `loadFireCount(deckDir)` as a value: the deck's label, or nothing where indexing throws. */
  function DeckStats(deck: DocFile, storage: Storage, now: Long): (stats: Option<string>)
    ensures stats.Some? <==> AllDataParse(storage.children(deck), storage.read)
  {
    IndexCharacterized(storage.children(deck), storage.read);
    match DeckCards(storage.children(deck), storage.read)
    case None => None
    case Some(cards) => Some(FireLabel(cards, now))
  }

  /**
   * `loadFireCount(deckDir)`: index the deck, count its valid cards and the
   * ones due at `now`.
   */
  method LoadFireCount(deck: DocFile, storage: Storage, now: Long) returns (stats: Option<string>)
    ensures stats == DeckStats(deck, storage, now)
    ensures stats.Some? <==> AllDataParse(storage.children(deck), storage.read)
  {
    var cards := LoadValidCards(deck, storage);
    if cards.None? {
      return None;
    }
    var total := |cards.value|;
    var fireNum := |Fired(cards.value, now)|;
    stats := Some(IntToDecimal(fireNum) + "/" + IntToDecimal(total));
  }

  const PLACEHOLDER: string := "N/N"

  /** The deck list screen: the decks shown and, index for index, their labels. */
  class DeckListState {
    var files: seq<DocFile>
    var cardStats: seq<string>

    /** `DeckList` reads `cardStats[index]` for each deck: there is one label per deck. */
    ghost predicate Valid()
      reads this
    {
      |cardStats| == |files|
    }

    constructor ()
      ensures Valid() && files == [] && cardStats == []
    {
      files := [];
      cardStats := [];
    }

    /**
     * `reloadDeckList(url)` up to the start of the background load: the
     * new deck list, each with the placeholder label. When the root is not
     * a directory `listFiles` throws and nothing changes.
     */
    method ReloadDeckList(root: DocFile, storage: Storage) returns (ok: bool)
      modifies this
      ensures ok <==> ListDecks(root, storage).Ok?
      ensures ok ==> files == ListDecks(root, storage).value
      ensures ok ==> forall i :: 0 <= i < |cardStats| ==> cardStats[i] == PLACEHOLDER
      ensures ok ==> Valid()
      ensures !ok ==> files == old(files) && cardStats == old(cardStats)
    {
      var newFiles := ListDecks(root, storage);
      if newFiles.Err? {
        return false;
      }
      cardStats := seq(|newFiles.value|, _ => PLACEHOLDER);
      files := newFiles.value;
      ok := true;
    }

    /**
     * `startLoadCardStats()`, run to completion: the label of every deck,
     * in the order of `files`. A deck whose indexing throws aborts the
     * whole load and the labels stay as they were.
     */
    method LoadCardStats(storage: Storage, now: Long) returns (ok: bool)
      requires Valid()
      modifies this
      ensures Valid() && files == old(files)
      ensures ok <==> forall i :: 0 <= i < |files| ==> DeckStats(files[i], storage, now).Some?
      ensures ok ==> forall i :: 0 <= i < |files| ==> DeckStats(files[i], storage, now) == Some(cardStats[i])
      ensures !ok ==> cardStats == old(cardStats)
    {
      var newStats: seq<string> := [];
      for i := 0 to |files|
        invariant files == old(files) && cardStats == old(cardStats)
        invariant |newStats| == i
        invariant forall k :: 0 <= k < i ==> DeckStats(files[k], storage, now) == Some(newStats[k])
      {
        var stats := LoadFireCount(files[i], storage, now);
        if stats.None? {
          return false;
        }
        newStats := newStats + [stats.value];
        assert newStats[i] == stats.value;
      }
      cardStats := newStats;
      ok := true;
    }
  }
}
