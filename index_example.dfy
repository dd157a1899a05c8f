/**
 * A worked deck: card "1" has its question, answer and metadata files,
 * card "2" only its two images. Indexing keeps card "1" with the level and
 * time its metadata records and drops card "2".
 */
module IndexExample {
  import opened Wrappers
  import opened Decimal
  import opened Metadata
  import opened Cards
  import opened DeckIndex

  /** The file named `"${id}_${suffix}"`, as `createFile` names it. */
  function File(id: string, suffix: string): (f: DocFile)
    ensures f.name == id + "_" + suffix
  {
    var name := id + "_" + suffix;
    DocFile("content://deck/" + name, name, false)
  }

  lemma FileSplits(id: string, suffix: string)
    requires suffix in {QUESTION_SUFFIX, ANSWER_SUFFIX, DATA_SUFFIX}
    ensures SplitFileName(File(id, suffix).name) == Some((id, suffix))
  {
    assert '_' !in suffix;
    SplitBuiltName(id, suffix);
  }

  /** The five files of the deck, in listing order. */
  function ExampleFiles(): (files: seq<DocFile>)
    ensures |files| == 5
  {
    [File("1", QUESTION_SUFFIX), File("1", ANSWER_SUFFIX), File("1", DATA_SUFFIX),
     File("2", QUESTION_SUFFIX), File("2", ANSWER_SUFFIX)]
  }

  /** The names are the ones the listing shows. */
  lemma ExampleNames()
    ensures var files := ExampleFiles();
      && files[0].name == "1_Q.png" && files[1].name == "1_A.png" && files[2].name == "1_D.txt"
      && files[3].name == "2_Q.png" && files[4].name == "2_A.png"
  {
  }

  function ExampleCard(): Card {
    Card("1", File("1", QUESTION_SUFFIX), File("1", ANSWER_SUFFIX), File("1", DATA_SUFFIX), 1000, 2)
  }

  /** The metadata line "2,1000": level 2, answered at 1000 ms. */
  lemma ExampleLineParses()
    ensures ParseData("2,1000") == Ok(Meta(2, 1000))
  {
    assert IntToDecimal(2) == "2";
    assert NatToDecimal(10) == "10" by {
      assert NatToDecimal(10) == NatToDecimal(1) + [DigitChar(0)];
    }
    assert NatToDecimal(100) == "100" by {
      assert NatToDecimal(100) == NatToDecimal(10) + [DigitChar(0)];
    }
    assert IntToDecimal(1000) == "1000" by {
      assert NatToDecimal(1000) == NatToDecimal(100) + [DigitChar(0)];
    }
    assert Serialize(2, 1000) == "2,1000";
    RoundTrip(2, 1000);
  }

  /** How each of the five names splits. */
  lemma ExampleSplits()
    ensures var files := ExampleFiles();
      && SplitFileName(files[0].name) == Some(("1", QUESTION_SUFFIX))
      && SplitFileName(files[1].name) == Some(("1", ANSWER_SUFFIX))
      && SplitFileName(files[2].name) == Some(("1", DATA_SUFFIX))
      && SplitFileName(files[3].name) == Some(("2", QUESTION_SUFFIX))
      && SplitFileName(files[4].name) == Some(("2", ANSWER_SUFFIX))
  {
    FileSplits("1", QUESTION_SUFFIX);
    FileSplits("1", ANSWER_SUFFIX);
    FileSplits("1", DATA_SUFFIX);
    FileSplits("2", QUESTION_SUFFIX);
    FileSplits("2", ANSWER_SUFFIX);
  }

  /** Of the five files only the third is a metadata file. */
  lemma ExampleDataFile(i: int)
    requires 0 <= i < 5 && IsDataFile(ExampleFiles()[i])
    ensures i == 2
  {
    var files := ExampleFiles();
    if i == 0 {
      FileSplits("1", QUESTION_SUFFIX);
    } else if i == 1 {
      FileSplits("1", ANSWER_SUFFIX);
    } else if i == 3 {
      FileSplits("2", QUESTION_SUFFIX);
    } else if i == 4 {
      FileSplits("2", ANSWER_SUFFIX);
    }
  }

  /** The only metadata file is "1_D.txt", and it parses. */
  lemma ExampleDataParses(read: DocFile -> string)
    requires read(File("1", DATA_SUFFIX)) == "2,1000"
    ensures AllDataParse(ExampleFiles(), read)
  {
    ExampleLineParses();
    var files := ExampleFiles();
    forall i | 0 <= i < |files| && IsDataFile(files[i]) ensures ParseData(read(files[i])).Ok? {
      ExampleDataFile(i);
    }
  }

  /** Indexing the example runs to the end. */
  lemma ExampleIndexes(read: DocFile -> string)
    requires read(File("1", DATA_SUFFIX)) == "2,1000"
    ensures IndexFiles(EmptyDict, ExampleFiles(), read).ok
  {
    ExampleDataParses(read);
    IndexCharacterized(ExampleFiles(), read);
  }

  /** For id "1" the last file of each kind is its only one. */
  lemma ExampleLastFiles()
    ensures LastWith(ExampleFiles(), "1", QUESTION_SUFFIX) == Some(File("1", QUESTION_SUFFIX))
    ensures LastWith(ExampleFiles(), "1", ANSWER_SUFFIX) == Some(File("1", ANSWER_SUFFIX))
    ensures LastWith(ExampleFiles(), "1", DATA_SUFFIX) == Some(File("1", DATA_SUFFIX))
  {
    var files := ExampleFiles();
    ExampleSplits();
    var p1, p2, p3, p4 := files[..1], files[..2], files[..3], files[..4];
    assert p1 == [] + [files[0]] && p2 == p1 + [files[1]] && p3 == p2 + [files[2]];
    assert p4 == p3 + [files[3]] && files == p4 + [files[4]];
    LastWithSnoc(p4, files[4], "1", QUESTION_SUFFIX);
    LastWithSnoc(p3, files[3], "1", QUESTION_SUFFIX);
    LastWithSnoc(p4, files[4], "1", ANSWER_SUFFIX);
    LastWithSnoc(p3, files[3], "1", ANSWER_SUFFIX);
    LastWithSnoc(p4, files[4], "1", DATA_SUFFIX);
    LastWithSnoc(p3, files[3], "1", DATA_SUFFIX);
    LastWithSnoc(p2, files[2], "1", DATA_SUFFIX);
    LastWithSnoc(p2, files[2], "1", ANSWER_SUFFIX);
    LastWithSnoc(p1, files[1], "1", ANSWER_SUFFIX);
    LastWithSnoc(p2, files[2], "1", QUESTION_SUFFIX);
    LastWithSnoc(p1, files[1], "1", QUESTION_SUFFIX);
    LastWithSnoc([], files[0], "1", QUESTION_SUFFIX);
  }

  /** Card "1" is complete. */
  lemma ExampleComplete(read: DocFile -> string)
    requires read(File("1", DATA_SUFFIX)) == "2,1000"
    ensures Complete(ExampleFiles(), read, ExampleCard())
  {
    ExampleLastFiles();
    ExampleLineParses();
  }

  /** No other card is complete: only id "1" has a metadata file. */
  lemma ExampleOnlyCard(read: DocFile -> string, c: Card)
    requires read(File("1", DATA_SUFFIX)) == "2,1000"
    requires Complete(ExampleFiles(), read, c)
    ensures c == ExampleCard()
  {
    var files := ExampleFiles();
    assert c.data in files && SplitFileName(c.data.name) == Some((c.id, DATA_SUFFIX));
    var i :| 0 <= i < 5 && files[i] == c.data;
    ExampleDataFile(i);
    FileSplits("1", DATA_SUFFIX);
    ExampleLastFiles();
    ExampleLineParses();
  }

  /** A list of cards with distinct ids, all equal to `c` and holding it, is just `[c]`. */
  lemma OnlyElement(cards: seq<Card>, c: Card)
    requires c in cards && forall x :: x in cards ==> x == c
    requires forall i, j :: 0 <= i < j < |cards| ==> cards[i].id != cards[j].id
    ensures cards == [c]
  {
    assert cards[0] in cards;
    assert |cards| > 1 ==> cards[1] in cards && cards[0].id == cards[1].id;
    if |cards| > 1 {
      assert false;
    }
  }

  /**
   * Indexing the listing "1_Q.png", "1_A.png", "1_D.txt" (holding "2,1000"),
   * "2_Q.png", "2_A.png" gives exactly one card: id "1", level 2, time 1000.
   */
  lemma ExampleDeck(read: DocFile -> string)
    requires read(File("1", DATA_SUFFIX)) == "2,1000"
    ensures DeckCards(ExampleFiles(), read) == Some([ExampleCard()])
  {
    var files := ExampleFiles();
    ExampleIndexes(read);
    var ix := IndexFiles(EmptyDict, files, read);
    ValidCardsOfListing(files, read);
    var cards := ValidCards(ix.dict);
    forall c | c in cards ensures c == ExampleCard() {
      ExampleOnlyCard(read, c);
    }
    ExampleComplete(read);
    OnlyElement(cards, ExampleCard());
  }
}
