/**
 * `DeckParser`: indexes one deck directory. File names are split at their
 * last `_` into an id and a suffix; `Q.png`, `A.png` and `D.txt` files fill
 * the question, answer and metadata slots of a per-id partial record kept in
 * an insertion-ordered map (`mutableMapOf` is a LinkedHashMap); ids whose
 * three slots are all filled become cards.
 */
module DeckIndex {
  import opened Wrappers
  import opened Numbers
  import opened Metadata
  import opened Cards

  /** `lastIndexOf(c)`: -1 when absent. */
  function LastIndexOf(s: string, c: char): (r: int)
    ensures -1 <= r < |s|
    ensures r == -1 ==> forall i :: 0 <= i < |s| ==> s[i] != c
    ensures r >= 0 ==> s[r] == c && forall i :: r < i < |s| ==> s[i] != c
    decreases |s|
  {
    if s == [] then -1
    else if s[|s| - 1] == c then |s| - 1
    else LastIndexOf(s[..|s| - 1], c)
  }

  /** `splitFileName`: (id, suffix) around the last `_`, or null when there is none. */
  function SplitFileName(name: string): (r: Option<(string, string)>)
    ensures r.None? <==> '_' !in name
    ensures r.Some? ==> r.value.0 + "_" + r.value.1 == name && '_' !in r.value.1
  {
    var sep := LastIndexOf(name, '_');
    if sep == -1 then None
    else
      var suffix := name[sep + 1..];
      assert name == name[..sep] + "_" + suffix;
      assert forall j :: 0 <= j < |suffix| ==> suffix[j] == name[sep + 1 + j];
      Some((name[..sep], suffix))
  }

  /** A name built as `"${id}_${suffix}"` splits back to (id, suffix), even when the id holds `_`. */
  lemma SplitBuiltName(id: string, suffix: string)
    requires '_' !in suffix
    ensures SplitFileName(id + "_" + suffix) == Some((id, suffix))
  {
    var name := id + "_" + suffix;
    assert name[|id|] == '_';
    assert forall i :: |id| < i < |name| ==> name[i] == suffix[i - |id| - 1];
    assert LastIndexOf(name, '_') == |id|;
    assert name[..|id|] == id && name[|id| + 1..] == suffix;
  }

  /** `TmpCardDataSource`: the partial record of one id. */
  datatype TmpCard = TmpCard(id: string, question: Option<DocFile>, answer: Option<DocFile>,
                             data: Option<DocFile>, date: Option<Long>, level: Int32)

  function EmptyTmp(id: string): TmpCard {
    TmpCard(id, None, None, None, None, 0)
  }

  /** `isValid`: question, answer, metadata file and date are all set. */
  predicate IsValid(t: TmpCard): (valid: bool)
    ensures valid ==> t.question.Some? && t.answer.Some? && t.data.Some? && t.date.Some?
    ensures valid ==> t != EmptyTmp(t.id)
  {
    t.question.Some? && t.answer.Some? && t.data.Some? && t.date.Some?
  }

  /** The `CardDataSource` built from a valid partial record. */
  function Finalize(t: TmpCard): (c: Card)
    requires IsValid(t)
    ensures c.id == t.id && c.level == t.level
    ensures Some(c.question) == t.question && Some(c.answer) == t.answer
    ensures Some(c.data) == t.data && Some(c.date) == t.date
  {
    Card(t.id, t.question.value, t.answer.value, t.data.value, t.date.value, t.level)
  }

  /** `cardDict`: the map from id to partial record, with its keys in insertion order. */
  datatype CardDict = CardDict(entries: map<string, TmpCard>, order: seq<string>)

  const EmptyDict: CardDict := CardDict(map[], [])

  /** Keys listed once each, in `order` exactly when in `entries`, each record filed under its own id. */
  ghost predicate WellFormed(d: CardDict) {
    && (forall i, j :: 0 <= i < j < |d.order| ==> d.order[i] != d.order[j])
    && (forall k :: k in d.entries <==> k in d.order)
    && (forall k :: k in d.entries ==> d.entries[k].id == k)
  }

  /** `cardDict[id] = t`: a new key goes last, an existing key keeps its place. */
  function Put(d: CardDict, id: string, t: TmpCard): (r: CardDict)
    ensures r.entries == d.entries[id := t]
    ensures id in d.entries ==> r.order == d.order
    ensures id !in d.entries ==> r.order == d.order + [id]
    ensures WellFormed(d) && t.id == id ==> WellFormed(r)
  {
    if id in d.entries then CardDict(d.entries[id := t], d.order)
    else CardDict(d.entries[id := t], d.order + [id])
  }

  /** `cardDict[id]`, or a fresh `TmpCardDataSource(id)` when absent. */
  function Entry(d: CardDict, id: string): TmpCard {
    if id in d.entries then d.entries[id] else EmptyTmp(id)
  }

  const QUESTION_SUFFIX: string := "Q.png"
  const ANSWER_SUFFIX: string := "A.png"
  const DATA_SUFFIX: string := "D.txt"

  predicate IsDataFile(f: DocFile) {
    SplitFileName(f.name).Some? && SplitFileName(f.name).value.1 == DATA_SUFFIX
  }

  /** One iteration of the `forEach` in `listFiles`: a metadata file that does not parse throws. */
  function AddFile(d: CardDict, f: DocFile, read: DocFile -> string): (r: Result<CardDict, ParseError>)
    ensures r.Ok? && WellFormed(d) ==> WellFormed(r.value)
    ensures r.Err? <==> IsDataFile(f) && ParseData(read(f)).Err?
  {
    match SplitFileName(f.name)
    case None => Ok(d)
    case Some((id, suffix)) =>
      if suffix == QUESTION_SUFFIX then Ok(Put(d, id, Entry(d, id).(question := Some(f))))
      else if suffix == ANSWER_SUFFIX then Ok(Put(d, id, Entry(d, id).(answer := Some(f))))
      else if suffix == DATA_SUFFIX then
        match ParseData(read(f))
        case Err(e) => Err(e)
        case Ok(m) => Ok(Put(d, id, Entry(d, id).(data := Some(f), level := m.level, date := Some(m.date))))
      else Ok(d)
  }

  /** The dictionary after a `listFiles` pass over `files`, and whether it ran to the end. */
  datatype Indexing = Indexing(dict: CardDict, ok: bool)

  /** `listFiles` from dictionary `d0`: files in order, stopping at the first exception. */
  function IndexFiles(d0: CardDict, files: seq<DocFile>, read: DocFile -> string): (r: Indexing)
    ensures WellFormed(d0) ==> WellFormed(r.dict)
    decreases |files|
  {
    if files == [] then Indexing(d0, true)
    else
      var prev := IndexFiles(d0, files[..|files| - 1], read);
      if !prev.ok then prev
      else
        match AddFile(prev.dict, files[|files| - 1], read)
        case Ok(d) => Indexing(d, true)
        case Err(_) => Indexing(prev.dict, false)
  }

  /** One more file: the pass so far, then that file unless the pass already threw. */
  lemma IndexFilesSnoc(d0: CardDict, p: seq<DocFile>, f: DocFile, read: DocFile -> string)
    ensures var prev := IndexFiles(d0, p, read);
      IndexFiles(d0, p + [f], read) ==
        if !prev.ok then prev
        else match AddFile(prev.dict, f, read)
          case Ok(d) => Indexing(d, true)
          case Err(_) => Indexing(prev.dict, false)
  {
    assert (p + [f])[..|p|] == p && (p + [f])[|p|] == f;
  }

  /** After the first failure, later files change nothing. */
  lemma {:induction false} FailureSticks(d0: CardDict, files: seq<DocFile>, i: nat, read: DocFile -> string)
    requires i <= |files|
    requires !IndexFiles(d0, files[..i], read).ok
    ensures IndexFiles(d0, files, read) == IndexFiles(d0, files[..i], read)
    decreases |files| - i
  {
    if i < |files| {
      assert files[..i + 1][..i] == files[..i];
      FailureSticks(d0, files, i + 1, read);
    } else {
      assert files[..i] == files;
    }
  }

  /** `filterValidCardList`: the valid records, finalized, in the map's iteration order. */
  function ValidCards(d: CardDict): (r: seq<Card>)
    ensures |r| <= |d.order|
    ensures forall k :: k in d.order && k in d.entries && IsValid(d.entries[k]) ==> Finalize(d.entries[k]) in r
    decreases |d.order|
  {
    if d.order == [] then []
    else
      var k := d.order[0];
      var rest := ValidCards(CardDict(d.entries, d.order[1..]));
      assert forall k' :: k' in d.order && k' != k ==> k' in d.order[1..];
      if k in d.entries && IsValid(d.entries[k]) then [Finalize(d.entries[k])] + rest else rest
  }

  /** Every listed card is the finalized record of a valid entry filed under its id, and no id is listed twice. */
  lemma {:induction false} ValidCardsExactly(d: CardDict)
    requires WellFormed(d)
    ensures forall c :: c in ValidCards(d) <==> c.id in d.entries && IsValid(d.entries[c.id]) && c == Finalize(d.entries[c.id])
    ensures forall i, j :: 0 <= i < j < |ValidCards(d)| ==> ValidCards(d)[i].id != ValidCards(d)[j].id
    decreases |d.order|
  {
    if d.order != [] {
      var k := d.order[0];
      var tail := CardDict(d.entries - {k}, d.order[1..]);
      DropFirstWellFormed(d);
      ValidCardsExactly(tail);
      SameCardsWithout(d, k);
      var r := ValidCards(d);
      var rest := ValidCards(tail);
      forall c | c in rest ensures c.id != k { }
    }
  }

  /** Dropping the first key, from the order and from the entries, keeps a dictionary well formed. */
  lemma DropFirstWellFormed(d: CardDict)
    requires WellFormed(d) && d.order != []
    ensures WellFormed(CardDict(d.entries - {d.order[0]}, d.order[1..]))
  {
    var k := d.order[0];
    var tail := CardDict(d.entries - {k}, d.order[1..]);
    forall i, j | 0 <= i < j < |tail.order| ensures tail.order[i] != tail.order[j] {
      assert tail.order[i] == d.order[i + 1] && tail.order[j] == d.order[j + 1];
    }
    forall k' ensures k' in tail.entries <==> k' in tail.order {
      if k' in d.order && k' != k {
        var i :| 0 <= i < |d.order| && d.order[i] == k';
        assert i > 0;
        assert tail.order[i - 1] == k';
      }
      if k' in tail.order {
        var i :| 0 <= i < |tail.order| && tail.order[i] == k';
        assert d.order[i + 1] == k';
        assert k' != k;
      }
    }
  }

  /** Dropping the first key's entry does not change the cards the other keys give. */
  lemma {:induction false} SameCardsWithout(d: CardDict, k: string)
    requires d.order != [] && d.order[0] == k
    requires forall i :: 1 <= i < |d.order| ==> d.order[i] != k
    ensures ValidCards(CardDict(d.entries - {k}, d.order[1..])) == ValidCards(CardDict(d.entries, d.order[1..]))
  {
    SameCardsOutside(d.entries, d.order[1..], k);
  }

  lemma {:induction false} SameCardsOutside(entries: map<string, TmpCard>, order: seq<string>, k: string)
    requires k !in order
    ensures ValidCards(CardDict(entries - {k}, order)) == ValidCards(CardDict(entries, order))
    decreases |order|
  {
    if order != [] {
      SameCardsOutside(entries, order[1..], k);
    }
  }

  /** The last file in `files` whose name splits to (id, suffix). */
  function LastWith(files: seq<DocFile>, id: string, suffix: string): (r: Option<DocFile>)
    ensures r.Some? ==> r.value in files && SplitFileName(r.value.name) == Some((id, suffix))
    decreases |files|
  {
    if files == [] then None
    else if SplitFileName(files[|files| - 1].name) == Some((id, suffix)) then Some(files[|files| - 1])
    else LastWith(files[..|files| - 1], id, suffix)
  }

  /** Some file for this id has one of the three recognised suffixes. */
  predicate Mentioned(files: seq<DocFile>, id: string) {
    LastWith(files, id, QUESTION_SUFFIX).Some? || LastWith(files, id, ANSWER_SUFFIX).Some? || LastWith(files, id, DATA_SUFFIX).Some?
  }

  /** Every `D.txt` file among `files` parses. */
  predicate AllDataParse(files: seq<DocFile>, read: DocFile -> string) {
    forall i :: 0 <= i < |files| && IsDataFile(files[i]) ==> ParseData(read(files[i])).Ok?
  }

  /** The level and time read from the last `D.txt` of `id`, when there is one and it parses. */
  function LastMeta(files: seq<DocFile>, id: string, read: DocFile -> string): Option<Meta> {
    MetaOf(LastWith(files, id, DATA_SUFFIX), read)
  }

  /** What a metadata file, if there is one, parses to. */
  function MetaOf(data: Option<DocFile>, read: DocFile -> string): Option<Meta> {
    match data
    case None => None
    case Some(f) =>
      match ParseData(read(f))
      case Ok(m) => Some(m)
      case Err(_) => None
  }

  /** The record an id should end up with: the last file of each kind, the metadata read from the last `D.txt`. */
  function Expected(files: seq<DocFile>, id: string, read: DocFile -> string): TmpCard {
    var meta := LastMeta(files, id, read);
    TmpCard(id, LastWith(files, id, QUESTION_SUFFIX), LastWith(files, id, ANSWER_SUFFIX), LastWith(files, id, DATA_SUFFIX),
            if meta.Some? then Some(meta.value.date) else None, if meta.Some? then meta.value.level else 0)
  }

  /** The dictionary `d` is what indexing `files` should give. */
  ghost predicate Indexes(files: seq<DocFile>, read: DocFile -> string, d: CardDict) {
    forall id :: IndexesAt(files, read, d, id)
  }

  lemma LastWithSnoc(p: seq<DocFile>, f: DocFile, id: string, suffix: string)
    ensures LastWith(p + [f], id, suffix) == if SplitFileName(f.name) == Some((id, suffix)) then Some(f) else LastWith(p, id, suffix)
  {
    assert (p + [f])[..|p|] == p;
  }

  /** The per-id facts `Indexes` asks of `d` for `id`. */
  ghost predicate IndexesAt(files: seq<DocFile>, read: DocFile -> string, d: CardDict, id: string) {
    (id in d.entries <==> Mentioned(files, id)) && (id in d.entries ==> d.entries[id] == Expected(files, id, read))
  }

  /** `f` fills a slot of `id`'s record. */
  predicate Touches(f: DocFile, id: string) {
    && SplitFileName(f.name).Some?
    && SplitFileName(f.name).value.0 == id
    && (SplitFileName(f.name).value.1 == QUESTION_SUFFIX || SplitFileName(f.name).value.1 == ANSWER_SUFFIX
        || SplitFileName(f.name).value.1 == DATA_SUFFIX)
  }

  lemma AddFileElsewhere(d: CardDict, f: DocFile, read: DocFile -> string, id: string)
    requires AddFile(d, f, read).Ok? && !Touches(f, id)
    ensures id in AddFile(d, f, read).value.entries <==> id in d.entries
    ensures id in d.entries ==> AddFile(d, f, read).value.entries[id] == d.entries[id]
  {
  }

  lemma ExpectedElsewhere(p: seq<DocFile>, f: DocFile, read: DocFile -> string, id: string)
    requires !Touches(f, id)
    ensures Mentioned(p + [f], id) == Mentioned(p, id)
    ensures Expected(p + [f], id, read) == Expected(p, id, read)
  {
    LastWithSnoc(p, f, id, QUESTION_SUFFIX);
    LastWithSnoc(p, f, id, ANSWER_SUFFIX);
    LastWithSnoc(p, f, id, DATA_SUFFIX);
  }

  /** A file that names another id, or no recognised slot, leaves `id` as it was. */
  lemma StepOther(p: seq<DocFile>, f: DocFile, read: DocFile -> string, d: CardDict, id: string)
    requires IndexesAt(p, read, d, id)
    requires AddFile(d, f, read).Ok? && !Touches(f, id)
    ensures IndexesAt(p + [f], read, AddFile(d, f, read).value, id)
  {
    AddFileElsewhere(d, f, read, id);
    ExpectedElsewhere(p, f, read, id);
  }

  lemma EntryExpected(p: seq<DocFile>, read: DocFile -> string, d: CardDict, id: string)
    requires IndexesAt(p, read, d, id)
    ensures Entry(d, id) == Expected(p, id, read)
  {
  }

  lemma StepQuestion(p: seq<DocFile>, f: DocFile, read: DocFile -> string, d: CardDict, id: string)
    requires IndexesAt(p, read, d, id)
    requires SplitFileName(f.name) == Some((id, QUESTION_SUFFIX))
    ensures AddFile(d, f, read).Ok?
    ensures IndexesAt(p + [f], read, AddFile(d, f, read).value, id)
  {
    assert QUESTION_SUFFIX[0] != ANSWER_SUFFIX[0] && QUESTION_SUFFIX[0] != DATA_SUFFIX[0] && ANSWER_SUFFIX[0] != DATA_SUFFIX[0];
    LastWithSnoc(p, f, id, QUESTION_SUFFIX);
    LastWithSnoc(p, f, id, ANSWER_SUFFIX);
    LastWithSnoc(p, f, id, DATA_SUFFIX);
    assert LastWith(p + [f], id, QUESTION_SUFFIX) == Some(f);
    assert LastWith(p + [f], id, DATA_SUFFIX) == LastWith(p, id, DATA_SUFFIX);
    assert LastMeta(p + [f], id, read) == LastMeta(p, id, read);
    EntryExpected(p, read, d, id);
    assert AddFile(d, f, read).value.entries[id] == Entry(d, id).(question := Some(f));
    assert Expected(p + [f], id, read) == Expected(p, id, read).(question := Some(f));
  }

  lemma StepAnswer(p: seq<DocFile>, f: DocFile, read: DocFile -> string, d: CardDict, id: string)
    requires IndexesAt(p, read, d, id)
    requires SplitFileName(f.name) == Some((id, ANSWER_SUFFIX))
    ensures AddFile(d, f, read).Ok?
    ensures IndexesAt(p + [f], read, AddFile(d, f, read).value, id)
  {
    assert QUESTION_SUFFIX[0] != ANSWER_SUFFIX[0] && QUESTION_SUFFIX[0] != DATA_SUFFIX[0] && ANSWER_SUFFIX[0] != DATA_SUFFIX[0];
    LastWithSnoc(p, f, id, QUESTION_SUFFIX);
    LastWithSnoc(p, f, id, ANSWER_SUFFIX);
    LastWithSnoc(p, f, id, DATA_SUFFIX);
    assert LastWith(p + [f], id, ANSWER_SUFFIX) == Some(f);
    assert LastWith(p + [f], id, DATA_SUFFIX) == LastWith(p, id, DATA_SUFFIX);
    assert LastMeta(p + [f], id, read) == LastMeta(p, id, read);
    EntryExpected(p, read, d, id);
    assert AddFile(d, f, read).value.entries[id] == Entry(d, id).(answer := Some(f));
    assert Expected(p + [f], id, read) == Expected(p, id, read).(answer := Some(f));
  }

  lemma AddDataEntry(d: CardDict, f: DocFile, read: DocFile -> string, id: string, m: Meta)
    requires SplitFileName(f.name) == Some((id, DATA_SUFFIX))
    requires ParseData(read(f)) == Ok(m)
    ensures AddFile(d, f, read) == Ok(Put(d, id, Entry(d, id).(data := Some(f), level := m.level, date := Some(m.date))))
  {
  }

  lemma ExpectedData(p: seq<DocFile>, f: DocFile, read: DocFile -> string, id: string, m: Meta)
    requires SplitFileName(f.name) == Some((id, DATA_SUFFIX))
    requires ParseData(read(f)) == Ok(m)
    ensures Expected(p + [f], id, read) == Expected(p, id, read).(data := Some(f), level := m.level, date := Some(m.date))
    ensures Mentioned(p + [f], id)
  {
    assert QUESTION_SUFFIX[0] != DATA_SUFFIX[0] && ANSWER_SUFFIX[0] != DATA_SUFFIX[0];
    LastWithSnoc(p, f, id, QUESTION_SUFFIX);
    LastWithSnoc(p, f, id, ANSWER_SUFFIX);
    LastWithSnoc(p, f, id, DATA_SUFFIX);
    assert LastWith(p + [f], id, DATA_SUFFIX) == Some(f);
    assert LastMeta(p + [f], id, read) == Some(m);
  }

  lemma StepData(p: seq<DocFile>, f: DocFile, read: DocFile -> string, d: CardDict, id: string)
    requires IndexesAt(p, read, d, id)
    requires SplitFileName(f.name) == Some((id, DATA_SUFFIX))
    requires ParseData(read(f)).Ok?
    ensures AddFile(d, f, read).Ok?
    ensures IndexesAt(p + [f], read, AddFile(d, f, read).value, id)
  {
    var m := ParseData(read(f)).value;
    EntryExpected(p, read, d, id);
    AddDataEntry(d, f, read, id, m);
    ExpectedData(p, f, read, id, m);
  }

  lemma StepIndexesAt(p: seq<DocFile>, f: DocFile, read: DocFile -> string, d: CardDict, id: string)
    requires IndexesAt(p, read, d, id)
    requires AddFile(d, f, read).Ok?
    ensures IndexesAt(p + [f], read, AddFile(d, f, read).value, id)
  {
    if !Touches(f, id) {
      StepOther(p, f, read, d, id);
    } else if SplitFileName(f.name).value.1 == QUESTION_SUFFIX {
      StepQuestion(p, f, read, d, id);
    } else if SplitFileName(f.name).value.1 == ANSWER_SUFFIX {
      StepAnswer(p, f, read, d, id);
    } else {
      StepData(p, f, read, d, id);
    }
  }

  lemma StepIndexes(p: seq<DocFile>, f: DocFile, read: DocFile -> string, d: CardDict)
    requires Indexes(p, read, d)
    requires AddFile(d, f, read).Ok?
    ensures Indexes(p + [f], read, AddFile(d, f, read).value)
  {
    forall id ensures IndexesAt(p + [f], read, AddFile(d, f, read).value, id) {
      assert IndexesAt(p, read, d, id);
      StepIndexesAt(p, f, read, d, id);
    }
  }

  lemma AllDataParseSnoc(p: seq<DocFile>, f: DocFile, read: DocFile -> string)
    ensures AllDataParse(p + [f], read) <==> AllDataParse(p, read) && (IsDataFile(f) ==> ParseData(read(f)).Ok?)
  {
    assert forall i :: 0 <= i < |p| ==> (p + [f])[i] == p[i];
    assert (p + [f])[|p|] == f;
  }

  /**
   * Indexing a listing from an empty dictionary succeeds exactly when every
   * metadata file parses; it then holds an entry for exactly the ids that some
   * recognised file names, and each entry carries the last file of each kind
   * for its id (a later file overwrites an earlier one).
   */
  lemma {:induction false} IndexCharacterized(files: seq<DocFile>, read: DocFile -> string)
    ensures IndexFiles(EmptyDict, files, read).ok <==> AllDataParse(files, read)
    ensures IndexFiles(EmptyDict, files, read).ok ==> Indexes(files, read, IndexFiles(EmptyDict, files, read).dict)
    decreases |files|
  {
    if files != [] {
      var p := files[..|files| - 1];
      var f := files[|files| - 1];
      assert files == p + [f];
      IndexCharacterized(p, read);
      AllDataParseSnoc(p, f, read);
      var prev := IndexFiles(EmptyDict, p, read);
      if prev.ok && AddFile(prev.dict, f, read).Ok? {
        StepIndexes(p, f, read, prev.dict);
      }
    }
  }

  /** The card that `files` complete for `c.id`: the last Q, A and D files, and the metadata the D file holds. */
  predicate Complete(files: seq<DocFile>, read: DocFile -> string, c: Card) {
    && LastWith(files, c.id, QUESTION_SUFFIX) == Some(c.question)
    && LastWith(files, c.id, ANSWER_SUFFIX) == Some(c.answer)
    && LastWith(files, c.id, DATA_SUFFIX) == Some(c.data)
    && ParseData(read(c.data)) == Ok(Meta(c.level, c.date))
  }

  /** An id's expected record is valid, and gives card `c`, exactly when `files` complete `c`. */
  lemma CompleteIffExpected(files: seq<DocFile>, read: DocFile -> string, c: Card)
    ensures (IsValid(Expected(files, c.id, read)) && c == Finalize(Expected(files, c.id, read))) <==> Complete(files, read, c)
  {
    var t := Expected(files, c.id, read);
    if Complete(files, read, c) {
      assert t == TmpCard(c.id, Some(c.question), Some(c.answer), Some(c.data), Some(c.date), c.level);
    }
  }

  /**
   * `listFiles` then `filterValidCardList` on a fresh parser yields, each
   * once, exactly the cards whose question, answer and metadata files are all
   * in the listing; partial groups are dropped.
   */
  lemma ValidCardsOfListing(files: seq<DocFile>, read: DocFile -> string)
    requires IndexFiles(EmptyDict, files, read).ok
    ensures var cards := ValidCards(IndexFiles(EmptyDict, files, read).dict);
      && (forall c :: c in cards <==> Complete(files, read, c))
      && (forall i, j :: 0 <= i < j < |cards| ==> cards[i].id != cards[j].id)
  {
    var d := IndexFiles(EmptyDict, files, read).dict;
    IndexCharacterized(files, read);
    ValidCardsExactly(d);
    forall c ensures c in ValidCards(d) <==> Complete(files, read, c) {
      assert IndexesAt(files, read, d, c.id);
      CompleteIffExpected(files, read, c);
      if Complete(files, read, c) {
        assert Mentioned(files, c.id);
      }
    }
  }

  /** The valid cards of a listing, or None when `listFiles` throws. */
  function DeckCards(files: seq<DocFile>, read: DocFile -> string): Option<seq<Card>> {
    var ix := IndexFiles(EmptyDict, files, read);
    if ix.ok then Some(ValidCards(ix.dict)) else None
  }

  class DeckParser {
    const dir: DocFile
    var cardDict: CardDict

    ghost predicate Valid()
      reads this
    {
      WellFormed(cardDict)
    }

    constructor (dir: DocFile)
      ensures Valid() && this.dir == dir && cardDict == EmptyDict
    {
      this.dir := dir;
      cardDict := EmptyDict;
    }

    /** `listFiles`: feed every entry of the directory to the dictionary; `ok` is false where it throws. */
    method ListFiles(storage: Storage) returns (ok: bool)
      requires Valid()
      modifies this
      ensures Valid()
      ensures Indexing(cardDict, ok) == IndexFiles(old(cardDict), storage.children(dir), storage.read)
    {
      var files := storage.children(dir);
      var i := 0;
      while i < |files|
        invariant 0 <= i <= |files|
        invariant Valid()
        invariant IndexFiles(old(cardDict), files[..i], storage.read) == Indexing(cardDict, true)
      {
        assert files[..i + 1] == files[..i] + [files[i]];
        IndexFilesSnoc(old(cardDict), files[..i], files[i], storage.read);
        var step := AddFile(cardDict, files[i], storage.read);
        if step.Err? {
          FailureSticks(old(cardDict), files, i + 1, storage.read);
          return false;
        }
        cardDict := step.value;
        i := i + 1;
      }
      assert files[..i] == files;
      return true;
    }

    /** `filterValidCardList`. */
    function FilterValidCardList(): (cards: seq<Card>)
      requires Valid()
      reads this
      ensures forall c :: c in cards <==> c.id in cardDict.entries && IsValid(cardDict.entries[c.id]) && c == Finalize(cardDict.entries[c.id])
    {
      ValidCardsExactly(cardDict);
      ValidCards(cardDict)
    }
  }

  /**
   * The three lines that open a deck (`DeckParser(deckDir)`, `listFiles()`,
   * `filterValidCardList()`); None where `listFiles` throws.
   */
  method LoadValidCards(deckDir: DocFile, storage: Storage) returns (cards: Option<seq<Card>>)
    ensures cards == DeckCards(storage.children(deckDir), storage.read)
    ensures cards.Some? <==> AllDataParse(storage.children(deckDir), storage.read)
  {
    IndexCharacterized(storage.children(deckDir), storage.read);
    var parser := new DeckParser(deckDir);
    var ok := parser.ListFiles(storage);
    if ok {
      cards := Some(parser.FilterValidCardList());
    } else {
      cards := None;
    }
  }
}
