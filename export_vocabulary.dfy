/**
 * The vocabulary report: for each item, the values of seven fields are
 * matched against the vocabulary's preferred labels and collected, one row
 * per distinct source value and field, into a ten-column table.
 */
module ExportVocabulary {
  import opened Wrappers
  import opened Text
  import opened AppState
  import opened ExportTypes
  import opened ExportMapping
  import opened Sorting

  /** A report row (an array of ten strings in the source). */
  type Row = seq<string>

  /** The string-similarity library's `Rating`. */
  datatype Rating = Rating(target: string, rating: real)

  /** The library's `findBestMatch` answer: all ratings and the best one. */
  datatype BestMatch = BestMatch(ratings: seq<Rating>, bestMatch: Rating)

  /**
   * What the report takes from outside: the library's best-match search for a
   * value against the preferred labels (None where it throws), the rendering
   * `toFixed(3)`, and the collation `localeCompare` on two source values.
   */
  datatype Matching = Matching(
    findBestMatch: string -> Option<BestMatch>,
    toFixed3: real -> string,
    localeCompare: (string, string) -> int)

  /** The per-field accumulators of `IVocabularyReportField`. */
  datatype FieldData = FieldData(
    contributor: seq<Row>,
    creator: seq<Row>,
    publisher: seq<Row>,
    subject: seq<Row>,
    donor: seq<Row>,
    place: seq<Row>,
    period: seq<Row>)

  const Header: Row := [
    "Source Field", "Target Field", "Source Value", "Exact Match Value",
    "Best Match Value", "Best Match Rating", "Secondary Match Value",
    "Secondary Match Rating", "Tertiary Match Value", "Tertiary Match Rating"]

  /** The trimmed pieces of a delimited value. */
  function TrimAll(parts: seq<string>): (r: seq<string>)
    ensures |r| == |parts|
    decreases |parts|
  {
    if |parts| == 0 then [] else TrimAll(parts[..|parts| - 1]) + [Trim(parts[|parts| - 1])]
  }

  /** The trimmed values a raw nick value holds. */
  function NickValues(cdm: RawItem, nick: string): seq<string>
  {
    TrimAll(Split(Show(cdm, nick), FieldDelimiter))
  }

  /** The value is among those a raw nick value holds. */
  predicate Holds(cdm: RawItem, nick: string, value: string)
  {
    value in NickValues(cdm, nick)
  }

  /** The values of each nick, in nick order. */
  function NickLists(cdm: RawItem, nicks: seq<string>): seq<seq<string>>
  {
    seq(|nicks|, i requires 0 <= i < |nicks| => NickValues(cdm, nicks[i]))
  }

  /** The position of the first list that holds `value`. */
  function FirstHolding(lists: seq<seq<string>>, value: string): (r: Option<nat>)
    ensures r.Some? ==> r.value < |lists|
    decreases |lists|
  {
    if |lists| == 0 then None
    else if value in lists[0] then Some(0)
    else
      match FirstHolding(lists[1..], value)
      case None => None
      case Some(i) => Some(i + 1)
  }

  /** No list holds the value exactly when there is no first one; the first one holds it and no earlier one does. */
  lemma {:induction false} FirstHoldingFacts(lists: seq<seq<string>>, value: string)
    ensures FirstHolding(lists, value).None? <==> forall i :: 0 <= i < |lists| ==> value !in lists[i]
    ensures FirstHolding(lists, value).Some? ==>
      value in lists[FirstHolding(lists, value).value] &&
      forall i :: 0 <= i < FirstHolding(lists, value).value ==> value !in lists[i]
    decreases |lists|
  {
    if |lists| > 0 && value !in lists[0] {
      var rest := lists[1..];
      FirstHoldingFacts(rest, value);
      assert forall i :: 0 < i < |lists| ==> lists[i] == rest[i - 1];
    }
  }

  /** The list at `i` is the first holding the value when it holds it and no earlier one does. */
  lemma {:induction false} FirstHoldingIs(lists: seq<seq<string>>, value: string, i: nat)
    requires i < |lists| && value in lists[i]
    requires forall j :: 0 <= j < i ==> value !in lists[j]
    ensures FirstHolding(lists, value) == Some(i)
    decreases i
  {
    if i > 0 {
      var rest := lists[1..];
      assert value !in lists[0];
      assert rest[i - 1] == lists[i];
      assert forall j :: 0 <= j < i - 1 ==> rest[j] == lists[j + 1];
      FirstHoldingIs(rest, value, i - 1);
    }
  }

  /** `collectionFieldInfo.find` by nick. */
  function FindInfo(info: seq<FieldInfo>, nick: string): (r: Option<FieldInfo>)
    ensures r.None? <==> forall f :: f in info ==> f.nick != nick
    ensures r.Some? ==> r.value in info && r.value.nick == nick
    decreases |info|
  {
    if |info| == 0 then None
    else if info[0].nick == nick then Some(info[0])
    else FindInfo(info[1..], nick)
  }

  /**
   * `_cdmFieldByValue`: the collection field name of the first nick of the
   * field's crosswalk entry whose value holds `value`; a TypeError when the
   * field has no entry or no field info has that nick.
   */
  function CdmFieldByValue(ctx: ExportContext, value: string, field: string, item: MappedItem): Result<string, Failure>
  {
    if field !in ctx.crosswalk then Err(Crash)
    else
      var nicks := ctx.crosswalk[field].nicks;
      match FirstHolding(NickLists(item.cdm, nicks), value)
      case None => Ok("UNKNOWN")
      case Some(i) =>
        match FindInfo(ctx.fieldInfo, nicks[i])
        case None => Err(Crash)
        case Some(f) => Ok(f.name)
  }

  /** The lists of the nicks hold what each nick's value holds. */
  lemma NickListsHold(cdm: RawItem, nicks: seq<string>, value: string, i: nat)
    requires i < |nicks|
    ensures |NickLists(cdm, nicks)| == |nicks|
    ensures Holds(cdm, nicks[i], value) <==> value in NickLists(cdm, nicks)[i]
  {
  }

  /** `_cdmFieldByValue` is "UNKNOWN" when no nick of the field holds the value. */
  lemma CdmFieldUnknown(ctx: ExportContext, value: string, field: string, item: MappedItem)
    requires field in ctx.crosswalk
    requires forall n :: n in ctx.crosswalk[field].nicks ==> !Holds(item.cdm, n, value)
    ensures CdmFieldByValue(ctx, value, field, item) == Ok("UNKNOWN")
  {
    var nicks := ctx.crosswalk[field].nicks;
    var lists := NickLists(item.cdm, nicks);
    FirstHoldingFacts(lists, value);
    forall i | 0 <= i < |lists|
      ensures value !in lists[i]
    {
      NickListsHold(item.cdm, nicks, value, i);
      assert nicks[i] in nicks;
    }
  }

  /** `_cdmFieldByValue` follows the first nick of the field that holds the value. */
  lemma CdmFieldFirst(ctx: ExportContext, value: string, field: string, item: MappedItem, i: nat)
    requires field in ctx.crosswalk
    requires i < |ctx.crosswalk[field].nicks|
    requires Holds(item.cdm, ctx.crosswalk[field].nicks[i], value)
    requires forall j :: 0 <= j < i ==> !Holds(item.cdm, ctx.crosswalk[field].nicks[j], value)
    ensures CdmFieldByValue(ctx, value, field, item) ==
      match FindInfo(ctx.fieldInfo, ctx.crosswalk[field].nicks[i])
      case None => Err(Crash)
      case Some(f) => Ok(f.name)
  {
    var nicks := ctx.crosswalk[field].nicks;
    var lists := NickLists(item.cdm, nicks);
    NickListsHold(item.cdm, nicks, value, i);
    forall j | 0 <= j < i
      ensures value !in lists[j]
    {
      NickListsHold(item.cdm, nicks, value, j);
    }
    FirstHoldingIs(lists, value, i);
  }

  /**
   * The three outcomes of `_cdmFieldByValue` for a field in the crosswalk:
   * "UNKNOWN" when no nick holds the value, otherwise the name of the field
   * info of the first nick that does, or a TypeError when there is none.
   */
  lemma CdmFieldCases(ctx: ExportContext, value: string, field: string, item: MappedItem)
    requires field in ctx.crosswalk
    ensures var nicks := ctx.crosswalk[field].nicks;
      var r := CdmFieldByValue(ctx, value, field, item);
      ((forall n :: n in nicks ==> !Holds(item.cdm, n, value)) ==> r == Ok("UNKNOWN")) &&
      (forall i :: (0 <= i < |nicks| && Holds(item.cdm, nicks[i], value) &&
          (forall j :: 0 <= j < i ==> !Holds(item.cdm, nicks[j], value))) ==>
        r == (match FindInfo(ctx.fieldInfo, nicks[i])
              case None => Err(Crash)
              case Some(f) => Ok(f.name)))
  {
    var nicks := ctx.crosswalk[field].nicks;
    if forall n :: n in nicks ==> !Holds(item.cdm, n, value) {
      CdmFieldUnknown(ctx, value, field, item);
    }
    forall i | 0 <= i < |nicks| && Holds(item.cdm, nicks[i], value) && (forall j :: 0 <= j < i ==> !Holds(item.cdm, nicks[j], value))
      ensures CdmFieldByValue(ctx, value, field, item) ==
        match FindInfo(ctx.fieldInfo, nicks[i])
        case None => Err(Crash)
        case Some(f) => Ok(f.name)
    {
      CdmFieldFirst(ctx, value, field, item, i);
    }
  }

  /** The rating order of `_findRunnerUpMatch`'s comparator: higher ratings first. */
  predicate Higher(a: Rating, b: Rating)
  {
    a.rating > b.rating
  }

  function Ranked(ratings: seq<Rating>): (r: seq<Rating>)
    ensures multiset(r) == multiset(ratings) && |r| == |ratings|
  {
    SortBy(ratings, Higher)
  }

  /**
   * `_findRunnerUpMatch`: positions 1 and 2 of the ratings sorted by
   * descending rating; a TypeError when there are fewer than three ratings
   * (the caller reads the rating of the missing third entry).
   */
  function FindRunnerUpMatch(ratings: seq<Rating>): (r: Result<seq<Rating>, Failure>)
    ensures r.Err? <==> |ratings| < 3
    ensures r.Ok? ==> |r.value| == 2 && r.value[0] in ratings && r.value[1] in ratings
  {
    if |ratings| < 3 then Err(Crash)
    else
      var ranked := Ranked(ratings);
      assert ranked[1] in multiset(ranked) && ranked[2] in multiset(ranked);
      Ok([ranked[1], ranked[2]])
  }

  predicate Descending(s: seq<Rating>)
  {
    forall i, j :: 0 <= i < j < |s| ==> s[i].rating >= s[j].rating
  }

  /** Inserting an entry no higher than a bound keeps every entry within it. */
  lemma InsertBounded(x: Rating, s: seq<Rating>, bound: real)
    requires x.rating <= bound
    requires forall y :: y in s ==> y.rating <= bound
    ensures forall y :: y in InsertBefore(x, s, Higher) ==> y.rating <= bound
  {
    var r := InsertBefore(x, s, Higher);
    InsertPermutes(x, s, Higher);
    forall y | y in r
      ensures y.rating <= bound
    {
      assert y in multiset(r);
    }
  }

  lemma ConsDescending(a: Rating, s: seq<Rating>)
    requires Descending(s)
    requires forall y :: y in s ==> y.rating <= a.rating
    ensures Descending([a] + s)
  {
    var r := [a] + s;
    forall i, j | 0 <= i < j < |r|
      ensures r[i].rating >= r[j].rating
    {
      assert r[j] == s[j - 1];
      if i > 0 {
        assert r[i] == s[i - 1];
      } else {
        assert r[j] in s;
      }
    }
  }

  lemma {:induction false} InsertDescending(x: Rating, s: seq<Rating>)
    requires Descending(s)
    ensures Descending(InsertBefore(x, s, Higher))
    decreases |s|
  {
    if |s| == 0 {
    } else if Higher(x, s[0]) {
      ConsDescending(x, s);
    } else {
      var rest := s[1..];
      assert Descending(rest);
      InsertDescending(x, rest);
      forall y | y in rest
        ensures y.rating <= s[0].rating
      {
        var k :| 0 <= k < |rest| && rest[k] == y;
        assert s[k + 1] == y;
      }
      InsertBounded(x, rest, s[0].rating);
      ConsDescending(s[0], InsertBefore(x, rest, Higher));
    }
  }

  /** The ranked ratings are in descending order of rating. */
  lemma {:induction false} RankedDescending(ratings: seq<Rating>)
    ensures Descending(Ranked(ratings))
    decreases |ratings|
  {
    if |ratings| > 0 {
      RankedDescending(ratings[..|ratings| - 1]);
      InsertDescending(ratings[|ratings| - 1], Ranked(ratings[..|ratings| - 1]));
    }
  }

  /** Two ratings are tied under `Higher` exactly when they are equal. */
  lemma HigherTied(a: Rating, b: Rating)
    ensures Tied(Higher, a, b) <==> a.rating == b.rating
  {
  }

  /** The comparator `b.rating - a.rating` is a consistent order. */
  lemma HigherWeakOrder()
    ensures WeakOrder(Higher)
  {
    forall a: Rating, b: Rating, c: Rating | Tied(Higher, a, b) && Tied(Higher, b, c)
      ensures Tied(Higher, a, c)
    {
      HigherTied(a, b);
      HigherTied(b, c);
      HigherTied(a, c);
    }
  }

  /**
   * Ratings with the same score keep their input order, so among tied
   * ratings the earlier one in `ratings` becomes the runner-up.
   */
  lemma RankedStable(ratings: seq<Rating>, x: Rating)
    ensures Ties(Ranked(ratings), x, Higher) == Ties(ratings, x, Higher)
  {
    HigherWeakOrder();
    SortByStable(ratings, x, Higher);
  }

  /**
   * The runner-up matches are the second and third best: after the best
   * entry and the two returned, every other rating is at most the third's.
   */
  lemma RunnerUpRanks(ratings: seq<Rating>)
    requires |ratings| >= 3
    ensures var ranked := Ranked(ratings);
      var runnerUp := FindRunnerUpMatch(ratings).value;
      runnerUp == [ranked[1], ranked[2]] &&
      ranked[0].rating >= runnerUp[0].rating >= runnerUp[1].rating &&
      multiset{ranked[0], runnerUp[0], runnerUp[1]} <= multiset(ratings) &&
      forall x :: x in multiset(ratings) - multiset{ranked[0], runnerUp[0], runnerUp[1]} ==> x.rating <= runnerUp[1].rating
  {
    var ranked := Ranked(ratings);
    RankedDescending(ratings);
    assert ranked == [ranked[0], ranked[1], ranked[2]] + ranked[3..];
    assert multiset(ranked) == multiset{ranked[0], ranked[1], ranked[2]} + multiset(ranked[3..]);
    forall x | x in multiset(ranked[3..])
      ensures x.rating <= ranked[2].rating
    {
      var k :| 0 <= k < |ranked[3..]| && ranked[3..][k] == x;
      assert ranked[k + 3] == x;
    }
  }

  /** `(rating * 100).toFixed(3)` followed by a percent sign. */
  function Percent(m: Matching, rating: real): string
  {
    m.toFixed3(rating * 100.0) + "%"
  }

  function ExactRow(cdmField: string, fieldName: string, v: string): Row
  {
    [cdmField, fieldName, v, v, "", "", "", "", "", ""]
  }

  function MatchRow(m: Matching, cdmField: string, fieldName: string, v: string, best: Rating, runnerUp: seq<Rating>): Row
    requires |runnerUp| == 2
  {
    [cdmField, fieldName, v, "", best.target, Percent(m, best.rating),
     runnerUp[0].target, Percent(m, runnerUp[0].rating), runnerUp[1].target, Percent(m, runnerUp[1].rating)]
  }

  /** Some row of the accumulator has `v` as its source value (column 2). */
  predicate HasSource(data: seq<Row>, v: string)
  {
    exists f :: f in data && |f| > 2 && f[2] == v
  }

  /**
   * The row `_getVocabularyReportRow` builds for a value it has not met yet:
   * the exact row when the value is a preferred label, otherwise the best
   * match and the two runner-ups; or the failure on the way.
   */
  function NewRow(prefLabels: seq<string>, m: Matching, fieldName: string, v: string, cdmField: Result<string, Failure>): Result<Row, Failure>
  {
    var name :- cdmField;
    if v in prefLabels then Ok(ExactRow(name, fieldName, v))
    else
      match m.findBestMatch(v)
      case None => Err(Crash)
      case Some(best) =>
        var runnerUp :- FindRunnerUpMatch(best.ratings);
        Ok(MatchRow(m, name, fieldName, v, best.bestMatch, runnerUp))
  }

  /** The row of a value met for the first time in the field `fieldLabel` of the item. */
  function ValueRow(ctx: ExportContext, m: Matching, fieldName: string, fieldLabel: string, item: MappedItem, v: string): Result<Row, Failure>
  {
    NewRow(ctx.prefLabels, m, fieldName, v, CdmFieldByValue(ctx, v, fieldLabel, item))
  }

  /** A trimmed piece of the field's value, with the row it would get if new. */
  datatype Entry = Entry(value: string, row: Result<Row, Failure>)

  /** The entries of the pieces, in order. */
  function Entries(ctx: ExportContext, m: Matching, fieldName: string, fieldLabel: string, item: MappedItem, pieces: seq<string>): seq<Entry>
  {
    seq(|pieces|, k requires 0 <= k < |pieces| =>
      Entry(Trim(pieces[k]), ValueRow(ctx, m, fieldName, fieldLabel, item, Trim(pieces[k]))))
  }

  /** One piece: an empty value or one already present adds nothing; a new one adds its row, or fails. */
  function AddEntry(data: seq<Row>, e: Entry): Result<seq<Row>, Failure>
  {
    if HasSource(data, e.value) || e.value == "" then Ok(data)
    else
      var row :- e.row;
      Ok(data + [row])
  }

  /** The loop over the pieces; the first failure ends it. */
  function AddEntries(entries: seq<Entry>, data: seq<Row>): Result<seq<Row>, Failure>
    decreases |entries|
  {
    if |entries| == 0 then Ok(data)
    else
      var prev :- AddEntries(entries[..|entries| - 1], data);
      AddEntry(prev, entries[|entries| - 1])
  }

  /** The rows `_getVocabularyReportRow` appends for one field of one item. */
  function RowsFor(ctx: ExportContext, m: Matching, fieldName: string, fieldLabel: string, item: MappedItem, data: seq<Row>): Result<seq<Row>, Failure>
  {
    if fieldLabel !in item.fieldValues then Err(Crash)
    else if item.fieldValues[fieldLabel] == "" then Ok(data)
    else AddEntries(Entries(ctx, m, fieldName, fieldLabel, item, Split(item.fieldValues[fieldLabel], FieldDelimiter)), data)
  }

  lemma EntriesPrefix(ctx: ExportContext, m: Matching, fieldName: string, fieldLabel: string, item: MappedItem, pieces: seq<string>, i: nat)
    requires i < |pieces|
    ensures var es := Entries(ctx, m, fieldName, fieldLabel, item, pieces);
      es[..i + 1][..i] == es[..i] &&
      es[i] == Entry(Trim(pieces[i]), ValueRow(ctx, m, fieldName, fieldLabel, item, Trim(pieces[i])))
  {
  }

  /**
   * `_getVocabularyReportRow`: appends the rows of the field to the
   * accumulator, or fails as the source does.
   */
  method VocabularyReportRow(ctx: ExportContext, m: Matching, fieldName: string, fieldLabel: string, item: MappedItem, fieldData: seq<Row>)
    returns (r: Result<seq<Row>, Failure>)
    ensures r == RowsFor(ctx, m, fieldName, fieldLabel, item, fieldData)
  {
    if fieldLabel !in item.fieldValues {
      return Err(Crash);
    }
    var value := item.fieldValues[fieldLabel];
    if value == "" {
      return Ok(fieldData);
    }
    var values := Split(value, FieldDelimiter);
    ghost var es := Entries(ctx, m, fieldName, fieldLabel, item, values);
    var data := fieldData;
    var i := 0;
    while i < |values|
      invariant 0 <= i <= |values|
      invariant AddEntries(es[..i], fieldData) == Ok(data)
    {
      EntriesPrefix(ctx, m, fieldName, fieldLabel, item, values, i);
      var next := AddPiece(ctx, m, fieldName, fieldLabel, item, values[i], data);
      i := i + 1;
      if next.Err? {
        FailureKept(es, fieldData, i);
        return next;
      }
      data := next.value;
    }
    assert es[..i] == es;
    return Ok(data);
  }

  /**
   * The loop body of `_getVocabularyReportRow` for one piece of the field's
   * value, specified by `AddEntry`. It is a method of its own so that the
   * loop's proof sees one step only through this contract.
   */
  method AddPiece(ctx: ExportContext, m: Matching, fieldName: string, fieldLabel: string, item: MappedItem, piece: string, data: seq<Row>)
    returns (r: Result<seq<Row>, Failure>)
    ensures r == AddEntry(data, Entry(Trim(piece), ValueRow(ctx, m, fieldName, fieldLabel, item, Trim(piece))))
  {
    var v := Trim(piece);
    var present := HasSource(data, v);
    if present || v == "" {
      return Ok(data);
    }
    var cdmField := CdmFieldByValue(ctx, v, fieldLabel, item);
    if cdmField.Err? {
      return Err(cdmField.error);
    }
    var row := MakeRow(ctx.prefLabels, m, fieldName, v, cdmField.value);
    if row.Err? {
      return Err(row.error);
    }
    return Ok(data + [row.value]);
  }

  /**
   * The row of a new value once its collection field name is known: the
   * statements of the source, specified by `NewRow`.
   */
  method MakeRow(prefLabels: seq<string>, m: Matching, fieldName: string, v: string, name: string) returns (r: Result<Row, Failure>)
    ensures r == NewRow(prefLabels, m, fieldName, v, Ok(name))
  {
    if v in prefLabels {
      return Ok(ExactRow(name, fieldName, v));
    }
    var best := m.findBestMatch(v);
    if best.None? {
      return Err(Crash);
    }
    var runnerUp := FindRunnerUpMatch(best.value.ratings);
    if runnerUp.Err? {
      return Err(runnerUp.error);
    }
    return Ok(MatchRow(m, name, fieldName, v, best.value.bestMatch, runnerUp.value));
  }

  /** A failure on a piece is the failure of the whole field. */
  lemma {:induction false} FailureKept(entries: seq<Entry>, data: seq<Row>, j: nat)
    requires j <= |entries|
    requires AddEntries(entries[..j], data).Err?
    ensures AddEntries(entries, data) == AddEntries(entries[..j], data)
    decreases |entries| - j
  {
    if j < |entries| {
      assert entries[..j + 1][..j] == entries[..j];
      FailureKept(entries, data, j + 1);
    } else {
      assert entries[..j] == entries;
    }
  }

  /**
   * A well-formed row of the field `fieldName`: ten columns, the field name
   * in column 1, a non-empty source value in column 2, and either the exact
   * match (the value itself, then six empty columns) when the value is a
   * preferred label, or an empty exact-match column otherwise.
   */
  predicate RowOk(row: Row, fieldName: string, prefLabels: seq<string>)
  {
    |row| == 10 && row[1] == fieldName && row[2] != "" &&
    (row[2] in prefLabels ==> row[3..] == [row[2], "", "", "", "", "", ""]) &&
    (row[2] !in prefLabels ==> row[3] == "")
  }

  /** No two rows of an accumulator share a source value. */
  predicate DistinctSources(data: seq<Row>)
  {
    forall i, j :: 0 <= i < j < |data| && |data[i]| > 2 && |data[j]| > 2 ==> data[i][2] != data[j][2]
  }

  predicate Good(data: seq<Row>, fieldName: string, prefLabels: seq<string>)
  {
    (forall row :: row in data ==> RowOk(row, fieldName, prefLabels)) && DistinctSources(data)
  }

  /** Every non-empty value of the entries has a row. */
  predicate Covered(data: seq<Row>, entries: seq<Entry>)
  {
    forall k :: 0 <= k < |entries| ==> entries[k].value == "" || HasSource(data, entries[k].value)
  }

  lemma SourceKept(data: seq<Row>, data': seq<Row>, v: string)
    requires data <= data' && HasSource(data, v)
    ensures HasSource(data', v)
  {
    var f :| f in data && |f| > 2 && f[2] == v;
    var k :| 0 <= k < |data| && data[k] == f;
    assert data'[k] == f;
  }

  /** Appending a well-formed row with a new source value keeps an accumulator good. */
  lemma AppendGood(data: seq<Row>, row: Row, fieldName: string, prefLabels: seq<string>)
    requires Good(data, fieldName, prefLabels)
    requires RowOk(row, fieldName, prefLabels) && !HasSource(data, row[2])
    ensures Good(data + [row], fieldName, prefLabels)
  {
    var d := data + [row];
    forall i, j | 0 <= i < j < |d| && |d[i]| > 2 && |d[j]| > 2
      ensures d[i][2] != d[j][2]
    {
      if j == |data| {
        assert d[i] in data;
      } else {
        assert d[i] == data[i] && d[j] == data[j];
      }
    }
  }

  lemma ExactRowOk(cdmField: string, fieldName: string, v: string, prefLabels: seq<string>)
    requires v != "" && v in prefLabels
    ensures RowOk(ExactRow(cdmField, fieldName, v), fieldName, prefLabels)
  {
    assert ExactRow(cdmField, fieldName, v)[3..] == [v, "", "", "", "", "", ""];
  }

  /** The row of an entry with a non-empty value is a good row for that value. */
  predicate EntryFits(e: Entry, fieldName: string, prefLabels: seq<string>)
  {
    e.value != "" && e.row.Ok? ==> RowOk(e.row.value, fieldName, prefLabels) && e.row.value[2] == e.value
  }

  lemma MatchRowOk(m: Matching, cdmField: string, fieldName: string, v: string, best: Rating, runnerUp: seq<Rating>, prefLabels: seq<string>)
    requires |runnerUp| == 2
    requires v != "" && v !in prefLabels
    ensures RowOk(MatchRow(m, cdmField, fieldName, v, best, runnerUp), fieldName, prefLabels)
  {
  }

  /** A new value's row is well formed, with the value in column 2. */
  lemma NewRowFits(prefLabels: seq<string>, m: Matching, fieldName: string, v: string, cdmField: Result<string, Failure>)
    ensures EntryFits(Entry(v, NewRow(prefLabels, m, fieldName, v, cdmField)), fieldName, prefLabels)
  {
    if v != "" && cdmField.Ok? {
      if v in prefLabels {
        ExactRowOk(cdmField.value, fieldName, v, prefLabels);
      } else if m.findBestMatch(v).Some? {
        var best := m.findBestMatch(v).value;
        var runnerUp := FindRunnerUpMatch(best.ratings);
        if runnerUp.Ok? {
          MatchRowOk(m, cdmField.value, fieldName, v, best.bestMatch, runnerUp.value, prefLabels);
        }
      }
    }
  }

  predicate AllEntriesFit(entries: seq<Entry>, fieldName: string, prefLabels: seq<string>)
  {
    forall k :: 0 <= k < |entries| ==> EntryFits(entries[k], fieldName, prefLabels)
  }

  lemma EntriesFit(ctx: ExportContext, m: Matching, fieldName: string, fieldLabel: string, item: MappedItem, pieces: seq<string>)
    ensures AllEntriesFit(Entries(ctx, m, fieldName, fieldLabel, item, pieces), fieldName, ctx.prefLabels)
  {
    forall k | 0 <= k < |pieces|
      ensures EntryFits(Entries(ctx, m, fieldName, fieldLabel, item, pieces)[k], fieldName, ctx.prefLabels)
    {
      EntryFitsAt(ctx, m, fieldName, fieldLabel, item, pieces, k);
    }
  }

  lemma EntryFitsAt(ctx: ExportContext, m: Matching, fieldName: string, fieldLabel: string, item: MappedItem, pieces: seq<string>, k: nat)
    requires k < |pieces|
    ensures EntryFits(Entries(ctx, m, fieldName, fieldLabel, item, pieces)[k], fieldName, ctx.prefLabels)
  {
    var v := Trim(pieces[k]);
    var cdmField := CdmFieldByValue(ctx, v, fieldLabel, item);
    assert Entries(ctx, m, fieldName, fieldLabel, item, pieces)[k] == Entry(v, NewRow(ctx.prefLabels, m, fieldName, v, cdmField));
    NewRowFits(ctx.prefLabels, m, fieldName, v, cdmField);
  }

  /** One entry keeps a good accumulator good. */
  lemma AddEntryGood(e: Entry, data: seq<Row>, fieldName: string, prefLabels: seq<string>)
    requires EntryFits(e, fieldName, prefLabels)
    requires Good(data, fieldName, prefLabels)
    requires AddEntry(data, e).Ok?
    ensures Good(AddEntry(data, e).value, fieldName, prefLabels)
  {
    if !(HasSource(data, e.value) || e.value == "") {
      AppendGood(data, e.row.value, fieldName, prefLabels);
    }
  }

  /** One entry only appends, and leaves its value covered. */
  lemma AddEntryCovers(e: Entry, data: seq<Row>)
    requires e.value != "" && e.row.Ok? ==> |e.row.value| > 2 && e.row.value[2] == e.value
    requires AddEntry(data, e).Ok?
    ensures data <= AddEntry(data, e).value
    ensures e.value == "" || HasSource(AddEntry(data, e).value, e.value)
  {
    if !(HasSource(data, e.value) || e.value == "") {
      assert e.row.value in data + [e.row.value];
    }
  }

  lemma {:induction false} EntriesGood(entries: seq<Entry>, data: seq<Row>, fieldName: string, prefLabels: seq<string>)
    requires AllEntriesFit(entries, fieldName, prefLabels)
    requires Good(data, fieldName, prefLabels)
    requires AddEntries(entries, data).Ok?
    ensures Good(AddEntries(entries, data).value, fieldName, prefLabels)
    decreases |entries|
  {
    if |entries| > 0 {
      var init := entries[..|entries| - 1];
      assert AllEntriesFit(init, fieldName, prefLabels);
      EntriesGood(init, data, fieldName, prefLabels);
      AddEntryGood(entries[|entries| - 1], AddEntries(init, data).value, fieldName, prefLabels);
    }
  }

  lemma {:induction false} EntriesCover(entries: seq<Entry>, data: seq<Row>, fieldName: string, prefLabels: seq<string>)
    requires AllEntriesFit(entries, fieldName, prefLabels)
    requires AddEntries(entries, data).Ok?
    ensures var d := AddEntries(entries, data).value;
      data <= d && Covered(d, entries)
    decreases |entries|
  {
    if |entries| > 0 {
      var n := |entries| - 1;
      var init := entries[..n];
      assert AllEntriesFit(init, fieldName, prefLabels);
      var prev := AddEntries(init, data).value;
      EntriesCover(init, data, fieldName, prefLabels);
      assert EntryFits(entries[n], fieldName, prefLabels);
      AddEntryCovers(entries[n], prev);
      var d := AddEntries(entries, data).value;
      forall k | 0 <= k < n && entries[k].value != ""
        ensures HasSource(d, entries[k].value)
      {
        assert init[k] == entries[k];
        SourceKept(prev, d, entries[k].value);
      }
    }
  }

  /** Entries whose values all have rows already add nothing. */
  lemma {:induction false} CoveredAddsNothing(entries: seq<Entry>, data: seq<Row>)
    requires Covered(data, entries)
    ensures AddEntries(entries, data) == Ok(data)
    decreases |entries|
  {
    if |entries| > 0 {
      var init := entries[..|entries| - 1];
      assert Covered(data, init) by {
        forall k | 0 <= k < |init|
          ensures init[k].value == "" || HasSource(data, init[k].value)
        {
          assert init[k] == entries[k];
        }
      }
      CoveredAddsNothing(init, data);
    }
  }

  /**
   * `_getVocabularyReportRow` keeps an accumulator good, only appends to it,
   * and leaves every non-empty trimmed piece of the field's value with a row.
   */
  lemma RowsForGood(ctx: ExportContext, m: Matching, fieldName: string, fieldLabel: string, item: MappedItem, data: seq<Row>)
    requires Good(data, fieldName, ctx.prefLabels)
    requires RowsFor(ctx, m, fieldName, fieldLabel, item, data).Ok?
    ensures Good(RowsFor(ctx, m, fieldName, fieldLabel, item, data).value, fieldName, ctx.prefLabels)
    ensures data <= RowsFor(ctx, m, fieldName, fieldLabel, item, data).value
    ensures fieldLabel in item.fieldValues
    ensures forall piece :: piece in Split(item.fieldValues[fieldLabel], FieldDelimiter) && Trim(piece) != "" ==>
      HasSource(RowsFor(ctx, m, fieldName, fieldLabel, item, data).value, Trim(piece))
  {
    if item.fieldValues[fieldLabel] != "" {
      var pieces := Split(item.fieldValues[fieldLabel], FieldDelimiter);
      var es := Entries(ctx, m, fieldName, fieldLabel, item, pieces);
      EntriesFit(ctx, m, fieldName, fieldLabel, item, pieces);
      EntriesGood(es, data, fieldName, ctx.prefLabels);
      EntriesCover(es, data, fieldName, ctx.prefLabels);
      var d := RowsFor(ctx, m, fieldName, fieldLabel, item, data).value;
      forall piece | piece in pieces && Trim(piece) != ""
        ensures HasSource(d, Trim(piece))
      {
        var k :| 0 <= k < |pieces| && pieces[k] == piece;
        assert es[k].value == Trim(piece);
      }
    } else {
      assert Find("", FieldDelimiter) < 0;
      assert Split("", FieldDelimiter) == [""];
    }
  }

  /** Repeating `_getVocabularyReportRow` on its own result adds nothing. */
  lemma RowsForIdempotent(ctx: ExportContext, m: Matching, fieldName: string, fieldLabel: string, item: MappedItem, data: seq<Row>)
    requires RowsFor(ctx, m, fieldName, fieldLabel, item, data).Ok?
    ensures var d := RowsFor(ctx, m, fieldName, fieldLabel, item, data).value;
      RowsFor(ctx, m, fieldName, fieldLabel, item, d) == Ok(d)
  {
    if item.fieldValues[fieldLabel] != "" {
      var pieces := Split(item.fieldValues[fieldLabel], FieldDelimiter);
      var es := Entries(ctx, m, fieldName, fieldLabel, item, pieces);
      EntriesFit(ctx, m, fieldName, fieldLabel, item, pieces);
      EntriesCover(es, data, fieldName, ctx.prefLabels);
      CoveredAddsNothing(es, AddEntries(es, data).value);
    }
  }

  /** The eight calls for one item, in the order of the source (Creator twice). */
  function ItemRows(ctx: ExportContext, m: Matching, item: MappedItem, fd: FieldData): Result<FieldData, Failure>
  {
    var subject :- RowsFor(ctx, m, "Subject", "dcterms.subject", item, fd.subject);
    var contributor :- RowsFor(ctx, m, "Contributor", "dcterms.contributor", item, fd.contributor);
    var creator :- RowsFor(ctx, m, "Creator", "dcterms.creator", item, fd.creator);
    var publisher :- RowsFor(ctx, m, "Publisher", "dcterms.publisher", item, fd.publisher);
    var creatorAgain :- RowsFor(ctx, m, "Creator", "dcterms.creator", item, creator);
    var donor :- RowsFor(ctx, m, "Donor", "relators.donor", item, fd.donor);
    var place :- RowsFor(ctx, m, "Place", "dcterms.spatial", item, fd.place);
    var period :- RowsFor(ctx, m, "Time Period", "dcterms.temporal", item, fd.period);
    Ok(FieldData(contributor, creatorAgain, publisher, subject, donor, place, period))
  }

  /** The second Creator call of an item adds no row. */
  lemma RepeatedCreatorAddsNothing(ctx: ExportContext, m: Matching, item: MappedItem, fd: FieldData)
    requires ItemRows(ctx, m, item, fd).Ok?
    ensures ItemRows(ctx, m, item, fd).value.creator == RowsFor(ctx, m, "Creator", "dcterms.creator", item, fd.creator).value
  {
    var subject := RowsFor(ctx, m, "Subject", "dcterms.subject", item, fd.subject);
    var contributor := RowsFor(ctx, m, "Contributor", "dcterms.contributor", item, fd.contributor);
    var creator := RowsFor(ctx, m, "Creator", "dcterms.creator", item, fd.creator);
    var publisher := RowsFor(ctx, m, "Publisher", "dcterms.publisher", item, fd.publisher);
    assert subject.Ok? && contributor.Ok? && creator.Ok? && publisher.Ok?;
    RowsForIdempotent(ctx, m, "Creator", "dcterms.creator", item, fd.creator);
    var donor := RowsFor(ctx, m, "Donor", "relators.donor", item, fd.donor);
    var place := RowsFor(ctx, m, "Place", "dcterms.spatial", item, fd.place);
    var period := RowsFor(ctx, m, "Time Period", "dcterms.temporal", item, fd.period);
    assert donor.Ok? && place.Ok? && period.Ok?;
    assert ItemRows(ctx, m, item, fd) ==
      Ok(FieldData(contributor.value, creator.value, publisher.value, subject.value, donor.value, place.value, period.value));
  }

  /**
   * One step of `_processVocabularyReport`'s loop, specified by `ItemRows`;
   * kept apart so that the loop's proof sees the step only through this
   * contract.
   */
  method ItemReportRows(ctx: ExportContext, m: Matching, item: MappedItem, fd: FieldData) returns (r: Result<FieldData, Failure>)
    ensures r == ItemRows(ctx, m, item, fd)
  {
    var subject :- VocabularyReportRow(ctx, m, "Subject", "dcterms.subject", item, fd.subject);
    var contributor :- VocabularyReportRow(ctx, m, "Contributor", "dcterms.contributor", item, fd.contributor);
    var creator :- VocabularyReportRow(ctx, m, "Creator", "dcterms.creator", item, fd.creator);
    var publisher :- VocabularyReportRow(ctx, m, "Publisher", "dcterms.publisher", item, fd.publisher);
    creator :- VocabularyReportRow(ctx, m, "Creator", "dcterms.creator", item, creator);
    var donor :- VocabularyReportRow(ctx, m, "Donor", "relators.donor", item, fd.donor);
    var place :- VocabularyReportRow(ctx, m, "Place", "dcterms.spatial", item, fd.place);
    var period :- VocabularyReportRow(ctx, m, "Time Period", "dcterms.temporal", item, fd.period);
    r := Ok(FieldData(contributor, creator, publisher, subject, donor, place, period));
  }

  const NoRows: FieldData := FieldData([], [], [], [], [], [], [])

  function VocabularyFields(ctx: ExportContext, m: Matching, items: seq<MappedItem>): Result<FieldData, Failure>
    decreases |items|
  {
    if |items| == 0 then Ok(NoRows)
    else
      var fd :- VocabularyFields(ctx, m, items[..|items| - 1]);
      ItemRows(ctx, m, items[|items| - 1], fd)
  }

  /** The rows in emission order: donor, contributor, creator, period, place, publisher, subject. */
  function Collected(fd: FieldData): seq<Row>
  {
    fd.donor + fd.contributor + fd.creator + fd.period + fd.place + fd.publisher + fd.subject
  }

  /**
   * The source value a report row is sorted on. Every report row has ten
   * columns (`ReportShape`), so the empty fallback never meets a sorted row;
   * it only makes the comparator total.
   */
  function SourceKey(a: Row): (k: string)
    ensures |a| > 2 ==> k == a[2]
  {
    if |a| > 2 then a[2] else ""
  }

  /** The collation as an order on strings: `u` collates before `v`. */
  function Collates(m: Matching): (string, string) -> bool
  {
    (u: string, v: string) => m.localeCompare(u, v) < 0
  }

  /** `_sortVocabularyReportFields`' comparator: by source value under the collation. */
  function BySource(m: Matching): (Row, Row) -> bool
  {
    (a: Row, b: Row) => Collates(m)(SourceKey(a), SourceKey(b))
  }

  /** A consistent collation of strings gives a consistent order of rows. */
  lemma BySourceWeakOrder(m: Matching)
    requires WeakOrder(Collates(m))
    ensures WeakOrder(BySource(m))
  {
    var c, p := Collates(m), BySource(m);
    forall a: Row, b: Row | Tied(p, a, b) ensures Tied(c, SourceKey(a), SourceKey(b)) {}
    forall a: Row, b: Row, d: Row | Tied(p, a, b) && Tied(p, b, d)
      ensures Tied(p, a, d)
    {
      assert Tied(c, SourceKey(a), SourceKey(b)) && Tied(c, SourceKey(b), SourceKey(d));
    }
    forall a: Row, b: Row, d: Row | p(a, b) && p(b, d)
      ensures p(a, d)
    {
      assert c(SourceKey(a), SourceKey(b)) && c(SourceKey(b), SourceKey(d));
    }
    forall a: Row ensures !p(a, a) {
      assert !c(SourceKey(a), SourceKey(a));
    }
  }

  /** The table `_processVocabularyReport` writes: the header, then the sorted rows. */
  function VocabularyReport(ctx: ExportContext, m: Matching, items: seq<MappedItem>): Result<seq<Row>, Failure>
  {
    var fd :- VocabularyFields(ctx, m, items);
    Ok([Header] + SortBy(Collected(fd), BySource(m)))
  }

  lemma {:induction false} FieldsFailureKept(ctx: ExportContext, m: Matching, items: seq<MappedItem>, j: nat)
    requires j <= |items|
    requires VocabularyFields(ctx, m, items[..j]).Err?
    ensures VocabularyFields(ctx, m, items) == VocabularyFields(ctx, m, items[..j])
    decreases |items| - j
  {
    if j < |items| {
      assert items[..j + 1][..j] == items[..j];
      FieldsFailureKept(ctx, m, items, j + 1);
    } else {
      assert items[..j] == items;
    }
  }

  /** `_processVocabularyReport`: the report table, or the failure that ends the export. */
  method ProcessVocabularyReport(ctx: ExportContext, m: Matching, items: seq<MappedItem>) returns (r: Result<seq<Row>, Failure>)
    ensures r == VocabularyReport(ctx, m, items)
  {
    var fieldData := NoRows;
    var i := 0;
    while i < |items|
      invariant 0 <= i <= |items|
      invariant VocabularyFields(ctx, m, items[..i]) == Ok(fieldData)
    {
      assert items[..i + 1][..i] == items[..i];
      var next := ItemReportRows(ctx, m, items[i], fieldData);
      i := i + 1;
      if next.Err? {
        FieldsFailureKept(ctx, m, items, i);
        return Err(next.error);
      }
      fieldData := next.value;
    }
    assert items[..i] == items;
    r := Ok([Header] + SortBy(Collected(fieldData), BySource(m)));
  }

  const FieldNames: set<string> := {"Subject", "Contributor", "Creator", "Publisher", "Donor", "Place", "Time Period"}

  /** Every accumulator is good for its own field name. */
  predicate FieldsGood(fd: FieldData, prefLabels: seq<string>)
  {
    Good(fd.subject, "Subject", prefLabels) && Good(fd.contributor, "Contributor", prefLabels) &&
    Good(fd.creator, "Creator", prefLabels) && Good(fd.publisher, "Publisher", prefLabels) &&
    Good(fd.donor, "Donor", prefLabels) && Good(fd.place, "Place", prefLabels) &&
    Good(fd.period, "Time Period", prefLabels)
  }

  lemma ItemRowsGood(ctx: ExportContext, m: Matching, item: MappedItem, fd: FieldData)
    requires FieldsGood(fd, ctx.prefLabels)
    requires ItemRows(ctx, m, item, fd).Ok?
    ensures FieldsGood(ItemRows(ctx, m, item, fd).value, ctx.prefLabels)
  {
    RowsForGood(ctx, m, "Subject", "dcterms.subject", item, fd.subject);
    RowsForGood(ctx, m, "Contributor", "dcterms.contributor", item, fd.contributor);
    RowsForGood(ctx, m, "Creator", "dcterms.creator", item, fd.creator);
    RowsForGood(ctx, m, "Publisher", "dcterms.publisher", item, fd.publisher);
    RepeatedCreatorAddsNothing(ctx, m, item, fd);
    RowsForGood(ctx, m, "Donor", "relators.donor", item, fd.donor);
    RowsForGood(ctx, m, "Place", "dcterms.spatial", item, fd.place);
    RowsForGood(ctx, m, "Time Period", "dcterms.temporal", item, fd.period);
  }

  lemma {:induction false} FieldsGoodAlways(ctx: ExportContext, m: Matching, items: seq<MappedItem>)
    requires VocabularyFields(ctx, m, items).Ok?
    ensures FieldsGood(VocabularyFields(ctx, m, items).value, ctx.prefLabels)
    decreases |items|
  {
    if |items| > 0 {
      FieldsGoodAlways(ctx, m, items[..|items| - 1]);
      ItemRowsGood(ctx, m, items[|items| - 1], VocabularyFields(ctx, m, items[..|items| - 1]).value);
    }
  }

  /** A report row: a well-formed row of one of the seven report fields. */
  predicate ReportRowOk(row: Row, prefLabels: seq<string>)
  {
    |row| == 10 && RowOk(row, row[1], prefLabels) && row[1] in FieldNames
  }

  lemma CollectedGood(fd: FieldData, prefLabels: seq<string>)
    requires FieldsGood(fd, prefLabels)
    ensures forall row :: row in Collected(fd) ==> ReportRowOk(row, prefLabels)
  {
  }

  /**
   * The report is the header followed by a permutation of the collected
   * rows, and every row after the header is a well-formed row of one of the
   * seven report fields.
   */
  lemma ReportShape(ctx: ExportContext, m: Matching, items: seq<MappedItem>)
    requires VocabularyReport(ctx, m, items).Ok?
    ensures |VocabularyReport(ctx, m, items).value| == 1 + |Collected(VocabularyFields(ctx, m, items).value)|
    ensures VocabularyReport(ctx, m, items).value[0] == Header
    ensures multiset(VocabularyReport(ctx, m, items).value[1..]) == multiset(Collected(VocabularyFields(ctx, m, items).value))
    ensures forall row :: row in VocabularyReport(ctx, m, items).value[1..] ==> ReportRowOk(row, ctx.prefLabels)
  {
    var fd := VocabularyFields(ctx, m, items).value;
    FieldsGoodAlways(ctx, m, items);
    CollectedGood(fd, ctx.prefLabels);
    var sorted := SortBy(Collected(fd), BySource(m));
    assert VocabularyReport(ctx, m, items).value[1..] == sorted;
    forall row | row in sorted
      ensures ReportRowOk(row, ctx.prefLabels)
    {
      assert row in multiset(sorted);
    }
  }

  /**
   * When the collation is a consistent order of strings, the rows after the
   * header are ordered by source value, and rows whose source values collate
   * equal keep their emission order.
   */
  lemma ReportOrdered(ctx: ExportContext, m: Matching, items: seq<MappedItem>, x: Row)
    requires WeakOrder(Collates(m))
    requires VocabularyReport(ctx, m, items).Ok?
    ensures Sorted(VocabularyReport(ctx, m, items).value[1..], BySource(m))
    ensures Ties(VocabularyReport(ctx, m, items).value[1..], x, BySource(m)) ==
      Ties(Collected(VocabularyFields(ctx, m, items).value), x, BySource(m))
  {
    var collected := Collected(VocabularyFields(ctx, m, items).value);
    assert VocabularyReport(ctx, m, items).value[1..] == SortBy(collected, BySource(m));
    BySourceWeakOrder(m);
    SortByOrdered(collected, BySource(m));
    SortByStable(collected, x, BySource(m));
  }

  /** A collation by length: shorter strings first, equal lengths tied. */
  function ByLength(u: string, v: string): int
  {
    if |u| < |v| then -1 else if |u| > |v| then 1 else 0
  }

  /**
   * The hypothesis of `ReportOrdered` is met by collations that do order
   * strings: here one that puts "a" before "ab".
   */
  lemma ConsistentCollationExists()
    ensures var m := Matching(_ => None, _ => "", ByLength);
      WeakOrder(Collates(m)) && Collates(m)("a", "ab")
  {
    var m := Matching(_ => None, _ => "", ByLength);
    var c := Collates(m);
    forall u: string, v: string ensures c(u, v) <==> |u| < |v|
    {
      assert c(u, v) == (m.localeCompare(u, v) < 0);
      assert m.localeCompare(u, v) == ByLength(u, v);
    }
  }
}
