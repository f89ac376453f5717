/**
 * Crosswalk flattening (`_map`): each target field's value is built from the
 * item's values at the field's source nicks; and the required-field
 * precheck (`_missingFields`) that rejects an export before it starts.
 */
module ExportMapping {
  import opened Wrappers
  import opened Text
  import opened AppState
  import opened ExportTypes

  /** The separator `_map` puts after every piece, and `_getVocabularyReportRow` splits on. */
  const FieldDelimiter: string := "; "

  /** The nicks of an entry with the empty ("not mapped") nicks dropped, in order. */
  function ActiveNicks(nicks: seq<string>): (r: seq<string>)
    ensures forall n :: n in r <==> n in nicks && n != ""
    ensures |r| <= |nicks|
    decreases |nicks|
  {
    if |nicks| == 0 then []
    else
      var init := ActiveNicks(nicks[..|nicks| - 1]);
      var n := nicks[|nicks| - 1];
      assert nicks == nicks[..|nicks| - 1] + [n];
      if n == "" then init else init + [n]
  }

  /** The source nicks of field `id`: none when the crosswalk has no entry for it. */
  function FieldNicks(cw: CrosswalkFieldHash, id: string): seq<string>
  {
    if id in cw then ActiveNicks(cw[id].nicks) else []
  }

  /** Whether field `id` is exported for page-level items (false without an entry). */
  function ItemExport(cw: CrosswalkFieldHash, id: string): bool
  {
    id in cw && cw[id].itemExport
  }

  /** The value a string-valued nick holds, its trailing `;` run removed; None for a missing or non-string value. */
  function StringValue(item: RawItem, nick: string): Option<string>
  {
    if nick in item && item[nick].Str? then Some(StripTrailing(item[nick].s, ';')) else None
  }

  /** What one nick adds to the accumulated value: its stripped string and "; ", or nothing. */
  function Piece(item: RawItem, nick: string): string
  {
    match StringValue(item, nick)
    case Some(v) => v + FieldDelimiter
    case None => ""
  }

  /** The accumulated value before the last two characters are cut. */
  function Pieces(item: RawItem, nicks: seq<string>): string
    decreases |nicks|
  {
    if |nicks| == 0 then "" else Pieces(item, nicks[..|nicks| - 1]) + Piece(item, nicks[|nicks| - 1])
  }

  /** The stripped string values of the nicks that hold one, in nick order (empty strings included). */
  function StringValues(item: RawItem, nicks: seq<string>): seq<string>
    decreases |nicks|
  {
    if |nicks| == 0 then []
    else
      var init := StringValues(item, nicks[..|nicks| - 1]);
      match StringValue(item, nicks[|nicks| - 1])
      case Some(v) => init + [v]
      case None => init
  }

  /** The value `_map` gives field `id`. */
  function FieldValue(cw: CrosswalkFieldHash, item: RawItem, id: string, itemLevel: bool): string
  {
    if itemLevel && !ItemExport(cw, id) then ""
    else DropLastTwo(Pieces(item, FieldNicks(cw, id)))
  }

  /** The accumulated pieces are the string values each followed by "; ". */
  lemma {:induction false} PiecesShape(item: RawItem, nicks: seq<string>)
    ensures Pieces(item, nicks) ==
      (if |StringValues(item, nicks)| == 0 then "" else Join(StringValues(item, nicks), FieldDelimiter) + FieldDelimiter)
    decreases |nicks|
  {
    if |nicks| > 0 {
      var init := nicks[..|nicks| - 1];
      PiecesShape(item, init);
      var sv := StringValues(item, init);
      match StringValue(item, nicks[|nicks| - 1])
      case Some(v) =>
        if |sv| > 0 {
          JoinSnoc(sv, v, FieldDelimiter);
        } else {
          assert sv + [v] == [v];
        }
      case None =>
    }
  }

  /**
   * The flattening rule: a field's value is the "; "-join of the stripped
   * string values at its non-empty nicks, or "" for a page-level item whose
   * field is not exported there.
   */
  lemma FieldValueIsJoin(cw: CrosswalkFieldHash, item: RawItem, id: string, itemLevel: bool)
    ensures itemLevel && !ItemExport(cw, id) ==> FieldValue(cw, item, id, itemLevel) == ""
    ensures !(itemLevel && !ItemExport(cw, id)) ==>
      FieldValue(cw, item, id, itemLevel) == Join(StringValues(item, FieldNicks(cw, id)), FieldDelimiter)
  {
    var nicks := FieldNicks(cw, id);
    PiecesShape(item, nicks);
    var sv := StringValues(item, nicks);
    if |sv| > 0 {
      var j := Join(sv, FieldDelimiter);
      assert Pieces(item, nicks) == j + FieldDelimiter;
      assert DropLastTwo(j + FieldDelimiter) == j;
    }
  }

  /** `a = "X;"`, `b = "Y"` flatten to "X; Y". */
  lemma TwoNicksExample(cw: CrosswalkFieldHash, item: RawItem, id: string)
    requires id in cw && cw[id].nicks == ["a", "b"]
    requires item == map["a" := Str("X;"), "b" := Str("Y")]
    ensures FieldValue(cw, item, id, false) == "X; Y"
  {
    var nicks := ["a", "b"];
    assert ActiveNicks(nicks) == nicks by {
      assert nicks[..1] == ["a"];
      assert ActiveNicks(["a"][..0]) == [];
    }
    assert StripTrailing("X", ';') == "X";
    assert StripTrailing("X;", ';') == "X";
    assert StripTrailing("Y", ';') == "Y";
    assert nicks[..1] == ["a"];
    assert StringValues(item, ["a"][..0]) == [];
    assert StringValues(item, nicks) == ["X", "Y"];
    FieldValueIsJoin(cw, item, id, false);
    assert Join(["X", "Y"], FieldDelimiter) == "X" + FieldDelimiter + Join(["Y"], FieldDelimiter);
  }

  /** An empty string still adds its "; ": a lone "" gives "", and "" before "Y" gives "; Y". */
  lemma EmptyStringPiece(cw: CrosswalkFieldHash, item: RawItem, id: string)
    requires id in cw && cw[id].nicks == ["a", "b"]
    requires item == map["a" := Str(""), "b" := Str("Y")]
    ensures FieldValue(cw, item, id, false) == "; Y"
  {
    var nicks := ["a", "b"];
    assert ActiveNicks(nicks) == nicks by {
      assert nicks[..1] == ["a"];
      assert ActiveNicks(["a"][..0]) == [];
    }
    assert StripTrailing("", ';') == "";
    assert StripTrailing("Y", ';') == "Y";
    assert nicks[..1] == ["a"];
    assert StringValues(item, ["a"][..0]) == [];
    assert StringValues(item, nicks) == ["", "Y"];
    FieldValueIsJoin(cw, item, id, false);
    assert Join(["", "Y"], FieldDelimiter) == "" + FieldDelimiter + Join(["Y"], FieldDelimiter);
  }

  /** A field without an entry, or whose nicks are all empty, maps to "". */
  lemma UnmappedFieldEmpty(cw: CrosswalkFieldHash, item: RawItem, id: string, itemLevel: bool)
    requires id !in cw || forall n :: n in cw[id].nicks ==> n == ""
    ensures FieldValue(cw, item, id, itemLevel) == ""
  {
    if id in cw {
      var nicks := ActiveNicks(cw[id].nicks);
      if |nicks| > 0 {
        NonEmptyNick(nicks, cw[id].nicks);
      }
    }
  }

  lemma NonEmptyNick(active: seq<string>, nicks: seq<string>)
    requires |active| > 0 && active == ActiveNicks(nicks)
    ensures exists n :: n in nicks && n != ""
  {
    assert active[0] in active;
  }

  /** The soft error `_map` reports for a required field left empty. */
  function RequiredError(item: RawItem, f: Field): ExportError
  {
    ExportError(RequiredFieldEmpty,
      "Item " + Show(item, "dmrecord") + " '" + Show(item, "title") + "' is missing data for required field '" + f.name + "'")
  }

  /** The required fields whose value comes out empty, in field order. */
  function EmptyRequired(cw: CrosswalkFieldHash, item: RawItem, fields: seq<Field>, itemLevel: bool): (r: seq<Field>)
    ensures forall f :: f in r <==> f in fields && f.required && FieldValue(cw, item, f.id, itemLevel) == ""
    ensures |r| <= |fields|
    decreases |fields|
  {
    if |fields| == 0 then []
    else
      var init := EmptyRequired(cw, item, fields[..|fields| - 1], itemLevel);
      var f := fields[|fields| - 1];
      assert fields == fields[..|fields| - 1] + [f];
      if f.required && FieldValue(cw, item, f.id, itemLevel) == "" then init + [f] else init
  }

  /** The errors for a list of fields, one each, in order. */
  function ErrorsFor(item: RawItem, fs: seq<Field>): (r: seq<ExportError>)
    ensures |r| == |fs|
    ensures forall k :: 0 <= k < |fs| ==> r[k] == RequiredError(item, fs[k])
    decreases |fs|
  {
    if |fs| == 0 then [] else ErrorsFor(item, fs[..|fs| - 1]) + [RequiredError(item, fs[|fs| - 1])]
  }

  lemma PiecesStep(item: RawItem, nicks: seq<string>, k: nat)
    requires k < |nicks|
    ensures Pieces(item, nicks[..k + 1]) == Pieces(item, nicks[..k]) + Piece(item, nicks[k])
  {
    assert nicks[..k + 1][..k] == nicks[..k];
  }

  /** The value of one field, accumulated nick by nick as `_map` does. */
  method FlattenField(cw: CrosswalkFieldHash, item: RawItem, id: string, itemLevel: bool) returns (value: string)
    ensures value == FieldValue(cw, item, id, itemLevel)
  {
    var nicks := FieldNicks(cw, id);
    value := "";
    if itemLevel && !ItemExport(cw, id) {
      value := "";
    } else {
      var k := 0;
      while k < |nicks|
        invariant 0 <= k <= |nicks|
        invariant value == Pieces(item, nicks[..k])
      {
        PiecesStep(item, nicks, k);
        value := value + Piece(item, nicks[k]);
        k := k + 1;
      }
      assert nicks[..k] == nicks;
      value := DropLastTwo(value);
      assert value == DropLastTwo(Pieces(item, FieldNicks(cw, id)));
    }
  }

  /** The values of a field list, in order. */
  function FieldValues(cw: CrosswalkFieldHash, item: RawItem, fields: seq<Field>, itemLevel: bool): (r: seq<string>)
    ensures |r| == |fields|
    ensures forall j :: 0 <= j < |fields| ==> r[j] == FieldValue(cw, item, fields[j].id, itemLevel)
    decreases |fields|
  {
    if |fields| == 0 then []
    else FieldValues(cw, item, fields[..|fields| - 1], itemLevel) + [FieldValue(cw, item, fields[|fields| - 1].id, itemLevel)]
  }

  /** The `fieldValues` object of a field list: each field's value under its id, later fields written last. */
  function ValueMap(cw: CrosswalkFieldHash, item: RawItem, fields: seq<Field>, itemLevel: bool): map<string, string>
    decreases |fields|
  {
    if |fields| == 0 then map[]
    else
      var f := fields[|fields| - 1];
      ValueMap(cw, item, fields[..|fields| - 1], itemLevel)[f.id := FieldValue(cw, item, f.id, itemLevel)]
  }

  lemma {:induction false} ValueMapFacts(cw: CrosswalkFieldHash, item: RawItem, fields: seq<Field>, itemLevel: bool)
    ensures ValueMap(cw, item, fields, itemLevel).Keys == FieldIds(fields)
    ensures forall id :: id in ValueMap(cw, item, fields, itemLevel) ==> ValueMap(cw, item, fields, itemLevel)[id] == FieldValue(cw, item, id, itemLevel)
    decreases |fields|
  {
    if |fields| > 0 {
      var init := fields[..|fields| - 1];
      var f := fields[|fields| - 1];
      ValueMapFacts(cw, item, init, itemLevel);
      assert fields == init + [f];
      FieldIdsSnoc(init, f);
      var v := FieldValue(cw, item, f.id, itemLevel);
      assert ValueMap(cw, item, fields, itemLevel) == ValueMap(cw, item, init, itemLevel)[f.id := v];
    }
  }

  lemma ValueMapStep(cw: CrosswalkFieldHash, item: RawItem, fields: seq<Field>, i: nat, itemLevel: bool)
    requires i < |fields|
    ensures ValueMap(cw, item, fields[..i + 1], itemLevel) ==
      ValueMap(cw, item, fields[..i], itemLevel)[fields[i].id := FieldValue(cw, item, fields[i].id, itemLevel)]
  {
    assert fields[..i + 1][..i] == fields[..i];
  }

  lemma FieldValuesStep(cw: CrosswalkFieldHash, item: RawItem, fields: seq<Field>, i: nat, itemLevel: bool)
    requires i < |fields|
    ensures FieldValues(cw, item, fields[..i + 1], itemLevel) ==
      FieldValues(cw, item, fields[..i], itemLevel) + [FieldValue(cw, item, fields[i].id, itemLevel)]
  {
    assert fields[..i + 1][..i] == fields[..i];
  }

  lemma ErrorsStep(cw: CrosswalkFieldHash, item: RawItem, fields: seq<Field>, itemLevel: bool)
    requires |fields| > 0
    ensures var f := fields[|fields| - 1];
      ErrorsFor(item, EmptyRequired(cw, item, fields, itemLevel)) ==
        ErrorsFor(item, EmptyRequired(cw, item, fields[..|fields| - 1], itemLevel)) +
        (if f.required && FieldValue(cw, item, f.id, itemLevel) == "" then [RequiredError(item, f)] else [])
  {
    var f := fields[|fields| - 1];
    var er := EmptyRequired(cw, item, fields[..|fields| - 1], itemLevel);
    if f.required && FieldValue(cw, item, f.id, itemLevel) == "" {
      assert EmptyRequired(cw, item, fields, itemLevel) == er + [f];
      assert (er + [f])[..|er|] == er;
    }
  }

  /** One field of `_map`'s loop keeps the three accumulators equal to their specifications. */
  lemma MapStep(cw: CrosswalkFieldHash, item: RawItem, fields: seq<Field>, i: nat, itemLevel: bool, reportErrors: bool,
                values: seq<string>, fieldValues: map<string, string>, errors: seq<ExportError>, value: string)
    requires i < |fields|
    requires values == FieldValues(cw, item, fields[..i], itemLevel)
    requires fieldValues == ValueMap(cw, item, fields[..i], itemLevel)
    requires errors == (if reportErrors then ErrorsFor(item, EmptyRequired(cw, item, fields[..i], itemLevel)) else [])
    requires value == FieldValue(cw, item, fields[i].id, itemLevel)
    ensures values + [value] == FieldValues(cw, item, fields[..i + 1], itemLevel)
    ensures fieldValues[fields[i].id := value] == ValueMap(cw, item, fields[..i + 1], itemLevel)
    ensures (if reportErrors && fields[i].required && value == "" then errors + [RequiredError(item, fields[i])] else errors)
      == (if reportErrors then ErrorsFor(item, EmptyRequired(cw, item, fields[..i + 1], itemLevel)) else [])
  {
    ValueMapStep(cw, item, fields, i, itemLevel);
    FieldValuesStep(cw, item, fields, i, itemLevel);
    ErrorsStep(cw, item, fields[..i + 1], itemLevel);
    assert fields[..i + 1][..i] == fields[..i];
  }

  /** What the finished accumulators say about the field list. */
  lemma MapDone(cw: CrosswalkFieldHash, item: RawItem, fields: seq<Field>, itemLevel: bool, values: seq<string>, fieldValues: map<string, string>)
    requires values == FieldValues(cw, item, fields, itemLevel)
    requires fieldValues == ValueMap(cw, item, fields, itemLevel)
    ensures |values| == |fields|
    ensures forall i :: 0 <= i < |fields| ==> values[i] == FieldValue(cw, item, fields[i].id, itemLevel)
    ensures forall i :: 0 <= i < |fields| ==> fields[i].id in fieldValues && fieldValues[fields[i].id] == values[i]
    ensures fieldValues.Keys == FieldIds(fields)
  {
    ValueMapFacts(cw, item, fields, itemLevel);
    forall i | 0 <= i < |fields|
      ensures fields[i].id in fieldValues
    {
      FieldIdIn(fields, i);
    }
  }

  lemma FieldIdIn(fields: seq<Field>, i: nat)
    requires i < |fields|
    ensures fields[i].id in FieldIds(fields)
  {
  }

  /**
   * `_map`: one value per field in field order, the same value under the
   * field's id, and (when errors are reported) exactly one soft error per
   * required field whose value is "", in field order.
   */
  method Map(cw: CrosswalkFieldHash, item: RawItem, files: seq<CdmFile>, fields: seq<Field>, reportErrors: bool, itemLevel: bool)
    returns (m: MappedItem, errors: seq<ExportError>)
    ensures |m.values| == |fields|
    ensures forall i :: 0 <= i < |fields| ==> m.values[i] == FieldValue(cw, item, fields[i].id, itemLevel)
    ensures forall i :: 0 <= i < |fields| ==> fields[i].id in m.fieldValues && m.fieldValues[fields[i].id] == m.values[i]
    ensures m.fieldValues.Keys == FieldIds(fields)
    ensures m.files == files && m.cdm == item
    ensures errors == (if reportErrors then ErrorsFor(item, EmptyRequired(cw, item, fields, itemLevel)) else [])
  {
    var values: seq<string> := [];
    var fieldValues: map<string, string> := map[];
    errors := [];
    var i := 0;
    while i < |fields|
      invariant 0 <= i <= |fields|
      invariant values == FieldValues(cw, item, fields[..i], itemLevel)
      invariant fieldValues == ValueMap(cw, item, fields[..i], itemLevel)
      invariant errors == (if reportErrors then ErrorsFor(item, EmptyRequired(cw, item, fields[..i], itemLevel)) else [])
    {
      var field := fields[i];
      var value := FlattenField(cw, item, field.id, itemLevel);
      MapStep(cw, item, fields, i, itemLevel, reportErrors, values, fieldValues, errors, value);
      if reportErrors && field.required && value == "" {
        errors := errors + [RequiredError(item, field)];
      }
      values := values + [value];
      fieldValues := fieldValues[field.id := value];
      i := i + 1;
    }
    assert fields[..i] == fields;
    MapDone(cw, item, fields, itemLevel, values, fieldValues);
    m := MappedItem(values, fieldValues, files, item);
  }

  /** A required field counts as unmapped when its entry exists and every one of its nicks is empty. */
  predicate Unmapped(cw: CrosswalkFieldHash, f: Field)
  {
    f.required && f.id in cw && |ActiveNicks(cw[f.id].nicks)| == 0
  }

  function MissingMessage(f: Field): string
  {
    "Missing required field '" + f.name + "'"
  }

  /** One message per unmapped required field, in field order. */
  function MissingMessages(fields: seq<Field>, cw: CrosswalkFieldHash): (r: seq<string>)
    ensures |r| <= |fields|
    ensures forall f :: f in fields && Unmapped(cw, f) ==> MissingMessage(f) in r
    ensures forall m :: m in r ==> exists f :: f in fields && Unmapped(cw, f) && m == MissingMessage(f)
    ensures |r| == 0 <==> forall f :: f in fields ==> !Unmapped(cw, f)
    decreases |fields|
  {
    if |fields| == 0 then []
    else
      var init := MissingMessages(fields[..|fields| - 1], cw);
      var f := fields[|fields| - 1];
      assert fields == fields[..|fields| - 1] + [f];
      if Unmapped(cw, f) then init + [MissingMessage(f)] else init
  }

  /**
   * `_missingFields`: ["No fields mapped"] without a crosswalk; otherwise the
   * messages for the unmapped required fields, or None when there are none.
   * A required field without an entry is not reported.
   */
  function MissingFields(fields: seq<Field>, crosswalk: Option<CrosswalkFieldHash>): (r: Option<seq<string>>)
    ensures crosswalk.None? ==> r == Some(["No fields mapped"])
    ensures crosswalk.Some? ==> (r.None? <==> forall f :: f in fields ==> !Unmapped(crosswalk.value, f))
    ensures crosswalk.Some? && r.Some? ==> r.value == MissingMessages(fields, crosswalk.value)
    ensures r.Some? ==> |r.value| > 0
  {
    if crosswalk.None? then Some(["No fields mapped"])
    else
      var err := MissingMessages(fields, crosswalk.value);
      if |err| > 0 then Some(err) else None
  }

  /** `missing.toString().replace(/,/gi, "\n")`: the messages joined by ",", then every "," turned into a line break. */
  function RejectionMessage(missing: seq<string>): string
  {
    ReplaceAll(Join(missing, ","), ',', '\n')
  }

  /** Without commas inside the messages, the rejection lists them one per line. */
  lemma {:induction false} RejectionLines(missing: seq<string>)
    requires forall m :: m in missing ==> ',' !in m
    ensures RejectionMessage(missing) == Join(missing, "\n")
    decreases |missing|
  {
    if |missing| == 1 {
      ReplaceAllAbsent(missing[0], ',', '\n');
    } else if |missing| > 1 {
      var rest := missing[1..];
      assert forall m :: m in rest ==> m in missing;
      RejectionLines(rest);
      ReplaceAllAppend(missing[0] + ",", Join(rest, ","), ',', '\n');
      ReplaceAllAppend(missing[0], ",", ',', '\n');
      ReplaceAllAbsent(missing[0], ',', '\n');
      assert ReplaceAll(",", ',', '\n') == "\n";
    }
  }

  /** `export()`'s precheck: the rejection that ends the export before it starts, if any. */
  function Precheck(fields: seq<Field>, crosswalk: Option<CrosswalkFieldHash>): (r: Option<Failure>)
    ensures r.Some? <==> MissingFields(fields, crosswalk).Some?
    ensures r.Some? ==> r.value == Rejected(RejectionMessage(MissingFields(fields, crosswalk).value))
  {
    match MissingFields(fields, crosswalk)
    case Some(missing) => Some(Rejected(RejectionMessage(missing)))
    case None => None
  }

  /** A required field without a crosswalk entry is not reported; one whose nicks are all empty is. */
  lemma MissingFieldsExample()
    ensures MissingFields([Field("dcterms.title", "Title", true)], Some(map[])) == None
    ensures MissingFields([Field("dcterms.title", "Title", true)], Some(map["dcterms.title" := CrosswalkField([""], false)]))
      == Some(["Missing required field 'Title'"])
  {
    var f := Field("dcterms.title", "Title", true);
    assert ActiveNicks([""][..0]) == [];
    assert Unmapped(map["dcterms.title" := CrosswalkField([""], false)], f);
    assert [f][..0] == [];
    var cw := map["dcterms.title" := CrosswalkField([""], false)];
    assert MissingMessages([f], cw) == [] + [MissingMessage(f)];
    assert [] + [MissingMessage(f)] == [MissingMessage(f)];
    assert MissingFields([f], Some(cw)) == Some([MissingMessage(f)]);
    TitleMessage();
  }

  lemma TitleMessage()
    ensures MissingMessage(Field("dcterms.title", "Title", true)) == "Missing required field 'Title'"
  {
  }
}
