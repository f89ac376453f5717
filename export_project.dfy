/**
 * Project assembly for a packaging export (`_processCarpentersProject`):
 * one object per mapped item whose archival object belongs to the
 * resource, with its container, files, processing type and metadata.
 */
module ExportProject {
  import opened Wrappers
  import opened Text
  import opened AppState
  import opened Carpenters
  import opened ExportTypes
  import opened ExportContainers
  import opened ExportFiles

  /**
   * `processingType`: Image or Text when the lower-cased type is exactly
   * "image" or "text", Unknown otherwise. Only ASCII letters are lowered here;
   * no other character lowers to one of the letters of these two words.
   */
  function ProcessingTypeOf(fieldType: string): (t: ProcessingType)
    ensures t == ImageType <==> AsciiLower(fieldType) == "image"
    ensures t == TextType <==> AsciiLower(fieldType) == "text"
  {
    var lowered := AsciiLower(fieldType);
    if lowered == "image" then ImageType
    else if lowered == "text" then TextType
    else UnknownType
  }

  /** Upper, lower and mixed case all name the image type. */
  lemma ProcessingTypeCase()
    ensures ProcessingTypeOf("Image") == ImageType
    ensures ProcessingTypeOf("IMAGE") == ImageType
    ensures ProcessingTypeOf("Images") == UnknownType
  {
    assert AsciiLower("Image") == "image";
    assert AsciiLower("IMAGE") == "image";
    assert |AsciiLower("Images")| == 6;
  }

  const ReviewNote: string := "Review processing type and Type metadata field"

  /** `processingTypeNotes`: the review note exactly when the type lists several values. */
  function ProcessingTypeNotes(fieldType: string): (n: string)
    ensures n == (if ';' in fieldType then ReviewNote else "")
  {
    SplitCharCount(fieldType, ';');
    if |Split(fieldType, [';'])| >= 2 then ReviewNote else ""
  }

  /** `fixMultipleTypeFieldValues`: a type listing several values is cleared, any other kept. */
  function FixMultipleTypeFieldValues(fieldType: string): (r: string)
    ensures r == (if ';' in fieldType then "" else fieldType)
    ensures ';' !in r
  {
    SplitCharCount(fieldType, ';');
    if |Split(fieldType, [';'])| >= 2 then "" else fieldType
  }

  /** `Array.prototype` access on the field-value object: Some value, or None for a missing key. */
  function Lookup(fv: map<string, string>, key: string): Option<string>
  {
    if key in fv then Some(fv[key]) else None
  }

  /** A field value as a template literal shows it. */
  function ShowValue(fv: map<string, string>, key: string): string
  {
    if key in fv then fv[key] else "undefined"
  }

  /** The archival object URI an item names, or "". */
  function AspaceUri(fv: map<string, string>): string
  {
    if "uhlib.aSpaceUri" in fv && fv["uhlib.aSpaceUri"] != "" then fv["uhlib.aSpaceUri"] else ""
  }

  /** A project with no resource is non-archival. */
  function ProjectTypeOf(resource: string): ProjectType
  {
    if resource == "" then NonArchival else Archival
  }

  /** `IObject`, less its uuid, its empty dates and arks and its null uri. */
  datatype ProjectObject = ProjectObject(
    processingType: ProcessingType,
    title: Option<string>,
    containers: seq<Container>,
    level: string,
    artificial: bool,
    parentUri: string,
    productionNotes: string,
    metadata: map<string, string>,
    files: seq<File>)

  /** `IProject`. */
  datatype Project = Project(
    projectType: ProjectType,
    resource: string,
    collectionTitle: string,
    collectionArkUrl: string,
    aic: string,
    objects: seq<ProjectObject>)

  /**
   * The state of the loop over the items: the objects so far, the soft
   * errors reported, the consumed source files, and the failure that ended
   * it, if any (later items are then not processed).
   */
  datatype ProjectRun = ProjectRun(objects: seq<ProjectObject>, errors: seq<ExportError>, cdmFiles: seq<SourceFile>, failure: Option<Failure>)

  function MismatchError(fv: map<string, string>, resource: string): ExportError
  {
    ExportError(ResourceMismatch,
      "\"" + ShowValue(fv, "dcterms.title") + "\" doesn't match expected ArchivesSpace collection uri " + resource)
  }

  function InvalidUriMessage(fv: map<string, string>, uri: string, err: string): string
  {
    "\"" + ShowValue(fv, "dcterms.title") + "\" has a invalid ArchivesSpace uri " + uri + " please check the URI\n" + err
  }

  /** The archival object an item's URI resolves to, if the lookup gives one. */
  function ArchivalObjectOf(services: Services, item: MappedItem): Option<ArchivalObject>
  {
    match services.archivalObject(AspaceUri(item.fieldValues))
    case Found(ao) => Some(ao)
    case _ => None
  }

  /** An item is skipped when it resolves to an archival object whose resource ref is not `resource`. */
  predicate Skipped(services: Services, resource: string, item: MappedItem)
  {
    Mismatched(ArchivalObjectOf(services, item), resource)
  }

  predicate Mismatched(ao: Option<ArchivalObject>, resource: string)
  {
    ao.Some? && ao.value.resource.Resource? && ao.value.resource.ref != Some(resource)
  }

  /** The object of a kept item. */
  function MakeObject(ctx: ExportContext, resource: string, item: MappedItem, container: Option<Container>, files: seq<File>): ProjectObject
  {
    var fv := item.fieldValues;
    var hasType := "dcterms.type" in fv;
    ProjectObject(
      if hasType then ProcessingTypeOf(fv["dcterms.type"]) else UnknownType,
      Lookup(fv, "dcterms.title"),
      if container.Some? then [container.value] else [],
      "item",
      ProjectTypeOf(resource) == Archival,
      AspaceUri(fv),
      if hasType then ProcessingTypeNotes(fv["dcterms.type"]) else "",
      if hasType then fv["dcterms.type" := FixMultipleTypeFieldValues(fv["dcterms.type"])] else fv,
      files)
  }

  /**
   * What one item contributes to the loop: the failure that ends it, the
   * mismatch error of a skipped item, or the object of a kept item with the
   * soft errors of its files and the source files it consumed.
   */
  datatype ItemOutcome =
    | Stop(failure: Failure)
    | Skip(error: ExportError)
    | Keep(object: ProjectObject, errors: seq<ExportError>, sources: seq<SourceFile>)

  /** One pass of the loop body for the item at 1-based position `index`. */
  function ItemOutcomeOf(ctx: ExportContext, services: Services, resource: string, item: MappedItem, index: int): ItemOutcome
  {
    var uri := AspaceUri(item.fieldValues);
    match services.archivalObject(uri)
    case Failed(err) => Stop(Rejected(InvalidUriMessage(item.fieldValues, uri, err)))
    case _ =>
      var ao := ArchivalObjectOf(services, item);
      if ao.Some? && ao.value.resource.NoResource? then Stop(Crash)
      else if Skipped(services, resource, item) then Skip(MismatchError(item.fieldValues, resource))
      else
        match CreateContainer(ctx.helpers, services, ProjectTypeOf(resource), index, ao)
        case Err(f) => Stop(f)
        case Ok(container) =>
          var sources := GetCdmFilenames(ctx.helpers.parse, item.files);
          var out := CarpentersFiles(ctx, services.copy, sources, ContainerToPath(container, ctx.helpers.padLeft), index);
          Keep(MakeObject(ctx, resource, item, container, out.files), out.errors, sources)
  }

  /** The outcome of every item, the k-th (from 0) at position k + 1. */
  function Outcomes(ctx: ExportContext, services: Services, resource: string, items: seq<MappedItem>): seq<ItemOutcome>
  {
    seq(|items|, k requires 0 <= k < |items| => ItemOutcomeOf(ctx, services, resource, items[k], k + 1))
  }

  /** The loop state after one more outcome; once the loop has failed, nothing changes. */
  function Apply(run: ProjectRun, o: ItemOutcome): ProjectRun
  {
    if run.failure.Some? then run
    else
      match o
      case Stop(f) => run.(failure := Some(f))
      case Skip(e) => run.(errors := run.errors + [e])
      case Keep(obj, errs, sources) => ProjectRun(run.objects + [obj], run.errors + errs, run.cdmFiles + sources, None)
  }

  /** The loop state after a sequence of outcomes, from the empty state. */
  function RunOutcomes(os: seq<ItemOutcome>): ProjectRun
    decreases |os|
  {
    if |os| == 0 then ProjectRun([], [], [], None)
    else Apply(RunOutcomes(os[..|os| - 1]), os[|os| - 1])
  }

  /** The loop over all items. */
  function RunProject(ctx: ExportContext, services: Services, resource: string, items: seq<MappedItem>): ProjectRun
  {
    RunOutcomes(Outcomes(ctx, services, resource, items))
  }

  lemma OutcomesPrefix(ctx: ExportContext, services: Services, resource: string, items: seq<MappedItem>, j: nat)
    requires j <= |items|
    ensures Outcomes(ctx, services, resource, items[..j]) == Outcomes(ctx, services, resource, items)[..j]
  {
  }

  lemma {:induction false} OutcomesFailureStops(os: seq<ItemOutcome>, j: nat)
    requires j <= |os|
    requires RunOutcomes(os[..j]).failure.Some?
    ensures RunOutcomes(os) == RunOutcomes(os[..j])
    decreases |os| - j
  {
    if j < |os| {
      assert os[..j + 1][..j] == os[..j];
      OutcomesFailureStops(os, j + 1);
    } else {
      assert os[..j] == os;
    }
  }

  /** Once the loop has failed, later items change nothing. */
  lemma FailureStops(ctx: ExportContext, services: Services, resource: string, items: seq<MappedItem>, j: nat)
    requires j <= |items|
    requires RunProject(ctx, services, resource, items[..j]).failure.Some?
    ensures RunProject(ctx, services, resource, items) == RunProject(ctx, services, resource, items[..j])
  {
    OutcomesPrefix(ctx, services, resource, items, j);
    OutcomesFailureStops(Outcomes(ctx, services, resource, items), j);
  }

  /** The loop over a prefix one item longer is the loop over the prefix followed by that item's outcome. */
  lemma RunStep(ctx: ExportContext, services: Services, resource: string, items: seq<MappedItem>, i: nat)
    requires i < |items|
    ensures RunProject(ctx, services, resource, items[..i + 1]) ==
      Apply(RunProject(ctx, services, resource, items[..i]), ItemOutcomeOf(ctx, services, resource, items[i], i + 1))
  {
    var os := Outcomes(ctx, services, resource, items);
    OutcomesPrefix(ctx, services, resource, items, i + 1);
    OutcomesPrefix(ctx, services, resource, items, i);
    assert os[..i + 1][..i] == os[..i];
  }

  /**
   * `_processCarpentersProject`: the project with the objects of the loop,
   * the soft errors reported on the way (also when a later item fails), and
   * the missed-file report of the consumed source files when the loop ends
   * normally.
   */
  method ProcessCarpentersProject(ctx: ExportContext, services: Services, resource: string, collectionName: string, items: seq<MappedItem>)
    returns (project: Project, errors: seq<ExportError>, failure: Option<Failure>, report: Option<string>)
    ensures var run := RunProject(ctx, services, resource, items);
      project == Project(ProjectTypeOf(resource), resource, collectionName, "", "", run.objects) &&
      errors == run.errors && failure == run.failure &&
      report == (if run.failure.None? then ReportMissedFiles(ctx, run.cdmFiles) else None)
  {
    var projectType := ProjectTypeOf(resource);
    project := Project(projectType, resource, collectionName, "", "", []);
    var cdmFiles: seq<SourceFile> := [];
    errors := [];
    failure := None;
    report := None;
    var index := 0;
    while index < |items|
      invariant 0 <= index <= |items|
      invariant RunProject(ctx, services, resource, items[..index]) == ProjectRun(project.objects, errors, cdmFiles, None)
      invariant project.projectType == projectType && project.resource == resource && project.collectionTitle == collectionName
      invariant project.collectionArkUrl == "" && project.aic == ""
    {
      var item := items[index];
      RunStep(ctx, services, resource, items, index);
      index := index + 1;
      var uri := AspaceUri(item.fieldValues);
      var answer := services.archivalObject(uri);
      if answer.Failed? {
        failure := Some(Rejected(InvalidUriMessage(item.fieldValues, uri, answer.reason)));
        FailureStops(ctx, services, resource, items, index);
        return;
      }
      var ao := if answer.Found? then Some(answer.obj) else None;
      if ao.Some? && ao.value.resource.NoResource? {
        failure := Some(Crash);
        FailureStops(ctx, services, resource, items, index);
        return;
      }
      if ao.Some? && ao.value.resource.ref != Some(resource) {
        errors := errors + [MismatchError(item.fieldValues, resource)];
        continue;
      }
      var container := CreateContainer(ctx.helpers, services, projectType, index, ao);
      if container.Err? {
        failure := Some(container.error);
        FailureStops(ctx, services, resource, items, index);
        return;
      }
      var files, fileErrors := ProcessCarpentersFiles(ctx, services.copy, item.files, index, container.value);
      errors := errors + fileErrors;
      cdmFiles := cdmFiles + GetCdmFilenames(ctx.helpers.parse, item.files);
      project := project.(objects := project.objects + [MakeObject(ctx, resource, item, container.value, files)]);
    }
    assert items[..index] == items;
    report := ReportMissedFiles(ctx, cdmFiles);
  }

  /** How many items are skipped. */
  function Skips(services: Services, resource: string, items: seq<MappedItem>): nat
    decreases |items|
  {
    if |items| == 0 then 0
    else Skips(services, resource, items[..|items| - 1]) + (if Skipped(services, resource, items[|items| - 1]) then 1 else 0)
  }

  /** The 1-based positions of the items that are not skipped. */
  function Kept(services: Services, resource: string, items: seq<MappedItem>): (r: seq<nat>)
    ensures |r| + Skips(services, resource, items) == |items|
    ensures forall k :: 0 <= k < |r| ==> 1 <= r[k] <= |items|
    decreases |items|
  {
    if |items| == 0 then []
    else
      var r := Kept(services, resource, items[..|items| - 1]);
      if Skipped(services, resource, items[|items| - 1]) then r else r + [|items|]
  }

  predicate Increasing(r: seq<nat>)
  {
    forall k, l :: 0 <= k < l < |r| ==> r[k] < r[l]
  }

  predicate NameKept(services: Services, resource: string, items: seq<MappedItem>, r: seq<nat>)
  {
    forall k :: 0 <= k < |r| ==> 1 <= r[k] <= |items| && !Skipped(services, resource, items[r[k] - 1])
  }

  /** The kept positions are increasing and name items that are not skipped. */
  lemma KeptOrdered(services: Services, resource: string, items: seq<MappedItem>)
    ensures Increasing(Kept(services, resource, items))
    ensures NameKept(services, resource, items, Kept(services, resource, items))
  {
    KeptIncreasing(services, resource, items);
    KeptNotSkipped(services, resource, items);
  }

  lemma {:induction false} KeptIncreasing(services: Services, resource: string, items: seq<MappedItem>)
    ensures Increasing(Kept(services, resource, items))
    decreases |items|
  {
    if |items| > 0 {
      var init := items[..|items| - 1];
      KeptIncreasing(services, resource, init);
      var r := Kept(services, resource, init);
      var r1 := Kept(services, resource, items);
      var last := if Skipped(services, resource, items[|items| - 1]) then [] else [|items|];
      assert r1 == r + last;
      forall k, l | 0 <= k < l < |r1|
        ensures r1[k] < r1[l]
      {
        if l < |r| {
          assert r1[k] == r[k] && r1[l] == r[l];
        } else {
          assert last == [|items|] && r1[l] == |items|;
          assert r1[k] == r[k] <= |init|;
        }
      }
    }
  }

  lemma {:induction false} KeptNotSkipped(services: Services, resource: string, items: seq<MappedItem>)
    ensures NameKept(services, resource, items, Kept(services, resource, items))
    decreases |items|
  {
    if |items| > 0 {
      var init := items[..|items| - 1];
      KeptNotSkipped(services, resource, init);
      var r := Kept(services, resource, init);
      var r1 := Kept(services, resource, items);
      var last := if Skipped(services, resource, items[|items| - 1]) then [] else [|items|];
      assert r1 == r + last;
      forall k | 0 <= k < |r1|
        ensures !Skipped(services, resource, items[r1[k] - 1])
      {
        if k < |r| {
          assert r1[k] == r[k];
          assert 1 <= r[k] <= |init|;
          assert !Skipped(services, resource, init[r[k] - 1]);
          assert items[r[k] - 1] == init[r[k] - 1];
        } else {
          assert last == [|items|] && r1[k] == |items|;
        }
      }
    }
  }

  /** The soft errors of a kind. */
  function CountKind(errors: seq<ExportError>, kind: ErrorKind): nat
    decreases |errors|
  {
    if |errors| == 0 then 0
    else CountKind(errors[..|errors| - 1], kind) + (if errors[|errors| - 1].kind == kind then 1 else 0)
  }

  lemma {:induction false} CountKindAppend(a: seq<ExportError>, b: seq<ExportError>, kind: ErrorKind)
    ensures CountKind(a + b, kind) == CountKind(a, kind) + CountKind(b, kind)
    decreases |b|
  {
    if |b| == 0 {
      assert a + b == a;
    } else {
      CountKindAppend(a, b[..|b| - 1], kind);
      assert (a + b)[..|a + b| - 1] == a + b[..|b| - 1];
    }
  }

  lemma {:induction false} NoMismatchInFileErrors(errors: seq<ExportError>)
    requires FileErrors(errors)
    ensures CountKind(errors, ResourceMismatch) == 0
    decreases |errors|
  {
    if |errors| > 0 {
      assert errors[|errors| - 1] in errors;
      assert forall e :: e in errors[..|errors| - 1] ==> e in errors;
      NoMismatchInFileErrors(errors[..|errors| - 1]);
    }
  }

  /**
   * What an item's outcome tells about the item, whatever else the run
   * holds: failures and objects come from items that are not skipped, the
   * error of a skipped item is a mismatch, and an object carries the item's
   * title and URI, the project's artificial flag, a type without `;`, and in
   * a non-archival project the item's own level.
   */
  predicate OutcomeFits(o: ItemOutcome, services: Services, resource: string, item: MappedItem, index: int)
  {
    match o
    case Stop(_) => !Skipped(services, resource, item)
    case Skip(e) => Skipped(services, resource, item) && e.kind == ResourceMismatch
    case Keep(obj, errs, _) =>
      !Skipped(services, resource, item) && FileErrors(errs) &&
      obj.title == Lookup(item.fieldValues, "dcterms.title") &&
      obj.parentUri == AspaceUri(item.fieldValues) &&
      (obj.artificial <==> resource != "") &&
      ("dcterms.type" in obj.metadata ==> ';' !in obj.metadata["dcterms.type"]) &&
      (resource == "" ==> obj.containers == [ItemContainer(index)])
  }

  lemma OutcomeFitsItem(ctx: ExportContext, services: Services, resource: string, item: MappedItem, index: int)
    ensures OutcomeFits(ItemOutcomeOf(ctx, services, resource, item, index), services, resource, item, index)
  {
    var ao := ArchivalObjectOf(services, item);
    var container := CreateContainer(ctx.helpers, services, ProjectTypeOf(resource), index, ao);
    if container.Ok? {
      var sources := GetCdmFilenames(ctx.helpers.parse, item.files);
      FilesAccounting(ctx, services.copy, sources, ContainerToPath(container.value, ctx.helpers.padLeft), index);
    }
  }

  /** Every outcome fits its item. */
  predicate AllFit(os: seq<ItemOutcome>, services: Services, resource: string, items: seq<MappedItem>)
  {
    |os| == |items| && forall k :: 0 <= k < |os| ==> OutcomeFits(os[k], services, resource, items[k], k + 1)
  }

  lemma OutcomesFit(ctx: ExportContext, services: Services, resource: string, items: seq<MappedItem>)
    ensures AllFit(Outcomes(ctx, services, resource, items), services, resource, items)
  {
    forall k | 0 <= k < |items|
      ensures OutcomeFits(Outcomes(ctx, services, resource, items)[k], services, resource, items[k], k + 1)
    {
      FitAt(ctx, services, resource, items, k);
    }
  }

  lemma FitAt(ctx: ExportContext, services: Services, resource: string, items: seq<MappedItem>, k: nat)
    requires k < |items|
    ensures OutcomeFits(Outcomes(ctx, services, resource, items)[k], services, resource, items[k], k + 1)
  {
    var o := ItemOutcomeOf(ctx, services, resource, items[k], k + 1);
    assert Outcomes(ctx, services, resource, items)[k] == o;
    OutcomeFitsItem(ctx, services, resource, items[k], k + 1);
  }

  lemma AllFitPrefix(os: seq<ItemOutcome>, services: Services, resource: string, items: seq<MappedItem>)
    requires |os| > 0
    requires AllFit(os, services, resource, items)
    ensures AllFit(os[..|os| - 1], services, resource, items[..|items| - 1])
    ensures OutcomeFits(os[|os| - 1], services, resource, items[|items| - 1], |items|)
  {
    assert OutcomeFits(os[|os| - 1], services, resource, items[|os| - 1], |os|);
  }

  /** The counts of a run that ends normally, for outcomes that fit their items. */
  lemma {:induction false} OutcomeCounts(os: seq<ItemOutcome>, services: Services, resource: string, items: seq<MappedItem>)
    requires AllFit(os, services, resource, items)
    requires RunOutcomes(os).failure.None?
    ensures var run := RunOutcomes(os);
      |run.objects| == |Kept(services, resource, items)| &&
      CountKind(run.errors, ResourceMismatch) == Skips(services, resource, items)
    decreases |os|
  {
    if |os| > 0 {
      var prev := RunOutcomes(os[..|os| - 1]);
      var o := os[|os| - 1];
      AllFitPrefix(os, services, resource, items);
      OutcomeCounts(os[..|os| - 1], services, resource, items[..|items| - 1]);
      match o
      case Skip(e) =>
        CountKindAppend(prev.errors, [e], ResourceMismatch);
        assert [e][..0] == [];
      case Keep(obj, errs, _) =>
        NoMismatchInFileErrors(errs);
        CountKindAppend(prev.errors, errs, ResourceMismatch);
    }
  }

  /**
   * When the loop runs to the end: one object per kept item, and exactly one
   * resource-mismatch error per skipped item.
   */
  lemma ProjectCounts(ctx: ExportContext, services: Services, resource: string, items: seq<MappedItem>)
    requires RunProject(ctx, services, resource, items).failure.None?
    ensures var run := RunProject(ctx, services, resource, items);
      |run.objects| == |Kept(services, resource, items)| &&
      |run.objects| + Skips(services, resource, items) == |items| &&
      CountKind(run.errors, ResourceMismatch) == Skips(services, resource, items)
  {
    OutcomesFit(ctx, services, resource, items);
    OutcomeCounts(Outcomes(ctx, services, resource, items), services, resource, items);
  }

  /**
   * Object k carries the title and archival URI of the item at 1-based
   * position kept[k], and in a non-archival project sits in that item's level.
   */
  predicate FollowItems(objects: seq<ProjectObject>, resource: string, items: seq<MappedItem>, kept: seq<nat>)
  {
    |objects| == |kept| &&
    forall k :: 0 <= k < |objects| ==> FollowsItem(objects[k], resource, items, kept[k])
  }

  predicate FollowsItem(o: ProjectObject, resource: string, items: seq<MappedItem>, position: nat)
  {
    1 <= position <= |items| &&
    o.title == Lookup(items[position - 1].fieldValues, "dcterms.title") &&
    o.parentUri == AspaceUri(items[position - 1].fieldValues) &&
    (resource == "" ==> o.containers == [ItemContainer(position)])
  }

  /** Following the items is kept by a step that adds an object exactly for a kept item. */
  lemma FollowStep(prevObjects: seq<ProjectObject>, objects: seq<ProjectObject>, resource: string, items: seq<MappedItem>,
                   prevKept: seq<nat>, kept: seq<nat>, skipped: bool)
    requires |items| > 0
    requires FollowItems(prevObjects, resource, items[..|items| - 1], prevKept)
    requires kept == prevKept + (if skipped then [] else [|items|])
    requires skipped ==> objects == prevObjects
    requires !skipped ==> (|objects| == |prevObjects| + 1 && objects[..|prevObjects|] == prevObjects &&
      FollowsItem(objects[|prevObjects|], resource, items, |items|))
    ensures FollowItems(objects, resource, items, kept)
  {
    var init := items[..|items| - 1];
    forall k | 0 <= k < |objects|
      ensures FollowsItem(objects[k], resource, items, kept[k])
    {
      if k < |prevObjects| {
        assert objects[k] == prevObjects[k] && kept[k] == prevKept[k];
        assert FollowsItem(prevObjects[k], resource, init, prevKept[k]);
        assert items[prevKept[k] - 1] == init[prevKept[k] - 1];
      } else {
        assert kept[k] == |items|;
      }
    }
  }

  lemma {:induction false} OutcomesFollow(os: seq<ItemOutcome>, services: Services, resource: string, items: seq<MappedItem>)
    requires AllFit(os, services, resource, items)
    requires RunOutcomes(os).failure.None?
    ensures FollowItems(RunOutcomes(os).objects, resource, items, Kept(services, resource, items))
    decreases |os|
  {
    if |os| > 0 {
      var prev := RunOutcomes(os[..|os| - 1]);
      AllFitPrefix(os, services, resource, items);
      OutcomesFollow(os[..|os| - 1], services, resource, items[..|items| - 1]);
      FollowStep(prev.objects, RunOutcomes(os).objects, resource, items,
        Kept(services, resource, items[..|items| - 1]), Kept(services, resource, items),
        Skipped(services, resource, items[|items| - 1]));
    }
  }

  /** When the loop runs to the end, kept items appear in input order. */
  lemma ObjectsFollowItems(ctx: ExportContext, services: Services, resource: string, items: seq<MappedItem>)
    requires RunProject(ctx, services, resource, items).failure.None?
    ensures FollowItems(RunProject(ctx, services, resource, items).objects, resource, items, Kept(services, resource, items))
  {
    OutcomesFit(ctx, services, resource, items);
    OutcomesFollow(Outcomes(ctx, services, resource, items), services, resource, items);
  }

  /** In a non-archival project, object k is in the single "Item" level numbered by its item's position. */
  lemma NonArchivalContainers(ctx: ExportContext, services: Services, items: seq<MappedItem>)
    requires RunProject(ctx, services, "", items).failure.None?
    ensures var run := RunProject(ctx, services, "", items);
      var kept := Kept(services, "", items);
      |run.objects| == |kept| &&
      forall k :: 0 <= k < |run.objects| ==> run.objects[k].containers == [ItemContainer(kept[k])]
  {
    ObjectsFollowItems(ctx, services, "", items);
    var run := RunProject(ctx, services, "", items);
    var kept := Kept(services, "", items);
    forall k | 0 <= k < |run.objects|
      ensures run.objects[k].containers == [ItemContainer(kept[k])]
    {
      assert FollowsItem(run.objects[k], "", items, kept[k]);
    }
  }

  /** Objects of outcomes that fit their items carry the project's flags. */
  lemma {:induction false} OutcomeFlags(os: seq<ItemOutcome>, services: Services, resource: string, items: seq<MappedItem>)
    requires AllFit(os, services, resource, items)
    ensures forall o :: o in RunOutcomes(os).objects ==>
      (o.artificial <==> resource != "") &&
      ("dcterms.type" in o.metadata ==> ';' !in o.metadata["dcterms.type"])
    decreases |os|
  {
    if |os| > 0 {
      AllFitPrefix(os, services, resource, items);
      OutcomeFlags(os[..|os| - 1], services, resource, items[..|items| - 1]);
    }
  }

  /**
   * Every object of a run is marked artificial exactly when the project is
   * archival, and a type field listing several values is cleared in its
   * metadata.
   */
  lemma ObjectFlags(ctx: ExportContext, services: Services, resource: string, items: seq<MappedItem>)
    ensures var run := RunProject(ctx, services, resource, items);
      forall o :: o in run.objects ==>
        (o.artificial <==> resource != "") &&
        ("dcterms.type" in o.metadata ==> ';' !in o.metadata["dcterms.type"])
  {
    OutcomesFit(ctx, services, resource, items);
    OutcomeFlags(Outcomes(ctx, services, resource, items), services, resource, items);
  }
}
