/**
 * The exporter's own shapes: raw repository records, mapped items, source
 * file descriptors, the per-run export context, and the collaborators the
 * exporter calls (helper functions, the archival description service, the
 * file copier, the similarity matcher) as function-typed values.
 */
module ExportTypes {
  import opened Wrappers
  import opened AppState
  import opened Carpenters

  /** A value of a repository record: a string, or any other JSON value together with what `String()` makes of it. */
  datatype RawValue = Str(s: string) | NonString(shown: string)

  /** A repository item record: its field map by nick. */
  type RawItem = map<string, RawValue>

  /** `${item[key]}` / `String(item[key])`: the text a template literal shows, "undefined" for a missing key. */
  function Show(item: RawItem, key: string): string
  {
    if key !in item then "undefined"
    else match item[key]
      case Str(s) => s
      case NonString(shown) => shown
  }

  /** One file a repository item declares (`item.files[i]`): the CDM file name, the access file name and the pointer. */
  datatype CdmFile = CdmFile(filename: string, accessFilename: string, pointer: string)

  /** `ISourceFile`: a file name split by `parse` into stem (`name`) and extension. */
  datatype SourceFile = SourceFile(filename: string, name: string, ext: string)

  /** What `parse` reports of a file name. */
  datatype PathInfo = PathInfo(name: string, ext: string)

  /** The result of `_map`: values in field order, values by field id, the item's files and its raw record. */
  datatype MappedItem = MappedItem(values: seq<string>, fieldValues: map<string, string>, files: seq<CdmFile>, cdm: RawItem)

  /** A failure that ends the whole export: a rejected promise with its reason, or a TypeError on a property of `undefined`. */
  datatype Failure = Rejected(reason: string) | Crash

  /** One entry of the collection's field information: a nick and its display name. */
  datatype FieldInfo = FieldInfo(nick: string, name: string)

  /**
   * The helpers the exporter imports but whose definitions are not part of
   * this model: `padLeft`, `capitalize`, `filePostfix` and Node's `parse`.
   */
  datatype Helpers = Helpers(
    padLeft: PadLeft,
    capitalize: Option<string> -> Option<string>,
    filePostfix: FilePurpose -> string,
    parse: string -> PathInfo)

  /**
   * The fields an `Exporter` holds during one run, all written at the start
   * of `export()` and only read afterwards (`prefLabels` are the preferred
   * labels of the vocabulary, in order). The three listings are what
   * `getFilenames` answers for the three paths (None for an unset or
   * unreadable directory); the source directories do not change during a run.
   */
  datatype ExportContext = ExportContext(
    alias: string,
    crosswalk: CrosswalkFieldHash,
    exportLocation: string,
    accessPath: string,
    preservationPath: string,
    modifiedMasterPath: string,
    accessFiles: Option<seq<SourceFile>>,
    preservationFiles: Option<seq<SourceFile>>,
    modifiedMasterFiles: Option<seq<SourceFile>>,
    renameFiles: bool,
    fieldInfo: seq<FieldInfo>,
    prefLabels: seq<string>,
    helpers: Helpers)

  /** A top container as the archival description service resolves it. */
  datatype TopContainer = TopContainer(containerType: Option<string>, indicator: Option<int>)

  /** An instance's `sub_container`: the top-container reference (when present) and levels 2 and 3. */
  datatype SubContainer = SubContainer(
    topContainer: Option<string>,
    type2: Option<string>, indicator2: Option<int>,
    type3: Option<string>, indicator3: Option<int>)

  /** An archival object's instance, with or without a sub-container. */
  datatype Instance = Instance(subContainer: Option<SubContainer>)

  /** An archival object's `resource` member: missing altogether, or an object whose `ref` may be undefined. */
  datatype ResourceLink = NoResource | Resource(ref: Option<string>)

  /** An archival object: the link to its resource and its instances. */
  datatype ArchivalObject = ArchivalObject(resource: ResourceLink, instances: seq<Instance>)

  /** What `getArchivalObject(uri)` settles to: a rejection, a falsy body, or an object. */
  datatype ArchivalAnswer = Failed(reason: string) | NoObject | Found(obj: ArchivalObject)

  /**
   * The remote services of a packaging export: the archival object and top
   * container lookups, and the file copy (None: copied; Some(e): failed with `e`).
   */
  datatype Services = Services(
    archivalObject: string -> ArchivalAnswer,
    topContainer: string -> Result<TopContainer, string>,
    copy: (string, string) -> Option<string>)
}
