# cdm-bridge-carp: the export core in Dafny

cdm-bridge-carp is a desktop tool. It takes the items of a ContentDM collection and maps their fields through a user-edited *crosswalk*. It exports the result in one of two forms:

- a metadata table;
- a Carpenters packaging project, with containers, copied files and a report of files left over.

This model covers the deterministic part of that pipeline.

**Crosswalk flattening.** `_map` turns a raw item into an ordered value list, a `fieldValues` map and soft errors. `_missingFields` is the required-field precheck that rejects an export before it starts.

**Records and compound objects.**
- the paging of `records`;
- the page lists `_pages` and `_toArray`;
- the file rows `getRecord` builds for an item.

**Containers.** `_createContainer` and `addContainer` derive an object's container levels. `containerToPath` renders the container as a directory path.

**File reconciliation.**
- `getCdmFilenames`;
- `_processCarpentersFiles`;
- the naming and lookup part of `_copyFiles`;
- the leftover-file difference of `reportMissedFiles`;
- the report text of `outputMissedFileReport`.

**Project assembly.** `_processCarpentersProject` covers:
- skipping an item whose archival object belongs to another resource;
- `processingType`, `processingTypeNotes` and `fixMultipleTypeFieldValues`;
- the object fields.

`purposeToString` supplies the soft-error text.

**Vocabulary report.**
- `_getVocabularyReportRow`, with its dedup-by-source-value rule;
- `_findRunnerUpMatch`;
- `_cdmFieldByValue`;
- `_processVocabularyReport`, with its fixed order of eight field calls and its emission order.

**The application store's crosswalk, preferences and error list.** An `AppStore` class holds these methods:
- `_setCrosswalk` and `_setCrosswalkItemExport`;
- `_removeCrosswalkField` and `_setPreferencesFields`;
- `_setPreferencesContentDm`;
- `_pushError` and `_clearError`.

`_crosswalkDefault` is the class method `AppStore.AppStore.CrosswalkDefault`. `_convertCrosswalk`, `_checkCrosswalkFields` and `_crosswalkDefaultField` read no store field, so they are a method and functions of module `AppStore` outside the class.

## How the pieces are modelled

- **Failures.** Runtime failures of the TypeScript code have two forms. A rejected promise is `Failure.Rejected(message)`. A `TypeError` from reading a property of `undefined` is `Failure.Crash`. Operations return `Result`/`Option` (`wrappers.dfy`), so error paths are part of every contract.
- **Soft errors** (the `errorCallback` descriptions) are `ExportError` values. Each carries the exact description text and a kind tag: a required field left empty, a resource mismatch, a missing file, or a failed copy.
- **Remote services are inputs.** `Services` holds the archival lookups and the file copy. `Matching` holds `findBestMatch`, `toFixed(3)` and `localeCompare`.
- **Helpers whose definitions are not part of this model are inputs too.** `Helpers` holds `padLeft`, `capitalize`, `filePostfix` and Node's `parse`. Lemmas that need their behaviour state it in a `requires`. Directory listings are inputs as well, as `ExportContext` fields.
- **Exporter fields.** The fields an `Exporter` sets at the start of `export()` are the immutable `ExportContext`.
- **Loops become methods.** Each source loop becomes a method with a `while` loop: `Map`, `FlattenField`, `ProcessCarpentersFiles`, `ProcessCarpentersProject`, `VocabularyReportRow`, `ProcessVocabularyReport`, `CrosswalkDefault`, `ConvertCrosswalk` and `SetPreferencesFields`. Each is proved equal to a specification function, and the source's promises are lemmas about that function. The loop bodies of `VocabularyReportRow` and `ProcessVocabularyReport` are methods of their own (`AddPiece`, `MakeRow`, `ItemReportRows`), each proved equal to the function that specifies one step (`AddEntry`, `NewRow`, `ItemRows`), so that each loop's proof sees a step only through that contract.
- **The store is a class.** The app store is a `class` whose methods change `crosswalk`, `fields`, `errors` and the server settings in place.

## Model

| member | source | states |
|---|---|---|
| Carpenters.ContainerToPath | src/lib/carpenters.ts:103-117 | A null container gives the empty path. Any other path has the length of the level segments joined, is non-empty and ends with `/`. |
| Carpenters.PathLevels | src/lib/carpenters.ts:108-114 | With slash-free types and indicators, the path has one segment for level 1, plus one for a truthy level-2 type, plus one for a truthy level-3 type. Level 3 counts whether or not level 2 is present. |
| Carpenters.PathSpaces | src/lib/carpenters.ts:116 | Only the first space of the assembled path is replaced: if the raw path has a space, the path has one space fewer, otherwise none. Every other character is unchanged. |
| Carpenters.SpaceFreePath | src/lib/carpenters.ts:108-116 | A container whose segments contain no space renders the segments as they are. |
| Carpenters.FirstSpacePath | src/lib/carpenters.ts:116 | If the segments read `x + " " + y` with no space in `x`, the path is `x + "_" + y`. |
| Carpenters.BoxFolderExample | src/lib/carpenters.ts:108-116 | `{Box,1,Folder,2,null}` renders as `Box_001/Folder_002/` when `padLeft` pads with zeros to width 3. |
| Carpenters.SecondSpaceKept | src/lib/carpenters.ts:108-116 | `{Map Case,3,Map Folder,1}` renders as `Map_Case_003/Map Folder_001/`: the second space survives. |
| ExportContainers.AddContainer | src/lib/export.ts:647-662 | Only the first slot (1, 2, 3) whose type is falsy becomes `Item` with the index; every other slot is unchanged. With all three types set, the result is the input. The level count grows by one unless it was already 3. |
| ExportContainers.Registered | src/lib/export.ts:498-500 | Keeps exactly the instances that have a sub-container with a top container. The result is empty iff no instance has one. |
| ExportContainers.CreateContainer | src/lib/export.ts:484-526 | A non-archival project gets a single `Item` level. A missing archival object gives null. No registered instance gives a single `Item` level. Otherwise the first registered instance's top container is looked up: a rejection is passed on, and a found container gives the container of its capitalised type and indicator over the instance's capitalised second and third levels. A non-null result always has level 1 set. |
| ExportContainers.FullContainerKept | src/lib/export.ts:513-525 | When all three capitalised types are set, the container is built from the top container and the first sub-container with no `Item` level added. |
| ExportRecords.RecordsInOrder | src/lib/export.ts:165-188 | The corrected paging, started anywhere in a collection served page by page, returns the earlier data followed by every remaining record in order. |
| ExportRecords.AllRecords | src/lib/export.ts:165-188 | The corrected paging from record 1 returns the whole collection. |
| ExportRecords.SkipsRecord1025 | src/lib/export.ts:181-182 | The paging as written returns only the first 1024 of a 1025-record collection. |
| ExportRecords.LaterPageFirst | src/lib/export.ts:178-182 | The paging as written, on 2049 records, returns the second page before the first and drops record 1025. |
| ExportRecords.ToArray | src/lib/export.ts:252-257 | An absent value gives `[]`, a single object a one-element list, an array itself. |
| ExportRecords.Pages | src/lib/export.ts:238-250 | No page list and no node gives the failure that reading `object.node.page` raises. Otherwise the result is the pages of every nested node, in node order, followed by the object's own pages. |
| ExportRecords.NodePagesMembers | src/lib/export.ts:241-246 | A page is in the nested-node list iff it is among the pages of some node. |
| ExportRecords.FileNick | src/lib/export.ts:195-196 | The nick of the first field-info entry named `File Name`, or `null` when there is none. |
| ExportRecords.RecordFiles | src/lib/export.ts:194-236 | A compound record gets one file per page, in page order, each with the page's file, the page's access filename and the page pointer. Any other record gets one file built from the record and the item itself. |
| ExportMapping.ActiveNicks | src/lib/export.ts:277-279 | Keeps exactly the non-empty nicks. |
| ExportMapping.FieldValueIsJoin | src/lib/export.ts:277-292 | At item level, a field not exported is `""`. Otherwise the value is the string values of the non-empty nicks, each with its trailing `;` run removed, joined by `"; "`. |
| ExportMapping.TwoNicksExample | src/lib/export.ts:288-291 | Nicks `a="X;"` and `b="Y"` give `"X; Y"`. |
| ExportMapping.EmptyStringPiece | src/lib/export.ts:288-291 | An empty string value still contributes a piece: `a=""`, `b="Y"` gives `"; Y"`. |
| ExportMapping.UnmappedFieldEmpty | src/lib/export.ts:277-291 | A field absent from the crosswalk, or with only empty nicks, flattens to `""`. |
| ExportMapping.FlattenField | src/lib/export.ts:277-292 | The loop that builds one field's value computes the flattening rule. |
| ExportMapping.EmptyRequired | src/lib/export.ts:294 | Exactly the required fields whose value is `""`, in field order. |
| ExportMapping.ErrorsFor | src/lib/export.ts:294-298 | One soft error per such field, positionally. |
| ExportMapping.FieldValues | src/lib/export.ts:276-300 | One value per field, in field order, each the field's flattened value. |
| ExportMapping.ValueMapFacts | src/lib/export.ts:301 | `fieldValues` has exactly the field ids as keys, each mapped to that field's value. |
| ExportMapping.Map | src/lib/export.ts:259-304 | `values` has one entry per field, in order. `fieldValues[field.id]` equals the value at that field's position. The files and the raw item are carried over. With an error callback, there is exactly one soft error per required field left `""`, in field order; without one, none. |
| ExportMapping.MissingMessages | src/lib/export.ts:778-788 | A required field is reported iff it is in the crosswalk with only empty nicks. Required fields absent from the crosswalk are not reported. |
| ExportMapping.MissingFields | src/lib/export.ts:770-791 | A null crosswalk gives `["No fields mapped"]`. Otherwise the messages are returned, or null exactly when there are none. A returned list is never empty. |
| ExportMapping.MissingFieldsExample | src/lib/export.ts:779-787 | A required field absent from the crosswalk is not reported. One mapped to `[""]` gives `Missing required field 'Title'`. |
| ExportMapping.RejectionLines | src/lib/export.ts:124-126 | For comma-free messages, the rejection text is the messages joined by newlines. |
| ExportMapping.Precheck | src/lib/export.ts:122-127 | The export is rejected iff `_missingFields` gives a list, and the reason is that list with commas turned into newlines. |
| ExportFiles.PurposeToString | src/lib/export.ts:846-859 | Every purpose has a non-empty display name. |
| ExportFiles.PurposeNamesDistinct | src/lib/export.ts:846-859 | Distinct purposes have distinct names. |
| ExportFiles.GetCdmFilenames | src/lib/export.ts:664-673 | One source file per item file, in order, named by the access filename and its parsed stem and extension. |
| ExportFiles.FindByStem | src/lib/export.ts:611 | None iff no listing entry has the stem, else the first entry that has it. |
| ExportFiles.CopyFile | src/lib/export.ts:598-645 | A stem miss yields exactly the `Missing <purpose> file` error. On a match, the matched file is copied from `<source>/<filename>` to `<export location>/Files/<container path><target name>`. A successful copy yields the file `Files/` + container path + target name with its purpose. A failed copy yields exactly the `Couldn't copy file` error for that file and message. |
| ExportFiles.ProcessCarpentersFiles | src/lib/export.ts:528-596 | The loop over the item's files computes the file-by-file, purpose-by-purpose reconciliation. |
| ExportFiles.FilesAccounting | src/lib/export.ts:548-593 | Entries plus errors equal the number of source files times the number of configured listings. Each error is a missing-file or copy error. |
| ExportFiles.SourceStepOrder | src/lib/export.ts:551-592 | One source file appends entries after the earlier ones, in the order access, preservation, modified master, and only for configured listings. |
| ExportFiles.RenamedExample | src/lib/export.ts:620-621 | When renaming, object 3, file 1, access, `.tif` gives `0003_0001_ac.tif`. |
| ExportFiles.KeptNameFile | src/lib/export.ts:620-622 | Without renaming, a copied file's path is `Files/` + container path + stem + postfix + the matched entry's extension. |
| ExportFiles.UnmatchedMembers | src/lib/export.ts:700-714 | A listing entry is left over iff no consumed source file has its stem. |
| ExportFiles.LeftoverExample | src/lib/export.ts:700-704 | Listing `[img001, img002]` against source `img001` leaves `[img002]`. |
| ExportFiles.DuplicateStem | src/lib/export.ts:611-704 | Two listing entries with the source's stem: the first is copied, and neither is reported as left over. |
| ExportFiles.Leftover | src/lib/export.ts:700-714 | An unconfigured directory gives `[]`; a configured one gives its unmatched entries, in listing order. |
| ExportFiles.ReportPaths | src/lib/export.ts:738-740 | One path per file, positionally: the directory, a slash, the filename. |
| ExportFiles.ReportMissedFiles | src/lib/export.ts:695-727 | A report is produced iff some leftover list is non-empty, and it is the report text of those lists. |
| ExportFiles.ReportLines | src/lib/export.ts:742-747 | With newline-free paths, the report splits into the access heading and paths, a blank line, the preservation heading and paths, a blank line, and the modified-master heading and paths. |
| ExportProject.ProcessingTypeOf | src/lib/export.ts:817-826 | Image iff the lower-cased type is exactly `image`; Text iff it is exactly `text`. |
| ExportProject.ProcessingTypeCase | src/lib/export.ts:817-826 | `Image` and `IMAGE` are Image; `Images` is Unknown. |
| ExportProject.ProcessingTypeNotes | src/lib/export.ts:828-836 | The review note exactly when the type contains `;`, else `""`. |
| ExportProject.FixMultipleTypeFieldValues | src/lib/export.ts:838-844 | A type containing `;` is cleared, any other is kept. The result never contains `;`. |
| ExportProject.ProcessCarpentersProject | src/lib/export.ts:381-482 | The project has the resource's type, the collection title and the objects of the run. Errors and failure are the run's. The leftover report is made from every consumed source file when the run ends without failure. |
| ExportProject.FailureStops | src/lib/export.ts:413-420 | Once an item's lookup rejects, later items change nothing. |
| ExportProject.OutcomeFitsItem | src/lib/export.ts:413-476 | On its own, an item stops the run or becomes an object only if it is not skipped. A skipped item gives a mismatch error. An object carries the item's title and URI, `artificial` iff archival, a type without `;`, and, in a non-archival project, the item's own `Item` level. |
| ExportProject.ProjectCounts | src/lib/export.ts:401-477 | A completed run has as many objects as kept items. Objects plus skips equal the items. There is exactly one mismatch error per skipped item. |
| ExportProject.KeptOrdered | src/lib/export.ts:401-427 | The kept positions are strictly increasing, and each names a non-skipped item. |
| ExportProject.ObjectsFollowItems | src/lib/export.ts:401-477 | Object k comes from the k-th kept item, at its 1-based position, in input order. The index still advances past skipped items. |
| ExportProject.NonArchivalContainers | src/lib/export.ts:485-494 | In a non-archival project, object k sits in the single `Item` level numbered by its item's position. |
| ExportProject.ObjectFlags | src/lib/export.ts:451-466 | Every object is `artificial` iff the project is archival, and its type field never lists several values. |
| ExportVocabulary.CdmFieldUnknown | src/lib/export.ts:998-1008 | A value held by none of the field's nicks gives `UNKNOWN`. |
| ExportVocabulary.CdmFieldFirst | src/lib/export.ts:999-1005 | The first nick holding the value names the field through the collection field info, or crashes when the info has no such nick. |
| ExportVocabulary.CdmFieldCases | src/lib/export.ts:998-1008 | Both cases of `_cdmFieldByValue` at once. |
| ExportVocabulary.FindRunnerUpMatch | src/lib/export.ts:991-996 | Fails iff there are fewer than three ratings. Otherwise returns two of the ratings. |
| ExportVocabulary.RunnerUpRanks | src/lib/export.ts:991-996 | The runner-ups are exactly positions 1 and 2 of the ratings sorted by descending rating. They rank below position 0 and above every other rating. |
| ExportVocabulary.VocabularyReportRow | src/lib/export.ts:928-982 | The loop over the trimmed pieces computes the field's row accumulation. |
| ExportVocabulary.AddPiece | src/lib/export.ts:943-979 | One piece adds its row only when it is non-empty and not yet a source value. |
| ExportVocabulary.MakeRow | src/lib/export.ts:954-978 | The exact-match row for a preferred label. Otherwise the best match and the two runner-ups with their percentages. |
| ExportVocabulary.ExactRowOk | src/lib/export.ts:955-956 | The exact-match row has 10 columns, the target field name, and the value in columns 2 and 3. |
| ExportVocabulary.MatchRowOk | src/lib/export.ts:967-978 | A similarity row has 10 columns, the field name, the value and an empty exact-match column. |
| ExportVocabulary.RowsForGood | src/lib/export.ts:935-980 | Appending never drops rows. It keeps every row at 10 columns with the field name, and keeps source values non-empty and distinct. Every non-empty trimmed piece of the field's value has a row with that source value afterwards. |
| ExportVocabulary.RowsForIdempotent | src/lib/export.ts:944-950 | Running a field's accumulation again on its own result adds nothing. |
| ExportVocabulary.RepeatedCreatorAddsNothing | src/lib/export.ts:902-904 | The second Creator call of an item leaves the Creator rows as the first call left them. |
| ExportVocabulary.ItemReportRows | src/lib/export.ts:900-907 | The eight field calls of one item, in the source's order. |
| ExportVocabulary.FieldsGoodAlways | src/lib/export.ts:893-908 | After any prefix of items, every field's rows have 10 columns, its field name, and distinct non-empty source values. |
| ExportVocabulary.ProcessVocabularyReport | src/lib/export.ts:861-926 | The report is the header followed by the sorted rows of donor, contributor, creator, period, place, publisher and subject. |
| ExportVocabulary.ReportShape | src/lib/export.ts:871-922 | The report is the header plus a permutation of the collected rows. Every row has 10 columns, one of the seven field names and a non-empty source value. Its exact-match column is the value for a preferred label and empty otherwise. |
| Sorting.SortBy | src/lib/export.ts:984-995 | The sorted list is a permutation of the input. |
| Sorting.SortByUnmoved | src/lib/export.ts:984-995 | A comparator that never puts one element before another leaves the list unchanged. |
| Sorting.SortByOrdered | src/lib/export.ts:984-995 | For a consistent comparator (irreflexive, transitive, with transitive ties) no later element of the result precedes an earlier one. |
| Sorting.SortByStable | src/lib/export.ts:984-995 | For a consistent comparator the sort is stable: the elements tied with any given element appear in the result in their input order. |
| ExportVocabulary.HigherWeakOrder | src/lib/export.ts:991-995 | The runner-up comparator `b.rating - a.rating` is a consistent order. |
| ExportVocabulary.HigherTied | src/lib/export.ts:991-995 | Two ratings are tied under the runner-up comparator exactly when their scores are equal. |
| ExportVocabulary.RankedStable | src/lib/export.ts:991-995 | Ratings with the same score keep their input order when ranked, so the earlier of two tied ratings is ranked first. |
| ExportVocabulary.BySourceWeakOrder | src/lib/export.ts:984-988 | A collation that is a consistent order of strings (irreflexive, transitive, with transitive ties) makes the row comparator `a[2].localeCompare(b[2])` a consistent order of rows. |
| ExportVocabulary.ReportOrdered | src/lib/export.ts:984-988 | When the collation is a consistent order of strings, the report rows are ordered by source value and rows whose source values collate equal keep their emission order. |
| ExportVocabulary.ConsistentCollationExists | src/lib/export.ts:984-988 | The hypothesis of `ReportOrdered` is met by a collation that does order strings (one by length, which puts "a" before "ab"). |
| AppStore.CheckCrosswalkFields | src/lib/stores/app-store.ts:586-595 | An entry with undefined nicks becomes `{[""], false}`; any other is kept. |
| AppStore.ConvertCrosswalk | src/lib/stores/app-store.ts:574-584 | A null stored crosswalk becomes `{}`. Otherwise the same aliases and field keys are kept, each entry normalised. |
| AppStore.AppStore.CrosswalkDefault | src/lib/stores/app-store.ts:597-611 | Every preference field id maps to `{[""], false}`, and there are no other keys. |
| AppStore.RemovedFields | src/lib/stores/app-store.ts:336-338 | Exactly the old fields whose id is not among the new fields. |
| AppStore.SetCrosswalkFacts | src/lib/stores/app-store.ts:217-238 | After `_setCrosswalk`, the entry's nicks are the new value. Its `itemExport` is kept if the entry existed, else false. Other aliases and fields are unchanged. A new alias is seeded with the default for every preference field. |
| AppStore.AppStore.SetCrosswalk | src/lib/stores/app-store.ts:217-238 | The crosswalk becomes the update above, and no other state changes. |
| AppStore.SetItemExportFacts | src/lib/stores/app-store.ts:252-273 | Only `itemExport` is set. The nicks are kept, or `[""]` for a new entry. Every other entry is unchanged. |
| AppStore.AppStore.SetCrosswalkItemExport | src/lib/stores/app-store.ts:252-273 | The crosswalk becomes that update, and no other state changes. |
| AppStore.NicksThenItemExport | src/lib/stores/app-store.ts:217-273 | Setting nicks and then `itemExport` gives both, in either order. |
| AppStore.RemoveFieldFacts | src/lib/stores/app-store.ts:240-250 | Removing a field is a no-op when the alias is absent. Otherwise it deletes exactly that field key for that alias. |
| AppStore.AppStore.RemoveCrosswalkField | src/lib/stores/app-store.ts:240-250 | The crosswalk becomes that deletion, and no other state changes. |
| AppStore.AppStore.RemoveFromEveryAlias | src/lib/stores/app-store.ts:341-343 | The loop over aliases removes the field from every alias. |
| AppStore.DropFieldsFacts | src/lib/stores/app-store.ts:336-344 | Dropping fields keeps every alias, removes exactly the dropped ids, and leaves kept entries untouched. |
| AppStore.AppStore.SetPreferencesFields | src/lib/stores/app-store.ts:335-350 | Every dropped field id is removed from every alias, and the preference fields become the new list. |
| AppStore.KeptFieldsDropNothing | src/lib/stores/app-store.ts:335-344 | When no old field is dropped, the crosswalk is unchanged. |
| AppStore.DefaultPort | src/lib/stores/app-store.ts:291-293 | An empty port becomes 443 with SSL and 80 without; a given port is kept. |
| AppStore.AppStore.SetPreferencesContentDm | src/lib/stores/app-store.ts:286-307 | The server settings take the defaulted port, and the ContentDM server becomes those settings. The selected alias is reset to `''` and the collection field info to null. |
| AppStore.AppStore.PushError | src/lib/stores/app-store.ts:462-469 | Appends exactly one error at the end. |
| AppStore.AppStore.ClearError | src/lib/stores/app-store.ts:471-476 | Removes every occurrence of the error and keeps the rest in order. |
| AppStore.WithoutMembers | src/lib/stores/app-store.ts:472 | After clearing, the error is absent and every other error is still present; no error is added. |
| AppStore.PushThenClear | src/lib/stores/app-store.ts:462-476 | Pushing an error and then clearing it gives the list cleared of that error. |
| AppStore.AppStore.constructor | src/lib/stores/app-store.ts:37-67 | The store starts with an empty crosswalk, no fields, no server and no errors. |

## Left out

- **Network access.** The ContentDM client (`item`, `compoundObject`, `collectionFieldInfo`, `_request`), the ArchivesSpace client and `src/lib/map.ts` are not modelled. Their answers are oracle functions (`Services`, `PageQuery`, the page-info function) passed as parameters.
- **Filesystem access.**
  - `getFilenames` is not modelled; listings are `ExportContext` inputs.
  - `createDirectories`, `copyFileToProject` and `createContinerFilesystem` are not modelled; a copy outcome is the `copy` oracle.
  - `_copyFile` awaits `createDirectories(destPath)` before its `try` (src/lib/export.ts:624). A rejection there aborts the whole export. The model does not produce that failure: directory creation always succeeds in it.
  - `writeFile`, `createWriteStream`, `downloadLocation` and the writing done by `processErrors` are left out as I/O.
- **Date and names.** The clock behind `toLocalDateString` is a `date` parameter of the report location. `v4()` UUIDs are not represented in project objects.
- **Async plumbing.** `sleep`, progress callbacks and async sequencing are left out; they do not affect the data.
- **Floating point and locale.**
  - The similarity ratings of `findBestMatch` are a `Matching` oracle.
  - So are the `toFixed(3)` percentages.
  - So is the `localeCompare` collation.
- **Helpers.** `padLeft`, `capitalize`, `filePostfix`, `csvString` and Node's `parse` are not part of this model. They are uninterpreted, and the CSV encoding of rows is not modelled at all.
- **Sorts on values.** `_sortVocabularyReportFields` and `_findRunnerUpMatch` sort in place; the model sorts values with a stable insertion sort (`Sorting.SortBy`). The model does not capture the in-place mutation or aliasing of the caller's array.
- ExportVocabulary.ReportShape: proves that the report rows are a permutation of the collected rows. Their order is proved separately (`ExportVocabulary.ReportOrdered`), for every collation that is a consistent order of strings, because `localeCompare` is an oracle with no stated properties.
- ExportVocabulary.BySource: compares rows by `SourceKey`, which is the third column, or `""` for a row with fewer than three columns. The source reads `a[2]` and would fail on such a row. No report row is that short, because every row has ten columns.
- ExportProject.ProcessCarpentersProject: the progress fraction and the `cdmFiles` accumulation when `getCdmFilenames` returns null are not modelled. The source's `getCdmFilenames` never returns null.
- ExportMapping.Map: the `!item` early return (an empty list in place of a mapped item) is not modelled, because callers pass only items the client returned.
- **Null crosswalk in the store.** The `!this.crosswalk` branches of `_setCrosswalk`, `_setCrosswalkItemExport` and `_removeCrosswalkField` are covered by an empty map; the store's crosswalk is never null after `loadInitialState`.
- AppStore.AppStore.SetPreferencesContentDm: the port is kept as text. `Number(port)` is not modelled, so a non-numeric port is not turned into `NaN`.
- **Store plumbing.** `loadInitialState` is modelled only through `_convertCrosswalk`. `electronStore` persistence, `emitUpdate` and `_setCollections` are left out as persistence and network. `_setContentDmServer` is modelled only for its effect on the store: `AppStore.AppStore.SetPreferencesContentDm` sets the server to the new hostname, defaulted port and SSL flag.
- **Orchestration.** The `export()` entry point and `_processRecords` are not modelled beyond the precheck. They sequence the modelled operations with I/O.

## Findings

| source | as written | input that shows it | evidently intended | confidence | as-written member | corrected member |
|---|---|---|---|---|---|---|
| src/lib/export.ts:179-182 | The next page is requested at `start + 1025`, and each page's records are put before the earlier ones. | A collection of 1025 records: the second request starts at 1026, so record 1025 is never fetched. With 2049 records, records 1026-2049 come before 1-1024. | Consecutive 1024-record pages, starting at `start + 1024`, appended in order. | not executed | ExportRecords.SkipsRecord1025, ExportRecords.LaterPageFirst (on ExportRecords.RecordsAsWritten) | ExportRecords.RecordsInOrder, ExportRecords.AllRecords (on ExportRecords.Records) |

A second listing entry with an already-matched stem is not consumed. `find` takes the first match (src/lib/export.ts:611), and the leftover filter is by stem (src/lib/export.ts:700-704), so that entry is neither copied nor reported as left over. The model follows the code; `ExportFiles.DuplicateStem` states it.
