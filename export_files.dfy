/**
 * File reconciliation for a packaging project: each file a repository item
 * declares is looked up by stem in the access, preservation and
 * modified-master listings, copied under its project name, and entered in
 * the object's manifest (`getCdmFilenames`, `_processCarpentersFiles`,
 * `_copyFiles`); afterwards the listing entries no item consumed are
 * reported (`reportMissedFiles`, `outputMissedFileReport`).
 */
module ExportFiles {
  import opened Wrappers
  import opened Text
  import opened AppState
  import opened Carpenters
  import opened ExportTypes

  /** `purposeToString`: the purpose's name as the soft errors show it. */
  function PurposeToString(purpose: FilePurpose): (s: string)
    ensures |s| > 0
  {
    match purpose
    case Access => "access"
    case Preservation => "preservation"
    case ModifiedMaster => "modified master"
    case SubmissionDocumentation => "submission document"
  }

  /** Different purposes are never shown by the same name. */
  lemma PurposeNamesDistinct(p: FilePurpose, q: FilePurpose)
    requires p != q
    ensures PurposeToString(p) != PurposeToString(q)
  {
  }

  /** `getCdmFilenames`: one source-file record per declared file, named after its access file. */
  function GetCdmFilenames(parse: string -> PathInfo, files: seq<CdmFile>): (r: seq<SourceFile>)
    ensures |r| == |files|
    ensures forall k :: 0 <= k < |files| ==>
      r[k].filename == files[k].accessFilename &&
      r[k].name == parse(files[k].accessFilename).name && r[k].ext == parse(files[k].accessFilename).ext
    decreases |files|
  {
    if |files| == 0 then []
    else
      var f := files[|files| - 1];
      var info := parse(f.accessFilename);
      GetCdmFilenames(parse, files[..|files| - 1]) + [SourceFile(f.accessFilename, info.name, info.ext)]
  }

  /** The listing of the directory configured for a purpose (None: no such directory, or unreadable). */
  function Listing(ctx: ExportContext, purpose: FilePurpose): Option<seq<SourceFile>>
  {
    match purpose
    case Access => ctx.accessFiles
    case Preservation => ctx.preservationFiles
    case ModifiedMaster => ctx.modifiedMasterFiles
    case SubmissionDocumentation => None
  }

  /** The directory configured for a purpose. */
  function SourcePath(ctx: ExportContext, purpose: FilePurpose): string
  {
    match purpose
    case Access => ctx.accessPath
    case Preservation => ctx.preservationPath
    case ModifiedMaster => ctx.modifiedMasterPath
    case SubmissionDocumentation => ""
  }

  /** `files.find(file => file.name === name)`: the first listing entry with that stem. */
  function FindByStem(listing: seq<SourceFile>, name: string): (r: Option<SourceFile>)
    ensures r.None? <==> forall f :: f in listing ==> f.name != name
    ensures r.Some? ==> exists k :: (0 <= k < |listing| && listing[k] == r.value && r.value.name == name &&
      forall j :: 0 <= j < k ==> listing[j].name != name)
    decreases |listing|
  {
    if |listing| == 0 then None
    else if listing[0].name == name then Some(listing[0])
    else
      var r := FindByStem(listing[1..], name);
      assert forall f :: f in listing ==> f == listing[0] || f in listing[1..];
      if r.Some? then
        assert exists k :: (0 <= k < |listing| && listing[k] == r.value && r.value.name == name &&
          forall j :: 0 <= j < k ==> listing[j].name != name) by {
          var k :| 0 <= k < |listing[1..]| && listing[1..][k] == r.value && r.value.name == name &&
            forall j :: 0 <= j < k ==> listing[1..][j].name != name;
          assert listing[k + 1] == listing[1..][k];
          assert forall j :: 1 <= j < k + 1 ==> listing[j] == listing[1..][j - 1];
        }
        r
      else r
  }

  /** The name a matched file gets in the project: `pad4(object)_pad4(file)` when renaming, else its stem, then postfix and extension. */
  function TargetFilename(ctx: ExportContext, objectIndex: int, fileIndex: int, purpose: FilePurpose, f: SourceFile): string
  {
    var h := ctx.helpers;
    if ctx.renameFiles then
      h.padLeft(Some(objectIndex), 4, '0') + "_" + h.padLeft(Some(fileIndex), 4, '0') + h.filePostfix(purpose) + f.ext
    else f.name + h.filePostfix(purpose) + f.ext
  }

  /** The soft error for a source file whose stem a listing lacks. */
  function MissError(purpose: FilePurpose, src: SourceFile): ExportError
  {
    ExportError(MissingFile, "Missing " + PurposeToString(purpose) + " file: " + src.filename)
  }

  /** The soft error for a failed copy. */
  function CopyError(f: SourceFile, err: string): ExportError
  {
    ExportError(CopyFailed, "Couldn't copy file " + f.filename + ": " + err)
  }

  /** The outcome of `_copyFiles`: a manifest entry, or the soft error it reported. */
  datatype CopyOutcome = Copied(file: File) | NotCopied(error: ExportError)

  /**
   * `_copyFiles`: the first listing entry with the source's stem is copied
   * from `srcPath` to `<exportLocation>/Files/<containerPath><filename>` and
   * entered as `Files/<containerPath><filename>`; without such an entry, or
   * when the copy fails, exactly one soft error and no entry.
   */
  function CopyFile(ctx: ExportContext, copy: (string, string) -> Option<string>, src: SourceFile, listing: seq<SourceFile>,
                    containerPath: string, srcPath: string, objectIndex: int, fileIndex: int, purpose: FilePurpose): (r: CopyOutcome)
    ensures FindByStem(listing, src.name).None? ==> r == NotCopied(MissError(purpose, src))
    ensures r.Copied? ==> FindByStem(listing, src.name).Some? && r.file == File("Files/" + containerPath +
      TargetFilename(ctx, objectIndex, fileIndex, purpose, FindByStem(listing, src.name).value), purpose)
    ensures r.NotCopied? ==> r.error.kind == MissingFile || r.error.kind == CopyFailed
    ensures FindByStem(listing, src.name).Some? ==>
      var f := FindByStem(listing, src.name).value;
      var name := TargetFilename(ctx, objectIndex, fileIndex, purpose, f);
      var res := copy(srcPath + "/" + f.filename, ctx.exportLocation + "/Files/" + containerPath + name);
      (res.None? ==> r == Copied(File("Files/" + containerPath + name, purpose))) &&
      (res.Some? ==> r == NotCopied(CopyError(f, res.value)))
  {
    match FindByStem(listing, src.name)
    case None => NotCopied(MissError(purpose, src))
    case Some(f) =>
      var filename := TargetFilename(ctx, objectIndex, fileIndex, purpose, f);
      var destPath := ctx.exportLocation + "/Files/" + containerPath;
      match copy(srcPath + "/" + f.filename, destPath + filename)
      case Some(err) => NotCopied(CopyError(f, err))
      case None => Copied(File("Files/" + containerPath + filename, purpose))
  }

  /** Manifest entries and soft errors, each in the order produced. */
  datatype FilesOutcome = FilesOutcome(files: seq<File>, errors: seq<ExportError>)

  /** One purpose's contribution for one source file: nothing when its directory is not configured. */
  function PurposeStep(ctx: ExportContext, copy: (string, string) -> Option<string>, src: SourceFile, containerPath: string,
                       objectIndex: int, fileIndex: int, purpose: FilePurpose, acc: FilesOutcome): FilesOutcome
  {
    match Listing(ctx, purpose)
    case None => acc
    case Some(listing) =>
      match CopyFile(ctx, copy, src, listing, containerPath, SourcePath(ctx, purpose), objectIndex, fileIndex, purpose)
      case Copied(f) => acc.(files := acc.files + [f])
      case NotCopied(e) => acc.(errors := acc.errors + [e])
  }

  /** One source file: access, then preservation, then modified master. */
  function SourceStep(ctx: ExportContext, copy: (string, string) -> Option<string>, src: SourceFile, containerPath: string,
                      objectIndex: int, fileIndex: int, acc: FilesOutcome): FilesOutcome
  {
    var a := PurposeStep(ctx, copy, src, containerPath, objectIndex, fileIndex, Access, acc);
    var p := PurposeStep(ctx, copy, src, containerPath, objectIndex, fileIndex, Preservation, a);
    PurposeStep(ctx, copy, src, containerPath, objectIndex, fileIndex, ModifiedMaster, p)
  }

  /** The source files in order, the k-th (from 1) with file index k. */
  function CarpentersFiles(ctx: ExportContext, copy: (string, string) -> Option<string>, sources: seq<SourceFile>,
                           containerPath: string, objectIndex: int): FilesOutcome
    decreases |sources|
  {
    if |sources| == 0 then FilesOutcome([], [])
    else SourceStep(ctx, copy, sources[|sources| - 1], containerPath, objectIndex, |sources|,
      CarpentersFiles(ctx, copy, sources[..|sources| - 1], containerPath, objectIndex))
  }

  /**
   * `_processCarpentersFiles`: the manifest entries and soft errors of the
   * item's files, every file under the directory of the object's container.
   */
  method ProcessCarpentersFiles(ctx: ExportContext, copy: (string, string) -> Option<string>, files: seq<CdmFile>,
                                objectIndex: int, container: Option<Container>)
    returns (entries: seq<File>, errors: seq<ExportError>)
    ensures FilesOutcome(entries, errors) ==
      CarpentersFiles(ctx, copy, GetCdmFilenames(ctx.helpers.parse, files), ContainerToPath(container, ctx.helpers.padLeft), objectIndex)
  {
    var sources := GetCdmFilenames(ctx.helpers.parse, files);
    var containerPath := ContainerToPath(container, ctx.helpers.padLeft);
    entries := [];
    errors := [];
    if |files| == 0 {
      return;
    }
    var index := 0;
    while index < |sources|
      invariant 0 <= index <= |sources|
      invariant FilesOutcome(entries, errors) == CarpentersFiles(ctx, copy, sources[..index], containerPath, objectIndex)
    {
      var src := sources[index];
      assert sources[..index + 1][..index] == sources[..index];
      index := index + 1;
      var purpose: FilePurpose := Access;
      var step := 0;
      while step < 3
        invariant 0 <= step <= 3
        invariant purpose == (if step == 0 then Access else if step == 1 then Preservation else ModifiedMaster)
        invariant var base := CarpentersFiles(ctx, copy, sources[..index - 1], containerPath, objectIndex);
          var a := PurposeStep(ctx, copy, src, containerPath, objectIndex, index, Access, base);
          var p := PurposeStep(ctx, copy, src, containerPath, objectIndex, index, Preservation, a);
          FilesOutcome(entries, errors) == (if step == 0 then base else if step == 1 then a else if step == 2 then p
            else PurposeStep(ctx, copy, src, containerPath, objectIndex, index, ModifiedMaster, p))
      {
        var listing := Listing(ctx, purpose);
        if listing.Some? {
          var outcome := CopyFile(ctx, copy, src, listing.value, containerPath, SourcePath(ctx, purpose), objectIndex, index, purpose);
          if outcome.Copied? {
            entries := entries + [outcome.file];
          } else {
            errors := errors + [outcome.error];
          }
        }
        step := step + 1;
        purpose := if step == 1 then Preservation else ModifiedMaster;
      }
    }
    assert sources[..index] == sources;
  }

  /** How many of the three directories are configured. */
  function Configured(ctx: ExportContext): nat
  {
    (if ctx.accessFiles.Some? then 1 else 0) + (if ctx.preservationFiles.Some? then 1 else 0) +
    (if ctx.modifiedMasterFiles.Some? then 1 else 0)
  }

  /** Every soft error is a missing file or a failed copy. */
  predicate FileErrors(errors: seq<ExportError>)
  {
    forall e :: e in errors ==> e.kind == MissingFile || e.kind == CopyFailed
  }

  /**
   * Each source file, for each configured directory, yields exactly one
   * thing: a manifest entry or a soft error; and only file errors.
   */
  lemma {:induction false} FilesAccounting(ctx: ExportContext, copy: (string, string) -> Option<string>, sources: seq<SourceFile>,
                                           containerPath: string, objectIndex: int)
    ensures var out := CarpentersFiles(ctx, copy, sources, containerPath, objectIndex);
      |out.files| + |out.errors| == |sources| * Configured(ctx) && FileErrors(out.errors)
    decreases |sources|
  {
    if |sources| > 0 {
      var init := sources[..|sources| - 1];
      FilesAccounting(ctx, copy, init, containerPath, objectIndex);
      var base := CarpentersFiles(ctx, copy, init, containerPath, objectIndex);
      SourceStepCount(ctx, copy, sources[|sources| - 1], containerPath, objectIndex, |sources|, base);
      MulStep(|sources|, Configured(ctx));
    }
  }

  lemma MulStep(n: nat, c: nat)
    requires n > 0
    ensures (n - 1) * c + c == n * c
  {
  }

  lemma SourceStepCount(ctx: ExportContext, copy: (string, string) -> Option<string>, src: SourceFile, containerPath: string,
                        objectIndex: int, fileIndex: int, acc: FilesOutcome)
    requires FileErrors(acc.errors)
    ensures var out := SourceStep(ctx, copy, src, containerPath, objectIndex, fileIndex, acc);
      |out.files| + |out.errors| == |acc.files| + |acc.errors| + Configured(ctx) && FileErrors(out.errors)
  {
    var a := PurposeStep(ctx, copy, src, containerPath, objectIndex, fileIndex, Access, acc);
    var p := PurposeStep(ctx, copy, src, containerPath, objectIndex, fileIndex, Preservation, a);
    PurposeStepCount(ctx, copy, src, containerPath, objectIndex, fileIndex, Access, acc);
    PurposeStepCount(ctx, copy, src, containerPath, objectIndex, fileIndex, Preservation, a);
    PurposeStepCount(ctx, copy, src, containerPath, objectIndex, fileIndex, ModifiedMaster, p);
  }

  lemma PurposeStepCount(ctx: ExportContext, copy: (string, string) -> Option<string>, src: SourceFile, containerPath: string,
                         objectIndex: int, fileIndex: int, purpose: FilePurpose, acc: FilesOutcome)
    requires FileErrors(acc.errors)
    ensures var out := PurposeStep(ctx, copy, src, containerPath, objectIndex, fileIndex, purpose, acc);
      |out.files| + |out.errors| == |acc.files| + |acc.errors| + (if Listing(ctx, purpose).Some? then 1 else 0) &&
      FileErrors(out.errors)
  {
  }

  /** The rank of the three copied purposes in manifest order. */
  function Rank(p: FilePurpose): nat
  {
    match p
    case Access => 0
    case Preservation => 1
    case ModifiedMaster => 2
    case SubmissionDocumentation => 3
  }

  /**
   * One source file's entries are appended after those before it, in the
   * order access, preservation, modified master, and each names its purpose.
   */
  lemma SourceStepOrder(ctx: ExportContext, copy: (string, string) -> Option<string>, src: SourceFile, containerPath: string,
                        objectIndex: int, fileIndex: int, acc: FilesOutcome)
    ensures var out := SourceStep(ctx, copy, src, containerPath, objectIndex, fileIndex, acc);
      |out.files| >= |acc.files| && out.files[..|acc.files|] == acc.files &&
      (forall i, j :: |acc.files| <= i < j < |out.files| ==> Rank(out.files[i].purpose) < Rank(out.files[j].purpose)) &&
      (forall i :: |acc.files| <= i < |out.files| ==> Listing(ctx, out.files[i].purpose).Some?)
  {
    var a := PurposeStep(ctx, copy, src, containerPath, objectIndex, fileIndex, Access, acc);
    var p := PurposeStep(ctx, copy, src, containerPath, objectIndex, fileIndex, Preservation, a);
    var m := PurposeStep(ctx, copy, src, containerPath, objectIndex, fileIndex, ModifiedMaster, p);
    PurposeStepAppends(ctx, copy, src, containerPath, objectIndex, fileIndex, Access, acc);
    PurposeStepAppends(ctx, copy, src, containerPath, objectIndex, fileIndex, Preservation, a);
    PurposeStepAppends(ctx, copy, src, containerPath, objectIndex, fileIndex, ModifiedMaster, p);
    assert m.files[..|acc.files|] == acc.files by {
      assert m.files[..|p.files|] == p.files;
      assert p.files[..|a.files|] == a.files;
      assert a.files[..|acc.files|] == acc.files;
    }
    forall i | |acc.files| <= i < |m.files|
      ensures Rank(m.files[i].purpose) == (if i < |a.files| then 0 else if i < |p.files| then 1 else 2)
      ensures Listing(ctx, m.files[i].purpose).Some?
    {
      if i < |a.files| {
        assert m.files[i] == p.files[i] == a.files[i];
      } else if i < |p.files| {
        assert m.files[i] == p.files[i];
      }
    }
  }

  lemma PurposeStepAppends(ctx: ExportContext, copy: (string, string) -> Option<string>, src: SourceFile, containerPath: string,
                           objectIndex: int, fileIndex: int, purpose: FilePurpose, acc: FilesOutcome)
    ensures var out := PurposeStep(ctx, copy, src, containerPath, objectIndex, fileIndex, purpose, acc);
      |acc.files| <= |out.files| <= |acc.files| + 1 && out.files[..|acc.files|] == acc.files &&
      (|out.files| > |acc.files| ==> out.files[|acc.files|].purpose == purpose && Listing(ctx, purpose).Some?)
  {
    var out := PurposeStep(ctx, copy, src, containerPath, objectIndex, fileIndex, purpose, acc);
    assert out.files[..|acc.files|] == acc.files;
  }

  /** With renaming on: object 3, file 1, access postfix "_ac" and a ".tif" match give "0003_0001_ac.tif". */
  lemma RenamedExample(ctx: ExportContext, f: SourceFile)
    requires ctx.renameFiles && f.ext == ".tif"
    requires ctx.helpers.padLeft(Some(3), 4, '0') == "0003" && ctx.helpers.padLeft(Some(1), 4, '0') == "0001"
    requires ctx.helpers.filePostfix(Access) == "_ac"
    ensures TargetFilename(ctx, 3, 1, Access, f) == "0003_0001_ac.tif"
  {
    RenamedLiteral();
  }

  lemma RenamedLiteral()
    ensures "0003" + "_" + "0001" + "_ac" + ".tif" == "0003_0001_ac.tif"
  {
  }

  /** With renaming off, the matched file keeps its stem and extension around the postfix. */
  lemma KeptNameFile(ctx: ExportContext, copy: (string, string) -> Option<string>, src: SourceFile, listing: seq<SourceFile>,
                     containerPath: string, srcPath: string, objectIndex: int, fileIndex: int, purpose: FilePurpose)
    requires !ctx.renameFiles
    ensures var r := CopyFile(ctx, copy, src, listing, containerPath, srcPath, objectIndex, fileIndex, purpose);
      r.Copied? ==> exists f :: (f in listing && f.name == src.name &&
        r.file.path == "Files/" + containerPath + src.name + ctx.helpers.filePostfix(purpose) + f.ext)
  {
    var r := CopyFile(ctx, copy, src, listing, containerPath, srcPath, objectIndex, fileIndex, purpose);
    if r.Copied? {
      var f := FindByStem(listing, src.name).value;
      assert f in listing && f.name == src.name;
    }
  }

  /** `findIndex(f => f.name === name) !== -1`: some consumed source file has the stem. */
  predicate HasStem(cdmFiles: seq<SourceFile>, name: string)
  {
    exists f :: f in cdmFiles && f.name == name
  }

  /** The listing entries whose stem no consumed source file has, in listing order. */
  function Unmatched(listing: seq<SourceFile>, cdmFiles: seq<SourceFile>): (r: seq<SourceFile>)
    ensures |r| <= |listing|
    decreases |listing|
  {
    if |listing| == 0 then []
    else
      var init := Unmatched(listing[..|listing| - 1], cdmFiles);
      var f := listing[|listing| - 1];
      if HasStem(cdmFiles, f.name) then init else init + [f]
  }

  /** A listing entry is left over exactly when no consumed source file has its stem. */
  lemma {:induction false} UnmatchedMembers(listing: seq<SourceFile>, cdmFiles: seq<SourceFile>)
    ensures forall f :: f in Unmatched(listing, cdmFiles) <==> f in listing && !HasStem(cdmFiles, f.name)
    decreases |listing|
  {
    if |listing| > 0 {
      var init := listing[..|listing| - 1];
      UnmatchedMembers(init, cdmFiles);
      assert listing == init + [listing[|listing| - 1]];
    }
  }

  /** The leftovers of two listings one after the other are the two leftovers one after the other. */
  lemma {:induction false} UnmatchedAppend(l1: seq<SourceFile>, l2: seq<SourceFile>, cdmFiles: seq<SourceFile>)
    ensures Unmatched(l1 + l2, cdmFiles) == Unmatched(l1, cdmFiles) + Unmatched(l2, cdmFiles)
    decreases |l2|
  {
    if |l2| == 0 {
      assert l1 + l2 == l1;
    } else {
      var init := l2[..|l2| - 1];
      var f := l2[|l2| - 1];
      UnmatchedAppend(l1, init, cdmFiles);
      assert l1 + l2 == (l1 + init) + [f];
      assert l2 == init + [f];
      UnmatchedSnoc(l1 + init, f, cdmFiles);
      UnmatchedSnoc(init, f, cdmFiles);
    }
  }

  lemma UnmatchedSnoc(l: seq<SourceFile>, f: SourceFile, cdmFiles: seq<SourceFile>)
    ensures Unmatched(l + [f], cdmFiles) == Unmatched(l, cdmFiles) + (if HasStem(cdmFiles, f.name) then [] else [f])
  {
    assert (l + [f])[..|l + [f]| - 1] == l;
  }

  /** With "img001" consumed, a listing of img001 and img002 leaves img002 over. */
  lemma LeftoverExample(f1: SourceFile, f2: SourceFile, src: SourceFile)
    requires f1.name == "img001" && f2.name == "img002" && src.name == "img001"
    ensures Unmatched([f1, f2], [src]) == [f2]
  {
    assert HasStem([src], f1.name) by { assert src in [src]; }
    assert !HasStem([src], f2.name) by { assert forall g :: g in [src] ==> g == src; }
    assert [f1, f2][..1] == [f1];
    assert [f1][..0] == [];
  }

  /**
   * Two listing entries with the stem of a consumed source file: the first
   * is the one copied, and neither is reported as left over, so the second
   * is neither copied nor reported.
   */
  lemma DuplicateStem(ctx: ExportContext, copy: (string, string) -> Option<string>, src: SourceFile, x: SourceFile, y: SourceFile,
                      containerPath: string, srcPath: string, objectIndex: int, fileIndex: int, purpose: FilePurpose)
    requires x.name == src.name && y.name == src.name && x != y
    ensures FindByStem([x, y], src.name) == Some(x)
    ensures var r := CopyFile(ctx, copy, src, [x, y], containerPath, srcPath, objectIndex, fileIndex, purpose);
      r.Copied? ==> r.file.path == "Files/" + containerPath + TargetFilename(ctx, objectIndex, fileIndex, purpose, x)
    ensures Unmatched([x, y], [src]) == []
  {
    assert HasStem([src], x.name) by { assert src in [src]; }
    assert [x, y][..1] == [x];
    assert [x][..0] == [];
  }

  /** The three leftover lists `reportMissedFiles` computes. */
  datatype Missed = Missed(access: seq<SourceFile>, preservation: seq<SourceFile>, modifiedMaster: seq<SourceFile>)

  /** Leftovers of one directory: none when it is not configured. */
  function Leftover(listing: Option<seq<SourceFile>>, cdmFiles: seq<SourceFile>): (r: seq<SourceFile>)
    ensures listing.None? ==> r == []
    ensures listing.Some? ==> r == Unmatched(listing.value, cdmFiles)
  {
    if listing.None? then [] else Unmatched(listing.value, cdmFiles)
  }

  function MissedFiles(ctx: ExportContext, cdmFiles: seq<SourceFile>): Missed
  {
    Missed(Leftover(ctx.accessFiles, cdmFiles), Leftover(ctx.preservationFiles, cdmFiles), Leftover(ctx.modifiedMasterFiles, cdmFiles))
  }

  /** The report's lines for one directory: `<dir>/<file>` per leftover entry. */
  function ReportPaths(dir: string, files: seq<SourceFile>): (r: seq<string>)
    ensures |r| == |files|
    ensures forall k :: 0 <= k < |files| ==> r[k] == dir + "/" + files[k].filename
    decreases |files|
  {
    if |files| == 0 then [] else ReportPaths(dir, files[..|files| - 1]) + [dir + "/" + files[|files| - 1].filename]
  }

  const NewLine: string := "\n"

  /**
   * `outputMissedFileReport`'s text: "Access Files:" and a line break, the
   * access paths joined by line breaks, a blank line, and likewise the
   * preservation and modified-master sections (the concatenation is
   * grouped from the right, which gives the same string).
   */
  function ReportText(ctx: ExportContext, m: Missed): string
  {
    var ja := Join(ReportPaths(ctx.accessPath, m.access), NewLine);
    var jp := Join(ReportPaths(ctx.preservationPath, m.preservation), NewLine);
    var jm := Join(ReportPaths(ctx.modifiedMasterPath, m.modifiedMaster), NewLine);
    "Access Files:" + NewLine + (ja + NewLine + (NewLine + ("Preservation Files:" + NewLine +
      (jp + NewLine + (NewLine + ("Modified Master Files:" + NewLine + jm))))))
  }

  /** `reportMissedFiles`: the report's text, emitted only when some directory has a leftover. */
  function ReportMissedFiles(ctx: ExportContext, cdmFiles: seq<SourceFile>): (r: Option<string>)
    ensures var m := MissedFiles(ctx, cdmFiles);
      r.Some? <==> (|m.access| > 0 || |m.preservation| > 0 || |m.modifiedMaster| > 0)
    ensures r.Some? ==> r.value == ReportText(ctx, MissedFiles(ctx, cdmFiles))
  {
    var m := MissedFiles(ctx, cdmFiles);
    if |m.access| > 0 || |m.preservation| > 0 || |m.modifiedMaster| > 0 then Some(ReportText(ctx, m)) else None
  }

  /** Where the report goes: `<exportLocation>/extra_files_<alias without its first '/'>_<date>.txt`. */
  function ReportLocation(ctx: ExportContext, date: string): string
  {
    ctx.exportLocation + "/extra_files_" + RemoveFirst(ctx.alias, '/') + "_" + date + ".txt"
  }

  /** A section's lines: its paths, or one empty line when it has none. */
  function SectionLines(paths: seq<string>): seq<string>
  {
    if |paths| == 0 then [""] else paths
  }

  lemma SectionJoin(paths: seq<string>)
    ensures Join(SectionLines(paths), "\n") == Join(paths, "\n")
  {
  }

  /**
   * Read line by line, the report is the access heading, its leftover paths,
   * a blank line, the preservation heading and paths, a blank line, and the
   * modified-master heading and paths (a section without leftovers shows one
   * empty line), whenever no path contains a line break.
   */
  lemma ReportLines(ctx: ExportContext, m: Missed)
    requires forall p :: p in ReportPaths(ctx.accessPath, m.access) ==> '\n' !in p
    requires forall p :: p in ReportPaths(ctx.preservationPath, m.preservation) ==> '\n' !in p
    requires forall p :: p in ReportPaths(ctx.modifiedMasterPath, m.modifiedMaster) ==> '\n' !in p
    ensures Split(ReportText(ctx, m), NewLine) ==
      ["Access Files:"] + SectionLines(ReportPaths(ctx.accessPath, m.access)) +
      ["", "Preservation Files:"] + SectionLines(ReportPaths(ctx.preservationPath, m.preservation)) +
      ["", "Modified Master Files:"] + SectionLines(ReportPaths(ctx.modifiedMasterPath, m.modifiedMaster))
  {
    var pa := ReportPaths(ctx.accessPath, m.access);
    var pp := ReportPaths(ctx.preservationPath, m.preservation);
    var pm := ReportPaths(ctx.modifiedMasterPath, m.modifiedMaster);
    SectionFree(pa);
    SectionFree(pp);
    SectionFree(pm);
    SectionJoin(pa);
    SectionJoin(pp);
    SectionJoin(pm);
    SectionsSplit("Access Files:", SectionLines(pa), "Preservation Files:", SectionLines(pp),
      "Modified Master Files:", SectionLines(pm), '\n');
  }

  lemma SectionsSplit(h1: string, a: seq<string>, h2: string, p: seq<string>, h3: string, mm: seq<string>, c: char)
    requires |a| > 0 && |p| > 0 && |mm| > 0
    requires c !in h1 && c !in h2 && c !in h3
    requires forall l :: l in a ==> c !in l
    requires forall l :: l in p ==> c !in l
    requires forall l :: l in mm ==> c !in l
    ensures var sep := [c];
      Split(h1 + sep + (Join(a, sep) + sep + (sep + (h2 + sep + (Join(p, sep) + sep + (sep + (h3 + sep + Join(mm, sep))))))), sep)
        == [h1] + a + ["", h2] + p + ["", h3] + mm
  {
    SectionsJoin(h1, a, h2, p, h3, mm, [c]);
    NoSeparator(h1, a, h2, p, h3, mm, c);
    SplitJoin(SectionsLines(h1, a, h2, p, h3, mm), c);
    Shape(h1, a, h2, p, h3, mm);
  }

  lemma SectionFree(paths: seq<string>)
    requires forall l :: l in paths ==> '\n' !in l
    ensures forall l :: l in SectionLines(paths) ==> '\n' !in l
  {
  }

  /** Three headed sections, each followed by a blank line but the last. */
  function SectionsLines(h1: string, a: seq<string>, h2: string, p: seq<string>, h3: string, mm: seq<string>): seq<string>
  {
    [h1] + a + ([""] + ([h2] + p + ([""] + ([h3] + mm))))
  }

  /** Joining the sections' lines gives headings, lines and blank lines separated by `sep`. */
  lemma SectionsJoin(h1: string, a: seq<string>, h2: string, p: seq<string>, h3: string, mm: seq<string>, sep: string)
    requires |a| > 0 && |p| > 0 && |mm| > 0
    ensures Join(SectionsLines(h1, a, h2, p, h3, mm), sep) ==
      h1 + sep + (Join(a, sep) + sep + (sep + (h2 + sep + (Join(p, sep) + sep + (sep + (h3 + sep + Join(mm, sep)))))))
  {
    var rest3 := [h3] + mm;
    JoinCons(h3, mm, sep);
    Section(h2, p, rest3, sep);
    Section(h1, a, [h2] + p + ([""] + rest3), sep);
  }

  lemma Section(h: string, body: seq<string>, rest: seq<string>, sep: string)
    requires |body| > 0 && |rest| > 0
    ensures Join([h] + body + ([""] + rest), sep) == h + sep + (Join(body, sep) + sep + (sep + Join(rest, sep)))
  {
    var tail := body + ([""] + rest);
    assert [h] + body + ([""] + rest) == [h] + tail;
    JoinCons(h, tail, sep);
    JoinAppend(body, [""] + rest, sep);
    JoinCons("", rest, sep);
    assert "" + sep == sep;
  }

  lemma Shape(h1: string, a: seq<string>, h2: string, p: seq<string>, h3: string, mm: seq<string>)
    ensures SectionsLines(h1, a, h2, p, h3, mm) == [h1] + a + ["", h2] + p + ["", h3] + mm
  {
  }

  lemma NoSeparator(h1: string, a: seq<string>, h2: string, p: seq<string>, h3: string, mm: seq<string>, c: char)
    requires c !in h1 && c !in h2 && c !in h3
    requires forall l :: l in a ==> c !in l
    requires forall l :: l in p ==> c !in l
    requires forall l :: l in mm ==> c !in l
    ensures forall l :: l in SectionsLines(h1, a, h2, p, h3, mm) ==> c !in l
  {
  }
}
