/**
 * The packaging ("Carpenters project") shapes and the rendering of a
 * container record as the directory path its files are copied to.
 */
module Carpenters {
  import opened Wrappers
  import Text

  /** `ProjectType`: an archival project takes its containers from the archival description service. */
  datatype ProjectType = Archival | NonArchival

  /** `FilePurpose`: which local directory a file came from. */
  datatype FilePurpose = Preservation | Access | ModifiedMaster | SubmissionDocumentation

  /** The processing type recorded for an object (the enum is imported by the exporter). */
  datatype ProcessingType = ImageType | TextType | UnknownType

  /**
   * `IContainer`: up to three levels, each a type and an indicator, plus the
   * reference of the top container the levels were resolved from.
   */
  datatype Container = Container(
    topContainer: Option<string>,
    type1: Option<string>, indicator1: Option<int>,
    type2: Option<string>, indicator2: Option<int>,
    type3: Option<string>, indicator3: Option<int>)

  /** `IFile`: a file of an object, by its path inside the project and its purpose. */
  datatype File = File(path: string, purpose: FilePurpose)

  /** `padLeft(value, width, fill)`, a helper whose definition is not part of this model. */
  type PadLeft = (Option<int>, nat, char) -> string

  /** JavaScript truthiness of a `string | null` value. */
  predicate Truthy(t: Option<string>)
  {
    t.Some? && t.value != ""
  }

  /** A `string | null` value as a template literal renders it. */
  function TypeText(t: Option<string>): string
  {
    if t.Some? then t.value else "null"
  }

  /** One level: `{type}_{indicator padded to 3 with '0'}/`. */
  function Segment(t: Option<string>, indicator: Option<int>, padLeft: PadLeft): string
  {
    TypeText(t) + "_" + padLeft(indicator, 3, '0') + "/"
  }

  /** The path before spaces are replaced: level 1 always, levels 2 and 3 each only when its type is truthy. */
  function LevelPath(c: Container, padLeft: PadLeft): string
  {
    Segment(c.type1, c.indicator1, padLeft)
    + (if Truthy(c.type2) then Segment(c.type2, c.indicator2, padLeft) else "")
    + (if Truthy(c.type3) then Segment(c.type3, c.indicator3, padLeft) else "")
  }

  /** `containerToPath`: no container gives the empty path; otherwise the level path with its first space made `_`. */
  function ContainerToPath(c: Option<Container>, padLeft: PadLeft): (path: string)
    ensures c.None? ==> path == ""
    ensures c.Some? ==> |path| == |LevelPath(c.value, padLeft)| > 0 && path[|path| - 1] == '/'
  {
    if c.None? then ""
    else
      var raw := LevelPath(c.value, padLeft);
      var path := Text.ReplaceFirst(raw, ' ', '_');
      assert raw[|raw| - 1] == '/';
      assert Text.IndexOf(raw, ' ') != |raw| - 1;
      path
  }

  /** No character of any piece of a level is a `/`, so each level contributes exactly one. */
  predicate SlashFree(c: Container, padLeft: PadLeft)
  {
    && '/' !in TypeText(c.type1) && '/' !in padLeft(c.indicator1, 3, '0')
    && '/' !in TypeText(c.type2) && '/' !in padLeft(c.indicator2, 3, '0')
    && '/' !in TypeText(c.type3) && '/' !in padLeft(c.indicator3, 3, '0')
  }

  lemma NoCount(s: string, c: char)
    requires c !in s
    ensures Text.Count(s, c) == 0
    decreases |s|
  {
    if |s| > 0 {
      assert s == [s[0]] + s[1..];
      NoCount(s[1..], c);
    }
  }

  lemma SegmentSlashes(t: Option<string>, indicator: Option<int>, padLeft: PadLeft)
    requires '/' !in TypeText(t) && '/' !in padLeft(indicator, 3, '0')
    ensures Text.Count(Segment(t, indicator, padLeft), '/') == 1
  {
    var a, b := TypeText(t), padLeft(indicator, 3, '0');
    NoCount(a, '/');
    NoCount(b, '/');
    Text.CountAppend(a, "_", '/');
    Text.CountAppend(a + "_", b, '/');
    Text.CountAppend(a + "_" + b, "/", '/');
  }

  /**
   * The path has one `/`-terminated segment per present level: level 1
   * always, and levels 2 and 3 each exactly when its own type is truthy
   * (level 3 does not depend on level 2).
   */
  lemma {:induction false} PathLevels(c: Container, padLeft: PadLeft)
    requires SlashFree(c, padLeft)
    ensures Text.Count(ContainerToPath(Some(c), padLeft), '/')
      == 1 + (if Truthy(c.type2) then 1 else 0) + (if Truthy(c.type3) then 1 else 0)
  {
    var s1 := Segment(c.type1, c.indicator1, padLeft);
    var s2 := if Truthy(c.type2) then Segment(c.type2, c.indicator2, padLeft) else "";
    var s3 := if Truthy(c.type3) then Segment(c.type3, c.indicator3, padLeft) else "";
    SegmentSlashes(c.type1, c.indicator1, padLeft);
    if Truthy(c.type2) { SegmentSlashes(c.type2, c.indicator2, padLeft); }
    if Truthy(c.type3) { SegmentSlashes(c.type3, c.indicator3, padLeft); }
    Text.CountAppend(s1, s2, '/');
    Text.CountAppend(s1 + s2, s3, '/');
    Text.ReplaceFirstCount(LevelPath(c, padLeft), ' ', '_', '/');
  }

  /**
   * Only the first space of the level path becomes `_`: the rendered path
   * has exactly one space fewer when there is one, and every other
   * character is the level path's own.
   */
  lemma {:induction false} PathSpaces(c: Container, padLeft: PadLeft)
    ensures var raw := LevelPath(c, padLeft);
      var path := ContainerToPath(Some(c), padLeft);
      && Text.Count(path, ' ') == (if ' ' in raw then Text.Count(raw, ' ') - 1 else 0)
      && forall i :: 0 <= i < |raw| && i != Text.IndexOf(raw, ' ') ==> path[i] == raw[i]
  {
    var raw := LevelPath(c, padLeft);
    Text.ReplaceFirstCount(raw, ' ', '_', '/');
    if ' ' !in raw {
      NoCount(raw, ' ');
    }
  }

  /** A level path without spaces is rendered unchanged. */
  lemma SpaceFreePath(c: Container, padLeft: PadLeft)
    requires ' ' !in LevelPath(c, padLeft)
    ensures ContainerToPath(Some(c), padLeft) == LevelPath(c, padLeft)
  {
  }

  /** `{Box, 1, Folder, 2, null}` renders as `Box_001/Folder_002/` when `padLeft` pads with '0' to width 3. */
  lemma BoxFolderExample(padLeft: PadLeft)
    requires padLeft(Some(1), 3, '0') == "001" && padLeft(Some(2), 3, '0') == "002"
    ensures ContainerToPath(Some(Container(None, Some("Box"), Some(1), Some("Folder"), Some(2), None, None)), padLeft)
      == "Box_001/Folder_002/"
  {
    var c := Container(None, Some("Box"), Some(1), Some("Folder"), Some(2), None, None);
    assert LevelPath(c, padLeft) == "Box_001/Folder_002/" by {
      assert Segment(c.type1, c.indicator1, padLeft) == "Box_001/";
      assert Segment(c.type2, c.indicator2, padLeft) == "Folder_002/";
    }
    SpaceFreePath(c, padLeft);
  }

  /** The first space of a level path becomes `_` and nothing after it changes. */
  lemma FirstSpacePath(c: Container, padLeft: PadLeft, x: string, y: string)
    requires LevelPath(c, padLeft) == x + [' '] + y && ' ' !in x
    ensures ContainerToPath(Some(c), padLeft) == x + ['_'] + y
  {
    Text.ReplaceFirstAt(x, y, ' ', '_');
  }

  /** A second space in the path survives: in `Map Case` / `Map Folder` only the first space becomes `_`. */
  lemma SecondSpaceKept(padLeft: PadLeft)
    requires padLeft(Some(3), 3, '0') == "003" && padLeft(Some(1), 3, '0') == "001"
    ensures ContainerToPath(Some(Container(None, Some("Map Case"), Some(3), Some("Map Folder"), Some(1), None, None)), padLeft)
      == "Map_Case_003/Map Folder_001/"
  {
    var c := Container(None, Some("Map Case"), Some(3), Some("Map Folder"), Some(1), None, None);
    var s2 := Segment(c.type2, c.indicator2, padLeft);
    assert Segment(c.type1, c.indicator1, padLeft) == "Map" + [' '] + "Case_003/";
    assert LevelPath(c, padLeft) == "Map" + [' '] + ("Case_003/" + s2);
    FirstSpacePath(c, padLeft, "Map", "Case_003/" + s2);
    assert s2 == "Map Folder_001/";
    MapCaseLiteral();
  }

  lemma MapCaseLiteral()
    ensures "Map" + ['_'] + ("Case_003/" + "Map Folder_001/") == "Map_Case_003/Map Folder_001/"
  {
  }
}
