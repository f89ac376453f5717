/**
 * Fetching the collection's record list page by page (`records`), the
 * flattening of a compound object's page tree (`_pages`, `_toArray`) and
 * the file list of one item (`getRecord`).
 */
module ExportRecords {
  import opened Wrappers
  import opened ExportTypes

  /** The largest page the `dmQuery` request asks for. */
  const PageSize: nat := 1024

  /**
   * The `dmQuery` request starting at the 1-based record `start`: the
   * records of that page, or None when the request rejects.
   */
  type PageQuery<R> = int -> Option<seq<R>>

  function Min(a: int, b: int): int { if a <= b then a else b }

  /** A query that serves, for every start, the slice of `all` a 1024-record page from there holds. */
  ghost predicate ServesSlices<R>(query: PageQuery<R>, all: seq<R>)
  {
    forall start: int {:trigger query(start)} :: start >= 1 ==>
      query(start) == Some(all[Min(start - 1, |all|)..Min(start - 1 + PageSize, |all|)])
  }

  /**
   * `records` as written: the next request starts 1025 records later, the
   * loop goes on while the reported total reaches `start + 1024`, and each
   * page's records are put in front of those fetched before it. The total is
   * the one every page reports.
   */
  function RecordsAsWritten<R>(query: PageQuery<R>, total: int, start: int, prev: Option<seq<R>>): Option<seq<R>>
    decreases if total >= start then total - start else 0
  {
    var page :- query(start);
    var data := if prev.Some? then page + prev.value else page;
    if total >= start + PageSize then RecordsAsWritten(query, total, start + PageSize + 1, Some(data))
    else Some(data)
  }

  /** The paging the request was meant to do: consecutive pages of 1024, appended in order. */
  function Records<R>(query: PageQuery<R>, total: int, start: int, prev: seq<R>): Option<seq<R>>
    decreases if total >= start then total - start else 0
  {
    var page :- query(start);
    var data := prev + page;
    if total >= start + PageSize then Records(query, total, start + PageSize, data)
    else Some(data)
  }

  /** Against a query that serves consecutive slices, the corrected paging returns every record once, in order. */
  lemma {:induction false} RecordsInOrder<R>(query: PageQuery<R>, all: seq<R>, start: int, prev: seq<R>)
    requires ServesSlices(query, all)
    requires 1 <= start <= |all| + 1
    ensures Records(query, |all|, start, prev) == Some(prev + all[start - 1..])
    decreases |all| + 1 - start
  {
    var page := all[start - 1..Min(start - 1 + PageSize, |all|)];
    assert query(start) == Some(page);
    if |all| >= start + PageSize {
      assert Records(query, |all|, start, prev) == Records(query, |all|, start + PageSize, prev + page);
      RecordsInOrder(query, all, start + PageSize, prev + page);
      assert all[start - 1..] == page + all[start - 1 + PageSize..];
      assert prev + page + all[start - 1 + PageSize..] == prev + all[start - 1..];
    } else {
      assert page == all[start - 1..];
      assert Records(query, |all|, start, prev) == Some(prev + page);
    }
  }

  /** The whole collection, fetched from the first record. */
  lemma AllRecords<R>(query: PageQuery<R>, all: seq<R>)
    requires ServesSlices(query, all)
    ensures Records(query, |all|, 1, []) == Some(all)
  {
    RecordsInOrder(query, all, 1, []);
    assert [] + all[1 - 1..] == all;
  }

  /** As written, a collection of 1025 records comes back without its last record. */
  lemma SkipsRecord1025<R>(query: PageQuery<R>, all: seq<R>)
    requires ServesSlices(query, all) && |all| == 1025
    ensures RecordsAsWritten(query, 1025, 1, None) == Some(all[..1024])
    ensures |all[..1024]| < |all|
  {
    assert query(1) == Some(all[0..1024]);
    assert query(1026) == Some(all[1025..1025]);
    assert all[1025..1025] == [];
    assert RecordsAsWritten(query, 1025, 1026, Some(all[0..1024])) == Some([] + all[0..1024]);
    assert RecordsAsWritten(query, 1025, 1, None) == RecordsAsWritten(query, 1025, 1026, Some(all[0..1024]));
    assert [] + all[0..1024] == all[..1024];
  }

  /** As written, with 2049 records the second page comes first and record 1025 is missing. */
  lemma LaterPageFirst<R>(query: PageQuery<R>, all: seq<R>)
    requires ServesSlices(query, all) && |all| == 2049
    ensures RecordsAsWritten(query, 2049, 1, None) == Some(all[1025..] + all[..1024])
  {
    assert query(1) == Some(all[0..1024]);
    assert query(1026) == Some(all[1025..2049]);
    assert RecordsAsWritten(query, 2049, 1026, Some(all[0..1024])) == Some(all[1025..2049] + all[0..1024]);
    assert RecordsAsWritten(query, 2049, 1, None) == RecordsAsWritten(query, 2049, 1026, Some(all[0..1024]));
    assert all[1025..2049] + all[0..1024] == all[1025..] + all[..1024];
  }

  /** A value that XML-to-JSON conversion leaves absent, as a single object, or as an array. */
  datatype Many<T> = Absent | One(item: T) | Several(items: seq<T>)

  /** `_toArray`: nothing for a falsy value, the array itself, or a one-element array. */
  function ToArray<T>(m: Many<T>): (r: seq<T>)
    ensures m.Absent? ==> r == []
    ensures m.One? ==> r == [m.item]
    ensures m.Several? ==> r == m.items
  {
    match m
    case Absent => []
    case One(x) => [x]
    case Several(xs) => xs
  }

  /** A page of a compound object: its file name and pointer. */
  datatype CompoundPage = CompoundPage(pagefile: string, pageptr: string)

  /** A second-level node, carrying its own pages. */
  datatype SubNode = SubNode(page: Many<CompoundPage>)

  /** The top `node` of a compound object: nested nodes and/or pages. */
  datatype RootNode = RootNode(node: Many<SubNode>, page: Many<CompoundPage>)

  /** A compound object's structure as the repository returns it. */
  datatype CompoundObject = CompoundObject(node: Option<RootNode>, page: Many<CompoundPage>)

  /** The pages of a list of nested nodes, node by node. */
  function NodePages(nodes: seq<SubNode>): seq<CompoundPage>
    decreases |nodes|
  {
    if |nodes| == 0 then [] else NodePages(nodes[..|nodes| - 1]) + ToArray(nodes[|nodes| - 1].page)
  }

  /** The nested nodes `_pages` walks: those of `object.node.node`, when both are present. */
  function NestedNodes(obj: CompoundObject): seq<SubNode>
  {
    if obj.node.Some? then ToArray(obj.node.value.node) else []
  }

  /**
   * `object.page || object.node.page || []`: None when both `object.page`
   * and `object.node` are absent, where reading `.page` of undefined throws.
   */
  function OtherPages(obj: CompoundObject): Option<seq<CompoundPage>>
  {
    if !obj.page.Absent? then Some(ToArray(obj.page))
    else if obj.node.None? then None
    else Some(ToArray(obj.node.value.page))
  }

  /**
   * `_pages`: the pages of every nested node in order, then the top-level
   * pages. The result is None exactly where the source throws.
   */
  method Pages(obj: CompoundObject) returns (r: Option<seq<CompoundPage>>)
    ensures r.None? <==> obj.page.Absent? && obj.node.None?
    ensures r.Some? ==> r == Some(NodePages(NestedNodes(obj)) + OtherPages(obj).value)
  {
    var pages: seq<CompoundPage> := [];
    var nodes := NestedNodes(obj);
    var i := 0;
    while i < |nodes|
      invariant 0 <= i <= |nodes|
      invariant pages == NodePages(nodes[..i])
    {
      assert nodes[..i + 1][..i] == nodes[..i];
      pages := pages + ToArray(nodes[i].page);
      i := i + 1;
    }
    assert nodes[..i] == nodes;
    var other := OtherPages(obj);
    if other.None? {
      return None;
    }
    r := Some(pages + other.value);
  }

  /** A page belongs to the nested pages exactly when one of the nested nodes lists it. */
  lemma {:induction false} NodePagesMembers(nodes: seq<SubNode>, p: CompoundPage)
    ensures p in NodePages(nodes) <==> exists k :: 0 <= k < |nodes| && p in ToArray(nodes[k].page)
    decreases |nodes|
  {
    if |nodes| > 0 {
      var init := nodes[..|nodes| - 1];
      NodePagesMembers(init, p);
      if p in NodePages(init) {
        var k :| 0 <= k < |init| && p in ToArray(init[k].page);
        assert nodes[k] == init[k];
      }
      if exists k :: 0 <= k < |nodes| && p in ToArray(nodes[k].page) {
        var k :| 0 <= k < |nodes| && p in ToArray(nodes[k].page);
        if k < |init| {
          assert init[k] == nodes[k];
        }
      }
    }
  }

  /** A repository record of the query: pointer, file type, and the file name of a simple item. */
  datatype Record = Record(pointer: string, filetype: string, find: string)

  /** The nick of the "File Name" field, or "null" (what indexing with `null` reads) when there is none. */
  function FileNick(info: seq<FieldInfo>): (nick: string)
    ensures (forall k :: 0 <= k < |info| ==> info[k].name != "File Name") ==> nick == "null"
    ensures forall k :: 0 <= k < |info| && info[k].name == "File Name" && (forall j :: 0 <= j < k ==> info[j].name != "File Name") ==> nick == info[k].nick
    decreases |info|
  {
    if |info| == 0 then "null"
    else if info[0].name == "File Name" then info[0].nick
    else FileNick(info[1..])
  }

  /** The access file name a record shows under `nick`: its value when it is a string, else "". */
  function AccessFilename(item: RawItem, nick: string): string
  {
    if nick in item && item[nick].Str? then item[nick].s else ""
  }

  /**
   * The file list `getRecord` attaches to an item: one file per compound
   * page (with each page's own record, `pageInfo`), or the record's single
   * file. `pages` is what `_pages` gave for a compound record.
   */
  method RecordFiles(info: seq<FieldInfo>, record: Record, item: RawItem, pages: seq<CompoundPage>, pageInfo: string -> RawItem)
    returns (files: seq<CdmFile>)
    ensures record.filetype == "cpd" ==> |files| == |pages|
    ensures record.filetype == "cpd" ==> forall k :: 0 <= k < |pages| ==>
      files[k] == CdmFile(pages[k].pagefile, AccessFilename(pageInfo(pages[k].pageptr), FileNick(info)), pages[k].pageptr)
    ensures record.filetype != "cpd" ==> files == [CdmFile(record.find, AccessFilename(item, FileNick(info)), record.pointer)]
  {
    var nick := FileNick(info);
    if record.filetype == "cpd" {
      files := [];
      var k := 0;
      while k < |pages|
        invariant 0 <= k <= |pages|
        invariant |files| == k
        invariant forall j :: 0 <= j < k ==>
          files[j] == CdmFile(pages[j].pagefile, AccessFilename(pageInfo(pages[j].pageptr), nick), pages[j].pageptr)
      {
        var page := pages[k];
        files := files + [CdmFile(page.pagefile, AccessFilename(pageInfo(page.pageptr), nick), page.pageptr)];
        k := k + 1;
      }
    } else {
      files := [CdmFile(record.find, AccessFilename(item, nick), record.pointer)];
    }
  }
}
