/**
 * The download loop of `download_files`: one direct-download URL per file id
 * of every folder of every course, each handed to the browser in turn. The
 * browser session itself is not modelled; the loop's observable effect is the
 * sequence of URLs it navigates to.
 */
module Downloads {
  import opened Wrappers
  import opened Text
  import opened Sums
  import opened Courses

  const UrlHead := "https://mycourses2.mcgill.ca/d2l/le/content/"
  const UrlMiddle := "/topics/files/download/"
  const UrlTail := "/DirectFileTopicDownload"

  /** The direct-download URL of one file of one course. */
  function DownloadUrl(cid: CourseId, fid: FileId): (url: string)
    ensures StartsWith(url, UrlHead) && EndsWith(url, UrlTail)
  {
    var url := UrlHead + IntToString(cid) + UrlMiddle + fid + UrlTail;
    assert url[..|UrlHead|] == UrlHead;
    assert url[|url| - |UrlTail|..] == UrlTail;
    url
  }

  /** Reads the course id and file id back out of a direct-download URL. */
  function ParseDownloadUrl(url: string): (r: Option<(CourseId, FileId)>) {
    if !StartsWith(url, UrlHead) then None
    else
      var rest := url[|UrlHead|..];
      var slash := IndexOf(rest, '/');
      match ParseInt(rest[..slash])
      case None => None
      case Some(cid) =>
        var tail := rest[slash..];
        if |UrlMiddle| + |UrlTail| <= |tail| && StartsWith(tail, UrlMiddle) && EndsWith(tail, UrlTail)
        then Some((cid, tail[|UrlMiddle|..|tail| - |UrlTail|]))
        else None
  }

  /** The part of a URL after the course id gives the file id back. */
  lemma FilePartRoundTrip(fid: FileId)
    ensures var tail := UrlMiddle + fid + UrlTail;
      && |UrlMiddle| + |UrlTail| <= |tail| && StartsWith(tail, UrlMiddle) && EndsWith(tail, UrlTail)
      && tail[|UrlMiddle|..|tail| - |UrlTail|] == fid
  {
    var tail := UrlMiddle + fid + UrlTail;
    assert tail[..|UrlMiddle|] == UrlMiddle;
    assert tail[|tail| - |UrlTail|..] == UrlTail;
    assert tail[|UrlMiddle|..|tail| - |UrlTail|] == fid;
  }

  /** A URL names its course and file unambiguously. */
  lemma DownloadUrlRoundTrip(cid: CourseId, fid: FileId)
    ensures ParseDownloadUrl(DownloadUrl(cid, fid)) == Some((cid, fid))
  {
    var id := IntToString(cid);
    var url := DownloadUrl(cid, fid);
    var after := UrlMiddle + fid + UrlTail;
    var rest := url[|UrlHead|..];
    assert rest == id + after;
    assert forall j :: 0 <= j < |id| ==> id[j] != '/';
    IndexOfBoundary(id, after, '/');
    assert rest[..|id|] == id;
    IntToStringRoundTrip(cid);
    assert rest[|id|..] == after;
    FilePartRoundTrip(fid);
  }

  /** Two different (course, file) pairs never share a URL. */
  lemma DownloadUrlInjective(c1: CourseId, f1: FileId, c2: CourseId, f2: FileId)
    requires (c1, f1) != (c2, f2)
    ensures DownloadUrl(c1, f1) != DownloadUrl(c2, f2)
  {
    DownloadUrlRoundTrip(c1, f1);
    DownloadUrlRoundTrip(c2, f2);
  }

  /** The URLs of one folder, in the folder's own order. */
  function FolderUrls(cid: CourseId, files: seq<FileId>): (urls: seq<string>)
    ensures |urls| == |files|
  {
    if files == [] then []
    else FolderUrls(cid, files[..|files| - 1]) + [DownloadUrl(cid, files[|files| - 1])]
  }

  /** The i-th URL of a folder is the URL of its i-th file id. */
  lemma {:induction false} FolderUrlsAt(cid: CourseId, files: seq<FileId>, i: nat)
    requires i < |files|
    ensures FolderUrls(cid, files)[i] == DownloadUrl(cid, files[i])
  {
    var init := files[..|files| - 1];
    if i < |files| - 1 {
      FolderUrlsAt(cid, init, i);
    }
  }

  /** The URLs of each named folder of one course, as multisets. */
  ghost function FolderBags(cid: CourseId, folders: Folders, names: set<string>): (bags: map<string, multiset<string>>)
    requires names <= folders.Keys
    ensures bags.Keys == names
    ensures forall f :: f in names ==> bags[f] == multiset(FolderUrls(cid, folders[f]))
  {
    map f | f in names :: multiset(FolderUrls(cid, folders[f]))
  }

  /** The URLs of the named folders of one course, as one multiset. */
  ghost function FoldersUrls(cid: CourseId, folders: Folders, names: set<string>): (urls: multiset<string>)
    requires names <= folders.Keys
  {
    BagUnion(FolderBags(cid, folders, names))
  }

  /** Every URL of one course. */
  ghost function CourseUrls(cat: Catalog, cid: CourseId): (urls: multiset<string>)
    requires cid in cat
  {
    FoldersUrls(cid, cat[cid], cat[cid].Keys)
  }

  /** The URLs of each course in `ids`. */
  ghost function CourseBags(cat: Catalog, ids: set<CourseId>): (bags: map<CourseId, multiset<string>>)
    requires ids <= cat.Keys
    ensures bags.Keys == ids
    ensures forall c :: c in ids ==> bags[c] == CourseUrls(cat, c)
  {
    map c | c in ids :: CourseUrls(cat, c)
  }

  /**
   * Every URL of the courses in `ids`: the union of their `CourseUrls`, taken
   * over the courses in any order (see `Sums.BagUnionRemove`).
   */
  ghost function CatalogUrls(cat: Catalog, ids: set<CourseId>): (urls: multiset<string>)
    requires ids <= cat.Keys
  {
    BagUnion(CourseBags(cat, ids))
  }

  lemma FoldersUrlsInsert(cid: CourseId, folders: Folders, names: set<string>, f: string)
    requires names <= folders.Keys && f in folders && f !in names
    ensures FoldersUrls(cid, folders, names + {f})
         == FoldersUrls(cid, folders, names) + multiset(FolderUrls(cid, folders[f]))
  {
    BagUnionGrown(FolderBags(cid, folders, names), FolderBags(cid, folders, names + {f}), f);
  }

  lemma CatalogUrlsInsert(cat: Catalog, ids: set<CourseId>, cid: CourseId)
    requires ids <= cat.Keys && cid in cat && cid !in ids
    ensures CatalogUrls(cat, ids + {cid}) == CatalogUrls(cat, ids) + CourseUrls(cat, cid)
  {
    BagUnionGrown(CourseBags(cat, ids), CourseBags(cat, ids + {cid}), cid);
  }

  /** A course yields exactly as many URLs as `total_content_for_course` counts. */
  lemma CourseUrlsCount(cat: Catalog, cid: CourseId)
    requires cid in cat
    ensures |CourseUrls(cat, cid)| == CourseTotal(cat, cid)
  {
    var folders := cat[cid];
    BagUnionSize(FolderBags(cid, folders, folders.Keys), FolderSizes(folders));
  }

  /** The courses in `ids` yield exactly as many URLs as their counts add up to. */
  lemma CatalogUrlsCount(cat: Catalog, ids: set<CourseId>)
    requires ids <= cat.Keys
    ensures |CatalogUrls(cat, ids)| == SelectedTotal(cat, ids)
  {
    var m := CourseBags(cat, ids);
    var totals := CourseTotals(cat, ids);
    forall c | c in m ensures totals[c] == |m[c]| {
      CourseUrlsCount(cat, c);
    }
    BagUnionSize(m, totals);
  }

  /** The innermost loop: one navigation per file id, in folder order. */
  method DownloadFolder(cid: CourseId, files: seq<FileId>) returns (urls: seq<string>)
    ensures urls == FolderUrls(cid, files)
  {
    urls := [];
    for i := 0 to |files|
      invariant urls == FolderUrls(cid, files[..i])
    {
      assert files[..i + 1][..i] == files[..i];
      urls := urls + [DownloadUrl(cid, files[i])];
    }
    assert files[..|files|] == files;
  }

  /** One more folder visited: its URLs join those of the folders already visited. */
  lemma FolderDone(cid: CourseId, folders: Folders, names: set<string>, name: string,
                   done: seq<string>, part: seq<string>)
    requires names <= folders.Keys && name in names
    requires multiset(done) == FoldersUrls(cid, folders, folders.Keys - names)
    requires part == FolderUrls(cid, folders[name])
    ensures multiset(done + part) == FoldersUrls(cid, folders, folders.Keys - (names - {name}))
  {
    var before := folders.Keys - names;
    var after := folders.Keys - (names - {name});
    assert after == before + {name};
    FoldersUrlsInsert(cid, folders, before, name);
    assert multiset(done + part) == multiset(done) + multiset(part);
  }

  /** One more course visited: its URLs join those of the courses already visited. */
  lemma CourseDone(cat: Catalog, ids: set<CourseId>, todo: set<CourseId>, cid: CourseId,
                   done: seq<string>, part: seq<string>)
    requires ids <= cat.Keys && todo <= ids && cid in todo
    requires multiset(done) == CatalogUrls(cat, ids - todo)
    requires multiset(part) == CourseUrls(cat, cid)
    ensures multiset(done + part) == CatalogUrls(cat, ids - (todo - {cid}))
  {
    var visited := ids - todo;
    var after := ids - (todo - {cid});
    assert after == visited + {cid};
    CatalogUrlsInsert(cat, visited, cid);
    assert CatalogUrls(cat, after) == CatalogUrls(cat, visited) + CourseUrls(cat, cid);
    assert multiset(done + part) == multiset(done) + multiset(part);
  }

  /** The middle loop: every folder of one course, in whatever order the folders come. */
  method DownloadCourse(cid: CourseId, folders: Folders) returns (urls: seq<string>)
    ensures multiset(urls) == FoldersUrls(cid, folders, folders.Keys)
  {
    urls := [];
    var names := folders.Keys;
    assert FolderBags(cid, folders, folders.Keys - names).Keys == {};
    while names != {}
      invariant names <= folders.Keys
      invariant multiset(urls) == FoldersUrls(cid, folders, folders.Keys - names)
      decreases names
    {
      ghost var someName := Member(names);
      var name :| name in names;
      var part := DownloadFolder(cid, folders[name]);
      FolderDone(cid, folders, names, name, urls, part);
      urls := urls + part;
      names := names - {name};
    }
    assert folders.Keys - names == folders.Keys;
  }

  /**
   * The outer loop over the courses in `ids`. Course and folder order is the
   * dictionaries' order, which nothing depends on, so each step takes any key
   * not yet visited.
   */
  method DownloadCourses(cat: Catalog, ids: set<CourseId>) returns (urls: seq<string>)
    requires ids <= cat.Keys
    ensures multiset(urls) == CatalogUrls(cat, ids)
    ensures |urls| == SelectedTotal(cat, ids)
  {
    urls := [];
    var todo := ids;
    assert CourseBags(cat, ids - todo).Keys == {};
    while todo != {}
      invariant todo <= ids
      invariant multiset(urls) == CatalogUrls(cat, ids - todo)
      decreases todo
    {
      ghost var someId := Member(todo);
      var cid :| cid in todo;
      var part := DownloadCourse(cid, cat[cid]);
      CourseDone(cat, ids, todo, cid, urls, part);
      urls := urls + part;
      todo := todo - {cid};
    }
    assert ids - todo == ids;
    CatalogUrlsCount(cat, ids);
  }

  /** `download_files` as written: it walks the whole catalog, whatever is selected. */
  method DownloadFiles(cat: Catalog) returns (urls: seq<string>)
    ensures multiset(urls) == CatalogUrls(cat, cat.Keys)
    ensures |urls| == SelectedTotal(cat, cat.Keys)
  {
    urls := DownloadCourses(cat, cat.Keys);
  }

  /** The download the button label describes: the selected courses only. */
  method DownloadSelected(cat: Catalog, sel: set<CourseId>) returns (urls: seq<string>)
    requires sel <= cat.Keys
    ensures multiset(urls) == CatalogUrls(cat, sel)
    ensures |urls| == SelectedTotal(cat, sel)
  {
    urls := DownloadCourses(cat, sel);
  }

  /**
   * With only ECSE 343 selected the button promises 2 files, yet the loop
   * navigates to all 6 URLs of the shipped catalog.
   */
  lemma DownloadIgnoresSelection()
    ensures SelectedTotal(CourseList, {762082}) == 2
    ensures |CatalogUrls(CourseList, CourseList.Keys)| == 6
  {
    var both: set<CourseId> := {779615, 762082};
    assert CourseList.Keys == both;
    ShippedCatalogTotals();
    SelectedTotalRemove(CourseList, both, 779615);
    assert both - {779615} == {762082};
    CatalogUrlsCount(CourseList, both);
  }

  /** Whatever is selected, the download never fetches fewer files than the button promises. */
  lemma DownloadCoversSelection(cat: Catalog, sel: set<CourseId>)
    requires sel <= cat.Keys
    ensures SelectedTotal(cat, sel) <= |CatalogUrls(cat, cat.Keys)|
  {
    SelectedTotalMonotone(cat, sel, cat.Keys);
    CatalogUrlsCount(cat, cat.Keys);
  }
}
