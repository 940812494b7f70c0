/**
 * The static course catalog and the selection tracker of main.py: the set of
 * chosen course ids, toggled one card click at a time, and the file counts
 * derived from it.
 */
module Courses {
  import opened Sums

  type CourseId = int
  type FileId = string

  /** A course's folders: folder name to the ordered file ids it holds. */
  type Folders = map<string, seq<FileId>>

  /** The catalog: course id to that course's folders (names and thumbnails are display only). */
  type Catalog = map<CourseId, Folders>

  /** The catalog main.py ships with. */
  const CourseList: Catalog := map[
    779615 := map[
      "Course Material" := ["8286939", "8286940", "8286941"],
      "Course Notes" := ["8286970"]
    ],
    762082 := map[
      "Course Outline" := ["8267885"],
      "Lecture Schedule/Handouts" := ["8268066"]
    ]
  ]

  /** The number of file ids in each folder. */
  function FolderSizes(folders: Folders): (sizes: map<string, nat>)
    ensures sizes.Keys == folders.Keys
    ensures forall f :: f in folders ==> sizes[f] == |folders[f]|
  {
    map f | f in folders :: |folders[f]|
  }

  /**
   * `total_content_for_course`: the folder-list lengths of one course, summed
   * over the folders in any order (see `Sums.SumValuesRemove`).
   */
  ghost function CourseTotal(cat: Catalog, cid: CourseId): (total: nat)
    requires cid in cat
    ensures forall f :: f in cat[cid] ==> |cat[cid][f]| <= total
    ensures total == 0 <==> forall f :: f in cat[cid] ==> cat[cid][f] == []
  {
    var sizes := FolderSizes(cat[cid]);
    SumValuesBound(sizes);
    SumValuesZero(sizes);
    SumValues(sizes)
  }

  /** The per-course totals of the ids in `sel`. */
  ghost function CourseTotals(cat: Catalog, sel: set<CourseId>): (totals: map<CourseId, nat>)
    requires sel <= cat.Keys
    ensures totals.Keys == sel
    ensures forall c :: c in sel ==> totals[c] == CourseTotal(cat, c)
  {
    map c | c in sel :: CourseTotal(cat, c)
  }

  /** `total_selected_content`: the course totals summed over exactly the selected ids. */
  ghost function SelectedTotal(cat: Catalog, sel: set<CourseId>): (total: nat)
    requires sel <= cat.Keys
  {
    SumValues(CourseTotals(cat, sel))
  }

  /** Nothing selected counts nothing. */
  lemma SelectedTotalEmpty(cat: Catalog)
    ensures SelectedTotal(cat, {}) == 0
  {
    assert CourseTotals(cat, {}).Keys == {};
  }

  /** Selecting one more course adds exactly that course's total. */
  lemma SelectedTotalInsert(cat: Catalog, sel: set<CourseId>, cid: CourseId)
    requires sel <= cat.Keys && cid in cat && cid !in sel
    ensures SelectedTotal(cat, sel + {cid}) == SelectedTotal(cat, sel) + CourseTotal(cat, cid)
  {
    SumValuesGrown(CourseTotals(cat, sel), CourseTotals(cat, sel + {cid}), cid);
  }

  /** Unselecting a course takes away exactly that course's total. */
  lemma SelectedTotalRemove(cat: Catalog, sel: set<CourseId>, cid: CourseId)
    requires sel <= cat.Keys && cid in sel
    ensures SelectedTotal(cat, sel - {cid}) == SelectedTotal(cat, sel) - CourseTotal(cat, cid)
  {
    SelectedTotalInsert(cat, sel - {cid}, cid);
    assert sel - {cid} + {cid} == sel;
  }

  /** Selecting more courses never lowers the total. */
  lemma SelectedTotalMonotone(cat: Catalog, small: set<CourseId>, large: set<CourseId>)
    requires small <= large <= cat.Keys
    ensures SelectedTotal(cat, small) <= SelectedTotal(cat, large)
  {
    var rest := large - small;
    assert CourseTotals(cat, large) == CourseTotals(cat, small) + CourseTotals(cat, rest);
    SumValuesUnion(CourseTotals(cat, small), CourseTotals(cat, rest));
  }

  /** The sum of a two-key map, used for the shipped catalog whose entries all have two keys. */
  lemma SumValuesOfPair<K>(m: map<K, nat>, a: K, b: K)
    requires a != b && m.Keys == {a, b}
    ensures SumValues(m) == m[a] + m[b]
  {
    SumValuesRemove(m, a);
    SumValuesRemove(m - {a}, b);
    assert (m - {a} - {b}).Keys == {};
  }

  /** The shipped catalog counts 3 + 1 files for FACC 300, 1 + 1 for ECSE 343, 6 with both selected. */
  lemma ShippedCatalogTotals()
    ensures CourseTotal(CourseList, 779615) == 4
    ensures CourseTotal(CourseList, 762082) == 2
    ensures SelectedTotal(CourseList, {779615, 762082}) == 6
  {
    SumValuesOfPair(FolderSizes(CourseList[779615]), "Course Material", "Course Notes");
    SumValuesOfPair(FolderSizes(CourseList[762082]), "Course Outline", "Lecture Schedule/Handouts");
    SumValuesOfPair(CourseTotals(CourseList, {779615, 762082}), 779615, 762082);
  }

  /** `total_content_for_course` as the program computes it: one folder's length at a time. */
  method CountCourse(cat: Catalog, cid: CourseId) returns (total: nat)
    requires cid in cat
    ensures total == CourseTotal(cat, cid)
  {
    total := 0;
    var rest := FolderSizes(cat[cid]);
    while rest.Keys != {}
      invariant total + SumValues(rest) == CourseTotal(cat, cid)
      decreases rest.Keys
    {
      ghost var someName := Member(rest.Keys);
      var name :| name in rest;
      SumValuesRemove(rest, name);
      total := total + rest[name];
      rest := rest - {name};
    }
  }

  /** `total_selected_content` as the program computes it: one selected course at a time. */
  method CountSelected(cat: Catalog, sel: set<CourseId>) returns (total: nat)
    requires sel <= cat.Keys
    ensures total == SelectedTotal(cat, sel)
  {
    total := 0;
    var todo := sel;
    assert sel - todo == {};
    SelectedTotalEmpty(cat);
    while todo != {}
      invariant todo <= sel
      invariant total == SelectedTotal(cat, sel - todo)
      decreases todo
    {
      ghost var someId := Member(todo);
      var cid :| cid in todo;
      var n := CountCourse(cat, cid);
      ghost var counted := sel - todo;
      SelectedTotalInsert(cat, counted, cid);
      assert counted + {cid} == sel - (todo - {cid});
      total := total + n;
      todo := todo - {cid};
    }
    assert sel - todo == sel;
  }

  /** `toggle_selection` on the set alone: remove the id if present, add it otherwise. */
  function Toggled(sel: set<CourseId>, cid: CourseId): (r: set<CourseId>)
    ensures cid in r <==> cid !in sel
    ensures forall other :: other != cid ==> (other in r <==> other in sel)
  {
    if cid in sel then sel - {cid} else sel + {cid}
  }

  /** Toggling the same id twice gives back the original selection. */
  lemma ToggleTwice(sel: set<CourseId>, cid: CourseId)
    ensures Toggled(Toggled(sel, cid), cid) == sel
  {
  }

  /** A toggle changes the total by exactly that course's total: up on add, down on remove. */
  lemma ToggledTotal(cat: Catalog, sel: set<CourseId>, cid: CourseId)
    requires sel <= cat.Keys && cid in cat
    ensures Toggled(sel, cid) <= cat.Keys
    ensures cid in sel ==>
      SelectedTotal(cat, Toggled(sel, cid)) + CourseTotal(cat, cid) == SelectedTotal(cat, sel)
    ensures cid !in sel ==>
      SelectedTotal(cat, Toggled(sel, cid)) == SelectedTotal(cat, sel) + CourseTotal(cat, cid)
  {
    if cid in sel {
      SelectedTotalRemove(cat, sel, cid);
    } else {
      SelectedTotalInsert(cat, sel, cid);
    }
  }

  /**
   * The process-wide `selected_courses` set together with the catalog it
   * draws from. Every card is built from a catalog key, so the selection
   * stays inside the catalog.
   */
  class SelectionTracker {
    const catalog: Catalog
    var selected: set<CourseId>

    ghost predicate Valid()
      reads this
    {
      selected <= catalog.Keys
    }

    /** The number the status line and the download button show. */
    ghost function Total(): nat
      reads this
      requires Valid()
    {
      SelectedTotal(catalog, selected)
    }

    /** The program starts with nothing selected. */
    constructor (catalog: Catalog)
      ensures this.catalog == catalog && selected == {}
      ensures Valid() && Total() == 0
    {
      this.catalog := catalog;
      selected := {};
      new;
      SelectedTotalEmpty(catalog);
    }

    /** `toggle_selection`: flip one id's membership and leave every other id alone. */
    method Toggle(cid: CourseId)
      requires Valid() && cid in catalog
      modifies this
      ensures selected == Toggled(old(selected), cid)
      ensures Valid()
      ensures cid in old(selected) ==> Total() + CourseTotal(catalog, cid) == old(Total())
      ensures cid !in old(selected) ==> Total() == old(Total()) + CourseTotal(catalog, cid)
    {
      ToggledTotal(catalog, selected, cid);
      if cid in selected {
        selected := selected - {cid};
      } else {
        selected := selected + {cid};
      }
    }
  }

  /** Two clicks on the same card leave the selection and its total as they were. */
  method ClickTwice(tracker: SelectionTracker, cid: CourseId)
    requires tracker.Valid() && cid in tracker.catalog
    modifies tracker
    ensures tracker.selected == old(tracker.selected)
    ensures tracker.Valid() && tracker.Total() == old(tracker.Total())
  {
    tracker.Toggle(cid);
    tracker.Toggle(cid);
    ToggleTwice(old(tracker.selected), cid);
  }
}
