/**
 * The strings main.py shows: the status line and download button written by
 * `update_status`, and the file-count badge on each course card.
 */
module Labels {
  import opened Wrappers
  import opened Text
  import opened Courses

  /** `", ".join(str(cid) for cid in ids)` for ids in the given order. */
  function JoinIds(ids: seq<CourseId>): (r: string)
    ensures ids != [] ==> StartsWith(r, IntToString(ids[0]))
  {
    if ids == [] then ""
    else if |ids| == 1 then IntToString(ids[0])
    else IntToString(ids[0]) + ", " + JoinIds(ids[1..])
  }

  /** Reads a `", "`-separated list of decimal ids back; `None` for text `JoinIds` cannot produce. */
  function SplitIds(s: string): (r: Option<seq<CourseId>>)
    decreases |s|
  {
    if s == [] then Some([])
    else
      var comma := IndexOf(s, ',');
      match ParseInt(s[..comma])
      case None => None
      case Some(id) =>
        if comma == |s| then Some([id])
        else if comma + 2 < |s| && s[comma + 1] == ' ' then
          match SplitIds(s[comma + 2..])
          case None => None
          case Some(ids) => Some([id] + ids)
        else None
  }

  /** An id's text without a comma splits back to that id alone. */
  lemma SplitIdsOne(head: string, id: CourseId)
    requires ParseInt(head) == Some(id) && |head| >= 1
    requires forall j :: 0 <= j < |head| ==> head[j] != ','
    ensures SplitIds(head) == Some([id])
  {
    assert IndexOf(head, ',') == |head|;
    assert head[..|head|] == head;
  }

  /** An id's text, ", " and a non-empty rest: the id comes off the front. */
  lemma SplitIdsCons(head: string, id: CourseId, rest: string)
    requires ParseInt(head) == Some(id) && |head| >= 1
    requires forall j :: 0 <= j < |head| ==> head[j] != ','
    requires rest != []
    ensures SplitIds(rest).Some? ==> SplitIds(head + ", " + rest) == Some([id] + SplitIds(rest).value)
  {
    var s := head + ", " + rest;
    assert s == head + (", " + rest);
    IndexOfBoundary(head, ", " + rest, ',');
    assert s[..|head|] == head;
    assert s[|head| + 2..] == rest;
  }

  /** The joined list loses nothing: every id, in order, reads back out of it. */
  lemma {:induction false} JoinIdsRoundTrip(ids: seq<CourseId>)
    ensures SplitIds(JoinIds(ids)) == Some(ids)
    decreases |ids|
  {
    if ids != [] {
      var head := IntToString(ids[0]);
      IntToStringRoundTrip(ids[0]);
      if |ids| == 1 {
        SplitIdsOne(head, ids[0]);
        assert ids == [ids[0]];
      } else {
        JoinIdsRoundTrip(ids[1..]);
        SplitIdsCons(head, ids[0], JoinIds(ids[1..]));
        assert [ids[0]] + ids[1..] == ids;
      }
    }
  }

  /** `order` lists each selected id once; Python's set order is whatever the set gives. */
  ghost predicate Enumerates(order: seq<CourseId>, sel: set<CourseId>) {
    && (forall i, j :: 0 <= i < j < |order| ==> order[i] != order[j])
    && (forall c :: c in order <==> c in sel)
  }

  /** An enumeration of a set is empty exactly when the set is. */
  lemma EnumeratesEmpty(order: seq<CourseId>, sel: set<CourseId>)
    requires Enumerates(order, sel)
    ensures order == [] <==> sel == {}
  {
    assert forall c :: c in order <==> c in sel;
    if order != [] {
      assert order[0] in order;
    } else {
      assert forall c :: c !in sel;
    }
  }

  /** The ids part of the status line: "None" when nothing is selected, else the ids in `order`. */
  function IdsText(sel: set<CourseId>, order: seq<CourseId>): (r: string)
    requires Enumerates(order, sel)
    ensures r == "None" <==> sel == {}
    ensures sel != {} ==> SplitIds(r) == Some(order)
  {
    if sel == {} then "None"
    else
      EnumeratesEmpty(order, sel);
      JoinIdsRoundTrip(order);
      var r := JoinIds(order);
      assert r[0] == IntToString(order[0])[0];
      r
  }

  /** Equal strings with equal heads and tails have equal middles. */
  lemma MiddlesAgree(head: string, x: string, y: string, tail: string)
    requires head + x + tail == head + y + tail
    ensures x == y
  {
    var s := head + x + tail;
    assert |x| == |y|;
    assert x == s[|head|..|head| + |x|];
    assert y == (head + y + tail)[|head|..|head| + |y|];
  }

  const StatusHead := "Selected courses: "
  const TotalHead := "  |  Total selected content: "

  /**
   * The status line `update_status` writes. Between its fixed head and its
   * total sits "None" for an empty selection, and otherwise the ids of
   * `order`, which read back out of it.
   */
  function StatusText(sel: set<CourseId>, order: seq<CourseId>, total: nat): (r: string)
    requires Enumerates(order, sel)
    ensures StartsWith(r, StatusHead)
    ensures EndsWith(r, TotalHead + NatToString(total))
    ensures sel == {} <==> r == StatusHead + "None" + TotalHead + NatToString(total)
    ensures sel != {} ==>
      var tail := TotalHead + NatToString(total);
      |StatusHead| + |tail| <= |r| && SplitIds(r[|StatusHead|..|r| - |tail|]) == Some(order)
  {
    var tail := TotalHead + NatToString(total);
    var ids := IdsText(sel, order);
    var r := StatusHead + ids + tail;
    assert r[..|StatusHead|] == StatusHead;
    assert r[|r| - |tail|..] == tail;
    assert r[|StatusHead|..|r| - |tail|] == ids;
    if r == StatusHead + "None" + tail then MiddlesAgree(StatusHead, ids, "None", tail); r else r
  }

  const ButtonPrefix := "Download "
  const ButtonSuffix := " file(s)"

  /** The number a button text announces, if it has the button's shape. */
  function ButtonCount(text: string): (r: Option<nat>)
  {
    if |ButtonPrefix| + |ButtonSuffix| < |text| && StartsWith(text, ButtonPrefix)
       && EndsWith(text, ButtonSuffix) && AllDigits(text[|ButtonPrefix|..|text| - |ButtonSuffix|])
    then Some(ParseNat(text[|ButtonPrefix|..|text| - |ButtonSuffix|]))
    else None
  }

  /** The download button's text: `Download <n> file(s)`; the number in it reads back as `n`. */
  function ButtonLabel(n: nat): (r: string)
    ensures StartsWith(r, ButtonPrefix) && EndsWith(r, ButtonSuffix)
    ensures ButtonCount(r) == Some(n)
  {
    var digits := NatToString(n);
    var r := ButtonPrefix + digits + ButtonSuffix;
    assert r[..|ButtonPrefix|] == ButtonPrefix;
    assert r[|r| - |ButtonSuffix|..] == ButtonSuffix;
    assert r[|ButtonPrefix|..|r| - |ButtonSuffix|] == digits;
    NatToStringRoundTrip(n);
    r
  }

  /**
   * `update_status`: count the selection afresh and render both labels. The
   * button announces exactly the selection's total, the status line ends with
   * it, and the status line shows "None" exactly when nothing is selected.
   */
  method UpdateStatus(cat: Catalog, sel: set<CourseId>, order: seq<CourseId>)
    returns (status: string, button: string)
    requires sel <= cat.Keys && Enumerates(order, sel)
    ensures ButtonCount(button) == Some(SelectedTotal(cat, sel))
    ensures StartsWith(status, StatusHead)
    ensures EndsWith(status, TotalHead + NatToString(SelectedTotal(cat, sel)))
    ensures sel == {} <==> status == StatusHead + "None" + TotalHead + NatToString(SelectedTotal(cat, sel))
    ensures status == StatusText(sel, order, SelectedTotal(cat, sel))
  {
    var total := CountSelected(cat, sel);
    status := StatusText(sel, order, total);
    button := ButtonLabel(total);
  }

  /**
   * `toggle_selection`: flip the clicked course's membership, then refresh
   * both labels from the new selection. `order` is the order Python's set
   * yields the new selection in.
   */
  method ToggleSelection(tracker: SelectionTracker, cid: CourseId, order: seq<CourseId>)
    returns (status: string, button: string)
    requires tracker.Valid() && cid in tracker.catalog
    requires Enumerates(order, Toggled(tracker.selected, cid))
    modifies tracker
    ensures tracker.selected == Toggled(old(tracker.selected), cid) && tracker.Valid()
    ensures ButtonCount(button) == Some(tracker.Total())
    ensures status == StatusText(tracker.selected, order, tracker.Total())
  {
    tracker.Toggle(cid);
    status, button := UpdateStatus(tracker.catalog, tracker.selected, order);
  }

  /** The card badge: "1 file" for one file, "<n> files" for any other count. */
  function Badge(n: nat): (r: string)
    ensures n == 1 <==> EndsWith(r, " file")
    ensures n != 1 <==> EndsWith(r, " files")
    ensures var unit := if n == 1 then 5 else 6;
      |r| > unit && AllDigits(r[..|r| - unit]) && ParseNat(r[..|r| - unit]) == n
  {
    var digits := NatToString(n);
    NatToStringRoundTrip(n);
    if n == 1 then
      var r := digits + " file";
      assert r == "1 file";
      r
    else
      var r := digits + " files";
      assert r[..|r| - 6] == digits;
      assert r[|r| - 6..] == " files";
      assert r[|r| - 5..] == "files";
      r
  }

  /** Both shipped courses selected: the button reads "Download 6 file(s)". */
  lemma ShippedCatalogButton()
    ensures ButtonLabel(SelectedTotal(CourseList, {779615, 762082})) == "Download 6 file(s)"
  {
    ShippedCatalogTotals();
    assert NatToString(6) == "6";
  }
}
