/** The row selection of a data table: the list of selected row names kept
    by the page, the checkboxes of the rows, the "<count>/<total>" row
    information text in the page header and the label of the select/deselect
    menu entry.

    The page's DOM is replaced by `Checkbox` objects (a row's checkbox, its
    name, whether the checkbox itself is classed "failed", and its checked state) and by
    `Row` values (a child element of the table body: its tag, its class name
    and the checkboxes below it). */
module Selection {
  import opened Wrappers
  import opened Strings
  import opened Collections

  /** A row checkbox; only `checked` is changed by the selection code. */
  class Checkbox {
    const name: string
    const failed: bool
    var checked: bool

    constructor (name: string, failed: bool, checked: bool)
      ensures this.name == name && this.failed == failed && this.checked == checked
    {
      this.name := name;
      this.failed := failed;
      this.checked := checked;
    }
  }

  /** A child element of the table body. */
  datatype Row = Row(tag: string, className: string, boxes: seq<Checkbox>)

  // ---------------------------------------------------------------------
  // The list operations behind indexOf / splice / push
  // ---------------------------------------------------------------------

  /** `s.splice(s.indexOf(x), 1)` when `x` occurs: drops the first
      occurrence of `x`; leaves `s` alone otherwise. */
  function RemoveFirst(s: seq<string>, x: string): (r: seq<string>)
    ensures x in s ==> multiset(r) == multiset(s) - multiset{x} && |r| == |s| - 1
    ensures x !in s ==> r == s
  {
    if |s| == 0 then []
    else if s[0] == x then
      assert s == [x] + s[1..];
      s[1..]
    else
      assert s == [s[0]] + s[1..];
      [s[0]] + RemoveFirst(s[1..], x)
  }

  /** `toggle_box` / `toggle_row` on the list: remove the name if present,
      append it otherwise. */
  function Toggle(s: seq<string>, x: string): seq<string>
  {
    if x in s then RemoveFirst(s, x) else s + [x]
  }

  /** `if (s.indexOf(x) === -1) s.push(x)`. */
  function AddIfAbsent(s: seq<string>, x: string): seq<string>
  {
    if x in s then s else s + [x]
  }

  /** The list after removing each of `names` in turn. */
  function RemoveNames(s: seq<string>, names: seq<string>): seq<string>
  {
    if |names| == 0 then s else RemoveFirst(RemoveNames(s, names[..|names| - 1]), names[|names| - 1])
  }

  /** The list after adding each of `names` in turn. */
  function AddNames(s: seq<string>, names: seq<string>): seq<string>
  {
    if |names| == 0 then s else AddIfAbsent(AddNames(s, names[..|names| - 1]), names[|names| - 1])
  }

  lemma InMultiset(s: seq<string>, x: string)
    ensures x in s <==> multiset(s)[x] > 0
  {
  }

  /** On a duplicate-free list, removing the first occurrence removes the
      name and nothing else, and keeps the list duplicate-free. */
  lemma {:induction false} RemoveFirstNoDup(s: seq<string>, x: string)
    requires NoDup(s)
    ensures NoDup(RemoveFirst(s, x))
    ensures forall y :: y in RemoveFirst(s, x) <==> y in s && y != x
  {
    var r := RemoveFirst(s, x);
    if x in s {
      MultisetOfNoDup(s, x);
      forall y ensures y in r <==> y in s && y != x {
        InMultiset(r, y);
        InMultiset(s, y);
      }
      forall i, j | 0 <= i < j < |r| ensures r[i] != r[j] {
        if r[i] == r[j] {
          TwoOccurrences(r, i, j);
          MultisetOfNoDup(s, r[i]);
          assert false;
        }
      }
    }
  }

  /** Toggling a name flips its membership, leaves every other name's
      membership alone and keeps the list duplicate-free. */
  lemma ToggleMembership(s: seq<string>, x: string)
    requires NoDup(s)
    ensures NoDup(Toggle(s, x))
    ensures x in Toggle(s, x) <==> x !in s
    ensures forall y :: y != x ==> (y in Toggle(s, x) <==> y in s)
  {
    if x in s {
      RemoveFirstNoDup(s, x);
    } else {
      AppendAbsentNoDup(s, x);
    }
  }

  lemma AppendAbsentNoDup(s: seq<string>, x: string)
    requires NoDup(s) && x !in s
    ensures NoDup(s + [x])
  {
    var t := s + [x];
    forall i, j | 0 <= i < j < |t| ensures t[i] != t[j] {
      if j == |s| { assert t[i] == s[i]; }
    }
  }

  /** Toggling a name that is not selected twice restores the list exactly. */
  lemma ToggleTwice(s: seq<string>, x: string)
    requires x !in s
    ensures Toggle(Toggle(s, x), x) == s
  {
    AppendedRemoved(s, x);
  }

  lemma {:induction false} AppendedRemoved(s: seq<string>, x: string)
    requires x !in s
    ensures RemoveFirst(s + [x], x) == s
  {
    if |s| == 0 {
      assert [x][1..] == [];
    } else {
      assert (s + [x])[1..] == s[1..] + [x];
      AppendedRemoved(s[1..], x);
      assert s == [s[0]] + s[1..];
    }
  }

  /** Adding names never creates a duplicate; the old list stays in front
      and the result holds exactly the old names and the added ones. */
  lemma {:induction false} AddNamesContents(s: seq<string>, names: seq<string>)
    requires NoDup(s)
    ensures NoDup(AddNames(s, names))
    ensures forall y :: y in AddNames(s, names) <==> y in s || y in names
    ensures IsPrefixSeq(s, AddNames(s, names))
  {
    if |names| > 0 {
      var init := names[..|names| - 1];
      var x := names[|names| - 1];
      AddNamesContents(s, init);
      var t := AddNames(s, init);
      if x !in t {
        AppendAbsentNoDup(t, x);
      }
      assert names == init + [x];
      forall y ensures y in AddNames(s, names) <==> y in s || y in names {
        assert y in names <==> y in init || y == x;
      }
    }
  }

  predicate IsPrefixSeq(p: seq<string>, s: seq<string>)
  {
    |p| <= |s| && s[..|p|] == p
  }

  /** Removing names from a duplicate-free list leaves exactly the names
      that were not removed, without duplicates. */
  lemma {:induction false} RemoveNamesContents(s: seq<string>, names: seq<string>)
    requires NoDup(s)
    ensures NoDup(RemoveNames(s, names))
    ensures forall y :: y in RemoveNames(s, names) <==> y in s && y !in names
  {
    if |names| > 0 {
      var init := names[..|names| - 1];
      var x := names[|names| - 1];
      RemoveNamesContents(s, init);
      RemoveFirstNoDup(RemoveNames(s, init), x);
      assert names == init + [x];
      forall y ensures y in RemoveNames(s, names) <==> y in s && y !in names {
        assert y in names <==> y in init || y == x;
      }
    }
  }

  // ---------------------------------------------------------------------
  // The row information text
  // ---------------------------------------------------------------------

  /** The text `update_row_selection_information` writes: the count, a
      slash, and the second "/"-separated part of the previous text when it
      has a slash (the text itself otherwise). */
  function RowInfoText(count: nat, current: string): (r: string)
    ensures IsPrefix(NatToString(count) + "/", r)
  {
    var r := NatToString(count) + "/" + AfterSlash(current);
    assert r[..|NatToString(count) + "/"|] == NatToString(count) + "/";
    r
  }

  /** The second "/"-separated part of a text with a slash, the text
      itself otherwise. */
  function AfterSlash(current: string): string
  {
    if '/' in current then SplitAtSlash(current); Split(current, '/')[1] else current
  }

  /** A string with the separator splits into at least two parts. */
  lemma {:induction false} SplitAtSlash(s: string)
    requires '/' in s
    ensures |Split(s, '/')| >= 2
  {
    if s[0] != '/' {
      SplitAtSlash(s[1..]);
    }
  }

  /** What follows the count's slash in an updated text has no slash, so
      it is the second part of the updated text. */
  lemma RowInfoRest(count: nat, current: string)
    ensures '/' !in AfterSlash(current)
    ensures var r := RowInfoText(count, current);
      |Split(r, '/')| >= 2 && Split(r, '/')[1] == AfterSlash(current)
  {
    var rest := AfterSlash(current);
    if '/' in current {
      SplitAtSlash(current);
      SplitPartsHaveNo(current, '/');
    }
    var prefix := NatToString(count);
    DigitsHaveNo(count, '/');
    assert RowInfoText(count, current) == prefix + ['/'] + rest;
    SplitAtFirst(prefix, '/', rest);
    SplitWithoutSeparator(rest, '/');
  }

  /** Writing the same count twice leaves the text as the first write made it. */
  lemma RowInfoIdempotent(count: nat, current: string)
    ensures RowInfoText(count, RowInfoText(count, current)) == RowInfoText(count, current)
  {
    RowInfoRest(count, current);
  }

  /** A later update replaces the count and keeps what followed the slash. */
  lemma RowInfoRecount(count: nat, count': nat, current: string)
    ensures RowInfoText(count', RowInfoText(count, current)) == RowInfoText(count', current)
  {
    RowInfoRest(count, current);
  }

  function UpdatedInfo(rowInfo: Option<string>, count: nat): Option<string>
  {
    if rowInfo.None? then None else Some(RowInfoText(count, rowInfo.value))
  }

  // ---------------------------------------------------------------------
  // The checkboxes
  // ---------------------------------------------------------------------

  function Names(boxes: seq<Checkbox>): seq<string>
  {
    seq(|boxes|, i requires 0 <= i < |boxes| => boxes[i].name)
  }

  lemma NamesStep(boxes: seq<Checkbox>, i: nat)
    requires i < |boxes|
    ensures Names(boxes[..i + 1]) == Names(boxes[..i]) + [boxes[i].name]
  {
  }

  lemma RemoveNamesStep(s: seq<string>, names: seq<string>, x: string)
    ensures RemoveNames(s, names + [x]) == RemoveFirst(RemoveNames(s, names), x)
  {
    assert (names + [x])[..|names|] == names;
  }

  lemma AddNamesStep(s: seq<string>, names: seq<string>, x: string)
    ensures AddNames(s, names + [x]) == AddIfAbsent(AddNames(s, names), x)
  {
    assert (names + [x])[..|names|] == names;
  }

  /** Whether `select_all_rows` selects this checkbox. */
  predicate Selects(onlyFailed: bool, b: Checkbox)
  {
    !onlyFailed || b.failed
  }

  /** The names of the checkboxes `select_all_rows` selects, in order. */
  function SelectedNames(boxes: seq<Checkbox>, onlyFailed: bool): seq<string>
  {
    if |boxes| == 0 then []
    else
      var b := boxes[|boxes| - 1];
      SelectedNames(boxes[..|boxes| - 1], onlyFailed) + (if Selects(onlyFailed, b) then [b.name] else [])
  }

  /** The names selected for are exactly those of the checkboxes that
      qualify. */
  lemma {:induction false} SelectedNamesContents(boxes: seq<Checkbox>, onlyFailed: bool)
    ensures forall y :: y in SelectedNames(boxes, onlyFailed) <==>
      exists i :: 0 <= i < |boxes| && Selects(onlyFailed, boxes[i]) && boxes[i].name == y
  {
    if |boxes| > 0 {
      var init := boxes[..|boxes| - 1];
      SelectedNamesContents(init, onlyFailed);
      assert forall i :: 0 <= i < |init| ==> init[i] == boxes[i];
    }
  }

  lemma SelectedNamesStep(boxes: seq<Checkbox>, i: nat, onlyFailed: bool)
    requires i < |boxes|
    ensures SelectedNames(boxes[..i + 1], onlyFailed)
      == SelectedNames(boxes[..i], onlyFailed) + (if Selects(onlyFailed, boxes[i]) then [boxes[i].name] else [])
  {
    assert boxes[..i + 1][..i] == boxes[..i];
  }

  predicate AllSelected(boxes: seq<Checkbox>, selected: seq<string>)
  {
    forall i :: 0 <= i < |boxes| ==> boxes[i].name in selected
  }

  predicate NoneSelected(boxes: seq<Checkbox>, selected: seq<string>)
  {
    forall i :: 0 <= i < |boxes| ==> boxes[i].name !in selected
  }

  predicate SomeFailed(boxes: seq<Checkbox>)
  {
    exists i :: 0 <= i < |boxes| && boxes[i].failed
  }

  /** The selected names after `toggle_all_rows`: all of the checkboxes'
      names removed when all were selected; otherwise their names added,
      only the failed ones' when some checkbox is failed and none is
      selected. */
  function ToggledAll(selected: seq<string>, boxes: seq<Checkbox>): seq<string>
  {
    if AllSelected(boxes, selected) then RemoveNames(selected, Names(boxes))
    else AddNames(selected, SelectedNames(boxes, SomeFailed(boxes) && NoneSelected(boxes, selected)))
  }

  /** `toggle_all_rows` on an empty list of checkboxes takes the deselect
      branch, which changes nothing. */
  lemma ToggleAllEmpty(selected: seq<string>)
    ensures AllSelected([], selected) && ToggledAll(selected, []) == selected
  {
  }

  /** After `toggle_all_rows` on a duplicate-free list: when all were
      selected none of the names is; otherwise every checkbox that was
      selected for is, and nothing selected before is lost. */
  lemma ToggledAllContents(selected: seq<string>, boxes: seq<Checkbox>)
    requires NoDup(selected)
    ensures NoDup(ToggledAll(selected, boxes))
    ensures AllSelected(boxes, selected) ==> NoneSelected(boxes, ToggledAll(selected, boxes))
    ensures !AllSelected(boxes, selected) ==>
      forall i :: 0 <= i < |boxes| && Selects(SomeFailed(boxes) && NoneSelected(boxes, selected), boxes[i]) ==>
        boxes[i].name in ToggledAll(selected, boxes)
    ensures !AllSelected(boxes, selected) ==> forall y :: y in selected ==> y in ToggledAll(selected, boxes)
  {
    if AllSelected(boxes, selected) {
      RemoveNamesContents(selected, Names(boxes));
      forall i | 0 <= i < |boxes| ensures boxes[i].name in Names(boxes) {
        assert Names(boxes)[i] == boxes[i].name;
      }
    } else {
      var onlyFailed := SomeFailed(boxes) && NoneSelected(boxes, selected);
      AddNamesContents(selected, SelectedNames(boxes, onlyFailed));
      SelectedNamesContents(boxes, onlyFailed);
    }
  }

  // ---------------------------------------------------------------------
  // The group of a row
  // ---------------------------------------------------------------------

  predicate IsHeader(rows: seq<Row>, j: int)
    requires 0 <= j < |rows|
  {
    rows[j].tag == "TR" && rows[j].className == "groupheader"
  }

  /** The group of row `k`: it starts after the last group header at or
      before row `k` (at 0 without one) and ends at the first group header
      after it (at the end without one). When row `k` is not a table row the
      scan of `toggle_group_rows` never finds it, so the start follows the
      last header of all and the end is the end. */
  predicate IsGroupRange(rows: seq<Row>, k: nat, start: nat, end: nat)
    requires k < |rows|
  {
    var last := if rows[k].tag == "TR" then k + 1 else |rows|;
    && start <= end <= |rows|
    && ((start == 0 && forall j :: 0 <= j < last ==> !IsHeader(rows, j))
        || (0 < start <= last && IsHeader(rows, start - 1) && forall j :: start <= j < last ==> !IsHeader(rows, j)))
    && (rows[k].tag != "TR" ==> end == |rows|)
    && (rows[k].tag == "TR" ==>
         (end == |rows| && forall j :: k < j < |rows| ==> !IsHeader(rows, j))
         || (k < end < |rows| && IsHeader(rows, end) && forall j :: k < j < end ==> !IsHeader(rows, j)))
  }

  /** The description pins the group down: there is only one. */
  lemma GroupRangeUnique(rows: seq<Row>, k: nat, s1: nat, e1: nat, s2: nat, e2: nat)
    requires k < |rows|
    requires IsGroupRange(rows, k, s1, e1) && IsGroupRange(rows, k, s2, e2)
    ensures s1 == s2 && e1 == e2
  {
  }

  /** A checkbox in a group header row toggles the rows after it. */
  lemma HeaderRowGroupStartsAfterIt(rows: seq<Row>, k: nat, start: nat, end: nat)
    requires k < |rows| && IsHeader(rows, k)
    requires IsGroupRange(rows, k, start, end)
    ensures start == k + 1
  {
  }

  /** The scan of `toggle_group_rows` for the group of row `k`. */
  method GroupRange(rows: seq<Row>, k: nat) returns (start: nat, end: nat)
    requires k < |rows|
    ensures IsGroupRange(rows, k, start, end)
  {
    var inThisGroup := false;
    var groupStart: Option<nat> := None;
    var groupEnd: Option<nat> := None;
    var i := 0;
    while i < |rows|
      invariant 0 <= i <= |rows|
      invariant inThisGroup <==> rows[k].tag == "TR" && k < i
      invariant groupEnd.None?
      invariant var scanned := if inThisGroup then k + 1 else i;
        (groupStart.None? && forall j :: 0 <= j < scanned ==> !IsHeader(rows, j))
        || (groupStart.Some? && 0 < groupStart.value <= scanned && IsHeader(rows, groupStart.value - 1)
            && forall j :: groupStart.value <= j < scanned ==> !IsHeader(rows, j))
      invariant inThisGroup ==> forall j :: k < j < i ==> !IsHeader(rows, j)
    {
      if rows[i].tag != "TR" {
        i := i + 1;
        continue;
      }
      if !inThisGroup {
        if rows[i].className == "groupheader" {
          groupStart := Some(i + 1);
        }
        if i == k {
          inThisGroup := true;
        }
      } else {
        if rows[i].className == "groupheader" {
          groupEnd := Some(i);
          break;
        }
      }
      i := i + 1;
    }
    start := if groupStart.None? then 0 else groupStart.value;
    end := if groupEnd.None? then |rows| else groupEnd.value;
  }

  /** The checkboxes of the table rows in `rows[start..end]`, in order. */
  function GroupBoxes(rows: seq<Row>, start: nat, end: nat): seq<Checkbox>
    requires start <= end <= |rows|
    decreases end - start
  {
    if start == end then []
    else (if rows[start].tag == "TR" then rows[start].boxes else []) + GroupBoxes(rows, start + 1, end)
  }

  /** The page state the selection code updates. */
  class Page {
    /** `selection_properties.selected_rows` */
    var selectedRows: seq<string>
    /** The row information text; `None` when the page shows none. */
    var rowInfo: Option<string>
    /** The text of the select/deselect menu entry; `None` when the page
        has no such entry. */
    var menuLabel: Option<string>

    constructor (selectedRows: seq<string>, rowInfo: Option<string>, menuLabel: Option<string>)
      ensures this.selectedRows == selectedRows && this.rowInfo == rowInfo && this.menuLabel == menuLabel
    {
      this.selectedRows := selectedRows;
      this.rowInfo := rowInfo;
      this.menuLabel := menuLabel;
    }

    /** `update_row_selection_information` */
    method UpdateRowSelectionInformation()
      modifies this
      ensures rowInfo == UpdatedInfo(old(rowInfo), |selectedRows|)
      ensures selectedRows == old(selectedRows) && menuLabel == old(menuLabel)
    {
      if rowInfo.None? {
        return;
      }
      var count := |selectedRows|;
      var currentText := rowInfo.value;
      if '/' in currentText {
        SplitAtSlash(currentText);
        var parts := Split(currentText, '/');
        currentText := parts[1];
      }
      rowInfo := Some(NatToString(count) + "/" + currentText);
    }

    /** The initial selection of `table_init_rowselect`: each checkbox is
        checked exactly when its name is selected. */
    method TableInitRowselect(boxes: seq<Checkbox>)
      modifies this, boxes
      ensures forall i :: 0 <= i < |boxes| ==> (boxes[i].checked <==> boxes[i].name in selectedRows)
      ensures selectedRows == old(selectedRows) && menuLabel == old(menuLabel)
      ensures rowInfo == UpdatedInfo(old(rowInfo), |selectedRows|)
    {
      var i := 0;
      while i < |boxes|
        invariant 0 <= i <= |boxes|
        invariant forall j :: 0 <= j < i ==> (boxes[j].checked <==> boxes[j].name in selectedRows)
        invariant selectedRows == old(selectedRows) && rowInfo == old(rowInfo) && menuLabel == old(menuLabel)
      {
        if boxes[i].name in selectedRows {
          boxes[i].checked := true;
        } else {
          boxes[i].checked := false;
        }
        i := i + 1;
      }
      UpdateRowSelectionInformation();
    }

    /** `toggle_box`: the checkbox itself was already flipped by the
        browser; the name is toggled in the list. */
    method ToggleBox(box: Checkbox)
      modifies this
      ensures selectedRows == Toggle(old(selectedRows), box.name)
      ensures rowInfo == UpdatedInfo(old(rowInfo), |selectedRows|) && menuLabel == old(menuLabel)
    {
      if box.name in selectedRows {
        selectedRows := RemoveFirst(selectedRows, box.name);
      } else {
        selectedRows := selectedRows + [box.name];
      }
      UpdateRowSelectionInformation();
    }

    /** `toggle_row`: a click on a link or other element inside the row
        (any element other than a cell or a label) is left to the browser;
        a row without checkbox is ignored; otherwise the row's checkbox and
        its name are toggled together. `target` is the tag of the clicked
        element, `None` when it is not an HTML element. */
    method ToggleRow(target: Option<string>, box: Checkbox?) returns (outcome: ClickOutcome)
      modifies this, box
      ensures target.Some? && target.value != "TD" && target.value != "LABEL" ==>
        outcome == PassedOn && selectedRows == old(selectedRows) && rowInfo == old(rowInfo)
      ensures !(target.Some? && target.value != "TD" && target.value != "LABEL") && box == null ==>
        outcome == NoCheckbox && selectedRows == old(selectedRows) && rowInfo == old(rowInfo)
      ensures !(target.Some? && target.value != "TD" && target.value != "LABEL") && box != null ==>
        outcome == Handled
        && selectedRows == Toggle(old(selectedRows), box.name)
        && (box.checked <==> box.name !in old(selectedRows))
        && rowInfo == UpdatedInfo(old(rowInfo), |selectedRows|)
      ensures box != null && outcome != Handled ==> box.checked == old(box.checked)
      ensures menuLabel == old(menuLabel)
    {
      if target.Some? && target.value != "TD" && target.value != "LABEL" {
        return PassedOn;
      }
      if box == null {
        return NoCheckbox;
      }
      if box.name in selectedRows {
        box.checked := false;
        selectedRows := RemoveFirst(selectedRows, box.name);
      } else {
        box.checked := true;
        selectedRows := selectedRows + [box.name];
      }
      UpdateRowSelectionInformation();
      outcome := Handled;
    }

    /** `remove_selected_rows`: unchecks every checkbox and removes its name. */
    method RemoveSelectedRows(boxes: seq<Checkbox>)
      modifies this, boxes
      ensures forall i :: 0 <= i < |boxes| ==> !boxes[i].checked
      ensures selectedRows == RemoveNames(old(selectedRows), Names(boxes))
      ensures rowInfo == UpdatedInfo(old(rowInfo), |selectedRows|) && menuLabel == old(menuLabel)
    {
      DeselectEach(boxes);
      UpdateRowSelectionInformation();
    }

    /** The loop of `remove_selected_rows`. */
    method DeselectEach(boxes: seq<Checkbox>)
      modifies this, boxes
      ensures forall i :: 0 <= i < |boxes| ==> !boxes[i].checked
      ensures selectedRows == RemoveNames(old(selectedRows), Names(boxes))
      ensures rowInfo == old(rowInfo) && menuLabel == old(menuLabel)
    {
      ghost var initial := selectedRows;
      var i := 0;
      while i < |boxes|
        invariant 0 <= i <= |boxes|
        invariant forall j :: 0 <= j < i ==> !boxes[j].checked
        invariant selectedRows == RemoveNames(initial, Names(boxes[..i]))
        invariant rowInfo == old(rowInfo) && menuLabel == old(menuLabel)
      {
        DeselectOne(boxes, i, initial);
        i := i + 1;
      }
      assert boxes[..i] == boxes;
    }

    /** One step of `remove_selected_rows`: unchecks the `i`-th checkbox
        and removes the first occurrence of its name. */
    method DeselectOne(boxes: seq<Checkbox>, i: nat, ghost initial: seq<string>)
      requires i < |boxes|
      requires forall j :: 0 <= j < i ==> !boxes[j].checked
      requires selectedRows == RemoveNames(initial, Names(boxes[..i]))
      modifies this, boxes[i]
      ensures forall j :: 0 <= j < i + 1 ==> !boxes[j].checked
      ensures selectedRows == RemoveNames(initial, Names(boxes[..i + 1]))
      ensures rowInfo == old(rowInfo) && menuLabel == old(menuLabel)
    {
      NamesStep(boxes, i);
      RemoveNamesStep(initial, Names(boxes[..i]), boxes[i].name);
      boxes[i].checked := false;
      selectedRows := RemoveFirst(selectedRows, boxes[i].name);
    }

    /** `select_all_rows`: checks every checkbox (only the failed ones when
        `onlyFailed`) and appends the names not yet selected, then updates
        the row information. */
    method SelectAllRows(boxes: seq<Checkbox>, onlyFailed: bool)
      modifies this, boxes
      ensures forall i :: 0 <= i < |boxes| && Selects(onlyFailed, boxes[i]) ==> boxes[i].checked
      ensures forall i :: 0 <= i < |boxes| && !Selects(onlyFailed, boxes[i]) ==> boxes[i].checked == old(boxes[i].checked)
      ensures selectedRows == AddNames(old(selectedRows), SelectedNames(boxes, onlyFailed))
      ensures rowInfo == UpdatedInfo(old(rowInfo), |selectedRows|) && menuLabel == old(menuLabel)
    {
      SelectEach(boxes, onlyFailed);
      UpdateRowSelectionInformation();
    }

    /** The loop of `select_all_rows`. */
    method SelectEach(boxes: seq<Checkbox>, onlyFailed: bool)
      modifies this, boxes
      ensures forall i :: 0 <= i < |boxes| && Selects(onlyFailed, boxes[i]) ==> boxes[i].checked
      ensures forall i :: 0 <= i < |boxes| && !Selects(onlyFailed, boxes[i]) ==> boxes[i].checked == old(boxes[i].checked)
      ensures selectedRows == AddNames(old(selectedRows), SelectedNames(boxes, onlyFailed))
      ensures rowInfo == old(rowInfo) && menuLabel == old(menuLabel)
    {
      ghost var initial := selectedRows;
      var i := 0;
      while i < |boxes|
        invariant 0 <= i <= |boxes|
        invariant forall j :: 0 <= j < i && Selects(onlyFailed, boxes[j]) ==> boxes[j].checked
        invariant forall j :: 0 <= j < |boxes| && !Selects(onlyFailed, boxes[j]) ==> boxes[j].checked == old(boxes[j].checked)
        invariant selectedRows == AddNames(initial, SelectedNames(boxes[..i], onlyFailed))
        invariant rowInfo == old(rowInfo) && menuLabel == old(menuLabel)
      {
        SelectOne(boxes, i, onlyFailed, initial);
        i := i + 1;
      }
      assert boxes[..i] == boxes;
    }

    /** One step of `select_all_rows`: checks the `i`-th checkbox when it
        is selected and appends its name unless it is already there. */
    method SelectOne(boxes: seq<Checkbox>, i: nat, onlyFailed: bool, ghost initial: seq<string>)
      requires i < |boxes|
      requires forall j :: 0 <= j < i && Selects(onlyFailed, boxes[j]) ==> boxes[j].checked
      requires selectedRows == AddNames(initial, SelectedNames(boxes[..i], onlyFailed))
      modifies this, boxes[i]
      ensures forall j :: 0 <= j < i + 1 && Selects(onlyFailed, boxes[j]) ==> boxes[j].checked
      ensures forall j :: 0 <= j < |boxes| && !Selects(onlyFailed, boxes[j]) ==> boxes[j].checked == old(boxes[j].checked)
      ensures selectedRows == AddNames(initial, SelectedNames(boxes[..i + 1], onlyFailed))
      ensures rowInfo == old(rowInfo) && menuLabel == old(menuLabel)
    {
      var box := boxes[i];
      ghost var picked := SelectedNames(boxes[..i], onlyFailed);
      SelectedNamesStep(boxes, i, onlyFailed);
      if !onlyFailed || box.failed {
        AddNamesStep(initial, picked, box.name);
        box.checked := true;
        if box.name !in selectedRows {
          selectedRows := selectedRows + [box.name];
        }
      } else {
        assert picked + [] == picked;
      }
    }

    /** `toggle_all_rows`: deselects all when every checkbox is selected,
        otherwise selects them (only the failed ones when some is failed and
        none is selected), and relabels the menu entry when a label is
        given for the branch taken (`""` stands for no label). */
    method ToggleAllRows(boxes: seq<Checkbox>, nameSelect: string, nameDeselect: string)
      modifies this, boxes
      ensures selectedRows == ToggledAll(old(selectedRows), boxes)
      ensures rowInfo == UpdatedInfo(old(rowInfo), |selectedRows|)
      ensures AllSelected(boxes, old(selectedRows)) ==>
        (forall i :: 0 <= i < |boxes| ==> !boxes[i].checked)
        && menuLabel == (if nameSelect != "" && old(menuLabel).Some? then Some(nameSelect) else old(menuLabel))
      ensures !AllSelected(boxes, old(selectedRows)) ==>
        (forall i :: 0 <= i < |boxes| && Selects(SomeFailed(boxes) && NoneSelected(boxes, old(selectedRows)), boxes[i]) ==>
           boxes[i].checked)
        && (forall i :: 0 <= i < |boxes| && !Selects(SomeFailed(boxes) && NoneSelected(boxes, old(selectedRows)), boxes[i]) ==>
           boxes[i].checked == old(boxes[i].checked))
        && menuLabel == (if nameDeselect != "" && old(menuLabel).Some? then Some(nameDeselect) else old(menuLabel))
    {
      var allSelected := true;
      var noneSelected := true;
      var someFailed := false;
      var i := 0;
      while i < |boxes|
        invariant 0 <= i <= |boxes|
        invariant allSelected <==> AllSelected(boxes[..i], selectedRows)
        invariant noneSelected <==> NoneSelected(boxes[..i], selectedRows)
        invariant someFailed <==> SomeFailed(boxes[..i])
      {
        assert boxes[..i + 1][..i] == boxes[..i];
        assert boxes[..i + 1][i] == boxes[i];
        if boxes[i].name !in selectedRows {
          allSelected := false;
        } else {
          noneSelected := false;
        }
        if boxes[i].failed {
          someFailed := true;
        }
        i := i + 1;
      }
      assert boxes[..i] == boxes;
      if allSelected {
        RemoveSelectedRows(boxes);
        if nameSelect != "" && menuLabel.Some? {
          menuLabel := Some(nameSelect);
        }
      } else {
        SelectAllRows(boxes, someFailed && noneSelected);
        if nameDeselect != "" && menuLabel.Some? {
          menuLabel := Some(nameDeselect);
        }
      }
    }

    /** `toggle_group_rows` for the checkbox in row `k`: toggles all
        checkboxes of the table rows of its group, as `ToggleAllRows` does,
        and leaves every other checkbox of the table alone. (Every group
        checkbox is a checkbox of the table, by `GroupBoxesInRows`.) */
    method ToggleGroupRows(rows: seq<Row>, k: nat) returns (start: nat, end: nat)
      requires k < |rows|
      modifies this, RowBoxes(rows)
      ensures IsGroupRange(rows, k, start, end)
      ensures selectedRows == ToggledAll(old(selectedRows), GroupBoxes(rows, start, end))
      ensures rowInfo == UpdatedInfo(old(rowInfo), |selectedRows|) && menuLabel == old(menuLabel)
      ensures var group := GroupBoxes(rows, start, end);
        AllSelected(group, old(selectedRows)) ==> forall i :: 0 <= i < |group| ==> !group[i].checked
      ensures var group := GroupBoxes(rows, start, end);
        var onlyFailed := SomeFailed(group) && NoneSelected(group, old(selectedRows));
        !AllSelected(group, old(selectedRows)) ==>
          (forall i :: 0 <= i < |group| && Selects(onlyFailed, group[i]) ==> group[i].checked)
          && (forall b :: b in RowBoxes(rows) && b in group && !Selects(onlyFailed, b) ==> b.checked == old(b.checked))
      ensures forall b :: b in RowBoxes(rows) && b !in GroupBoxes(rows, start, end) ==> b.checked == old(b.checked)
    {
      start, end := GroupRange(rows, k);
      var groupRows := GroupBoxes(rows, start, end);
      GroupBoxesInRows(rows, start, end);
      ToggleAllRows(groupRows, "", "");
    }
  }

  datatype ClickOutcome = PassedOn | NoCheckbox | Handled

  /** All checkboxes below the rows. */
  function RowBoxes(rows: seq<Row>): set<Checkbox>
  {
    set i, j | 0 <= i < |rows| && 0 <= j < |rows[i].boxes| :: rows[i].boxes[j]
  }

  lemma {:induction false} GroupBoxesInRows(rows: seq<Row>, start: nat, end: nat)
    requires start <= end <= |rows|
    ensures forall b :: b in GroupBoxes(rows, start, end) ==> b in RowBoxes(rows)
    decreases end - start
  {
    if start < end {
      GroupBoxesInRows(rows, start + 1, end);
      forall b | b in GroupBoxes(rows, start, end) ensures b in RowBoxes(rows) {
        if b !in GroupBoxes(rows, start + 1, end) {
          var j :| 0 <= j < |rows[start].boxes| && rows[start].boxes[j] == b;
        }
      }
    }
  }
}
