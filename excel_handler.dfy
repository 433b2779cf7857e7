/**
 * ExcelHandler's output side (main.py:78-135): the workbook it writes is an
 * ordered list of named sheets, each an ordered list of rows.  Saving the
 * workbook to disk and reading the input workbook are not part of this model.
 */
module Excel {
  import opened Wrappers
  import opened SheetRows

  datatype Sheet = Sheet(name: string, rows: seq<Row>)

  /** `workbook.sheetnames`. */
  function Names(wb: seq<Sheet>): (names: seq<string>)
    ensures |names| == |wb|
    ensures forall i :: 0 <= i < |wb| ==> names[i] == wb[i].name
  {
    if wb == [] then [] else [wb[0].name] + Names(wb[1..])
  }

  /** openpyxl keeps sheet titles unique. */
  ghost predicate DistinctNames(wb: seq<Sheet>)
  {
    forall i, j :: 0 <= i < j < |wb| ==> wb[i].name != wb[j].name
  }

  /** The position of the sheet `workbook[name]` denotes, if there is one. */
  function SheetIndex(wb: seq<Sheet>, name: string): (r: Option<nat>)
    ensures r.None? <==> name !in Names(wb)
    ensures r.Some? ==> r.value < |wb| && wb[r.value].name == name
    ensures r.Some? ==> forall j :: 0 <= j < r.value ==> wb[j].name != name
  {
    if wb == [] then None
    else if wb[0].name == name then Some(0)
    else
      var rest := SheetIndex(wb[1..], name);
      assert Names(wb) == [wb[0].name] + Names(wb[1..]);
      if rest.None? then None else Some(rest.value + 1)
  }

  /** The workbook after write_data_to_sheet(row, name): the row is appended to
      the sheet called `name`, which is first created at the end of the workbook,
      holding the header, if there is none. */
  function WithRow(wb: seq<Sheet>, name: string, row: Row): (r: seq<Sheet>)
    ensures Names(r) == Names(wb) + (if name in Names(wb) then [] else [name])
    ensures forall i :: 0 <= i < |wb| && wb[i].name != name ==> r[i] == wb[i]
    ensures name in Names(wb) ==>
      exists i :: 0 <= i < |wb| && wb[i].name == name && r[i].rows == wb[i].rows + [row]
    ensures name !in Names(wb) ==> r[|wb|] == Sheet(name, [Header, row])
    ensures DistinctNames(wb) ==> DistinctNames(r)
  {
    match SheetIndex(wb, name)
    case Some(i) =>
      var r := wb[i := Sheet(name, wb[i].rows + [row])];
      assert Names(r) == Names(wb);
      r
    case None =>
      var r := wb + [Sheet(name, [Header, row])];
      assert Names(r) == Names(wb) + [name];
      r
  }

  /** Writing to a sheet that already exists adds exactly one row at its end and
      leaves every other sheet, and the order of sheets, as they were. */
  lemma WithRowExisting(wb: seq<Sheet>, name: string, row: Row, i: nat)
    requires DistinctNames(wb)
    requires i < |wb| && wb[i].name == name
    ensures WithRow(wb, name, row) == wb[i := Sheet(name, wb[i].rows + [row])]
  {
    var r := WithRow(wb, name, row);
    assert Names(wb)[i] == name;
    var k :| 0 <= k < |wb| && wb[k].name == name && r[k].rows == wb[k].rows + [row];
    assert k == i;
    assert |r| == |Names(r)| == |wb|;
    forall j | 0 <= j < |wb|
      ensures r[j] == wb[i := Sheet(name, wb[i].rows + [row])][j]
    {
      if j == i {
        assert r[j].name == Names(r)[j] == Names(wb)[j] == name;
      }
    }
  }

  /** Writing to a sheet that does not exist appends a new sheet, holding the
      header and the row, after all the others. */
  lemma WithRowNew(wb: seq<Sheet>, name: string, row: Row)
    requires name !in Names(wb)
    ensures WithRow(wb, name, row) == wb + [Sheet(name, [Header, row])]
  {
    var r := WithRow(wb, name, row);
    assert |r| == |Names(r)| == |wb| + 1;
    forall j | 0 <= j < |wb|
      ensures r[j] == wb[j]
    {
      assert Names(wb)[j] == wb[j].name;
    }
  }

  // ---------------------------------------------------------------------------
  // Sorting every sheet

  /** `_sort_sheet_data_by_traffic`: the rows from the second on, sorted. */
  function SortSheetDataByTraffic(rows: seq<Row>): (r: seq<Row>)
    ensures |rows| <= 1 ==> r == []
    ensures |rows| >= 1 ==> |r| == |rows| - 1
  {
    if |rows| <= 1 then [] else SortByTraffic(rows[1..])
  }

  /** What `delete_rows(2, max_row)` leaves: the first row, if any. */
  function HeaderRows(rows: seq<Row>): (r: seq<Row>)
    ensures |r| == (if rows == [] then 0 else 1)
    ensures r <= rows
  {
    if rows == [] then [] else rows[..1]
  }

  /** A sheet after sort_output_by_traffic. */
  function SortedSheet(sh: Sheet): Sheet
  {
    Sheet(sh.name, HeaderRows(sh.rows) + SortSheetDataByTraffic(sh.rows))
  }

  /** The workbook after sort_output_by_traffic. */
  function SortedWorkbook(wb: seq<Sheet>): (r: seq<Sheet>)
    ensures |r| == |wb|
    ensures forall i :: 0 <= i < |wb| ==> r[i] == SortedSheet(wb[i])
  {
    if wb == [] then [] else [SortedSheet(wb[0])] + SortedWorkbook(wb[1..])
  }

  /** A sorted sheet keeps its name, its first (header) row and its number of
      rows; its other rows are a permutation of the old ones, in non-increasing
      order of traffic, and rows with equal traffic keep their relative order. */
  lemma SortedSheetShape(sh: Sheet)
    ensures var r := SortedSheet(sh);
      && r.name == sh.name
      && |r.rows| == |sh.rows|
      && (|sh.rows| > 0 ==> r.rows[0] == sh.rows[0])
      && (|sh.rows| > 0 ==> multiset(r.rows[1..]) == multiset(sh.rows[1..]))
      && (|sh.rows| > 0 ==> TrafficDescending(r.rows[1..]))
      && (|sh.rows| > 0 ==> forall t :: WithTraffic(r.rows[1..], t) == WithTraffic(sh.rows[1..], t))
  {
    var r := SortedSheet(sh);
    if |sh.rows| > 0 {
      SortByTrafficCorrect(sh.rows[1..]);
      assert r.rows[1..] == SortByTraffic(sh.rows[1..]);
    }
  }

  /** Sorting a second time changes nothing. */
  lemma SortedSheetIdempotent(sh: Sheet)
    ensures SortedSheet(SortedSheet(sh)) == SortedSheet(sh)
  {
    var r := SortedSheet(sh);
    if |sh.rows| > 1 {
      SortByTrafficCorrect(sh.rows[1..]);
      assert r.rows[1..] == SortByTraffic(sh.rows[1..]);
      SortByTrafficKeepsSorted(r.rows[1..]);
    }
  }

  /** Sorting the whole workbook a second time changes nothing. */
  lemma SortedWorkbookIdempotent(wb: seq<Sheet>)
    ensures SortedWorkbook(SortedWorkbook(wb)) == SortedWorkbook(wb)
  {
    forall i | 0 <= i < |wb|
      ensures SortedSheet(SortedSheet(wb[i])) == SortedSheet(wb[i])
    {
      SortedSheetIdempotent(wb[i]);
    }
  }

  /** Sorting keeps the names and order of the sheets. */
  lemma SortedWorkbookNames(wb: seq<Sheet>)
    ensures Names(SortedWorkbook(wb)) == Names(wb)
    ensures DistinctNames(wb) ==> DistinctNames(SortedWorkbook(wb))
  {
    var r := SortedWorkbook(wb);
    forall i | 0 <= i < |wb|
      ensures r[i].name == wb[i].name
    {
      assert r[i] == SortedSheet(wb[i]);
    }
  }

  // ---------------------------------------------------------------------------
  // The handler

  class ExcelHandler {
    /** The write workbook's sheets, in order. */
    var sheets: seq<Sheet>

    ghost predicate Valid()
      reads this
    {
      DistinctNames(sheets)
    }

    /** A new Workbook() holds one empty sheet called "Sheet". */
    constructor ()
      ensures Valid()
      ensures sheets == [Sheet("Sheet", [])]
    {
      sheets := [Sheet("Sheet", [])];
    }

    /** _get_or_create_sheet: the index of the sheet called `name`, appended
        with the header row if it did not exist. */
    method GetOrCreateSheet(name: string) returns (index: nat)
      requires Valid()
      modifies this
      ensures Valid()
      ensures index < |sheets| && sheets[index].name == name
      ensures name in Names(old(sheets)) ==> sheets == old(sheets)
      ensures name !in Names(old(sheets)) ==>
        sheets == old(sheets) + [Sheet(name, [Header])] && index == |old(sheets)|
    {
      var found := SheetIndex(sheets, name);
      if found.Some? {
        index := found.value;
      } else {
        index := |sheets|;
        sheets := sheets + [Sheet(name, [])];   // create_sheet
        sheets := sheets[index := Sheet(name, sheets[index].rows + [Header])];   // append the header
        assert sheets[index].rows == [Header];
      }
    }

    /** write_data_to_sheet: append one row to the named sheet. */
    method WriteDataToSheet(rowData: Row, name: string)
      requires Valid()
      modifies this
      ensures Valid()
      ensures sheets == WithRow(old(sheets), name, rowData)
    {
      var index := GetOrCreateSheet(name);
      if name in Names(old(sheets)) {
        WithRowExisting(old(sheets), name, rowData, index);
      } else {
        WithRowNew(old(sheets), name, rowData);
        assert [Header] + [rowData] == [Header, rowData];
      }
      sheets := sheets[index := Sheet(name, sheets[index].rows + [rowData])];
    }

    /** _replace_sheet_data: drop every row after the first, then append the
        sorted rows one by one. */
    method ReplaceSheetData(index: nat, sortedData: seq<Row>)
      requires Valid()
      requires index < |sheets|
      modifies this
      ensures Valid()
      ensures sheets == old(sheets)[index := Sheet(old(sheets)[index].name, HeaderRows(old(sheets)[index].rows) + sortedData)]
    {
      var name := sheets[index].name;
      var kept := HeaderRows(sheets[index].rows);
      sheets := sheets[index := Sheet(name, kept)];
      assert kept + sortedData[..0] == kept;
      for k := 0 to |sortedData|
        invariant sheets == old(sheets)[index := Sheet(name, kept + sortedData[..k])]
      {
        assert kept + sortedData[..k + 1] == kept + sortedData[..k] + [sortedData[k]];
        sheets := sheets[index := Sheet(name, sheets[index].rows + [sortedData[k]])];
      }
      assert sortedData[..|sortedData|] == sortedData;
    }

    /** sort_output_by_traffic: sort the data rows of every sheet in turn. */
    method SortOutputByTraffic()
      requires Valid()
      modifies this
      ensures Valid()
      ensures sheets == SortedWorkbook(old(sheets))
    {
      SortedWorkbookNames(sheets);
      var i := 0;
      while i < |sheets|
        invariant Valid()
        invariant 0 <= i <= |sheets| == |old(sheets)|
        invariant forall j :: 0 <= j < i ==> sheets[j] == SortedSheet(old(sheets)[j])
        invariant forall j :: i <= j < |sheets| ==> sheets[j] == old(sheets)[j]
      {
        var sortedData := SortSheetDataByTraffic(sheets[i].rows);
        ReplaceSheetData(i, sortedData);
        i := i + 1;
      }
    }
  }
}
