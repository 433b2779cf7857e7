/**
 * RedditAPIClient (main.py:22-75): which submissions are written to which
 * sheet, and how `run` queues one task per input row and sorts the output.
 *
 * The platform client is abstracted away: what `reddit.submission(url=...)`
 * yields for a task is given as a `Fetch`, either the InvalidURL exception or
 * a submission with its locked and archived flags and the length of its
 * `comments` attribute.
 */
module RedditClient {
  import opened Wrappers
  import opened SheetRows
  import opened Excel

  const NoComments := "No comments"
  const FewComments := "3 or less comments"

  /** A fetched submission; `commentCount` stands for `len(submission.comments)`
      (main.py:47), the length of the comment list the client loaded, not a
      total the platform reports. */
  datatype Submission = Submission(locked: bool, archived: bool, commentCount: nat)

  datatype Fetch = InvalidUrl | Found(submission: Submission)

  /** A row to append to a named sheet. */
  datatype Write = Write(sheet: string, row: Row)

  /** _write_comments_to_excel: submissions with no comments go to one sheet,
      those with one to three to another, all others nowhere. */
  function Classify(url: string, commentsCount: nat, traffic: string): (w: Option<Write>)
    ensures w.Some? <==> commentsCount <= 3
    ensures w.Some? ==> w.value.row == Row(url, Count(commentsCount), traffic)
    ensures w.Some? ==> (w.value.sheet == NoComments <==> commentsCount == 0)
    ensures w.Some? ==> (w.value.sheet == FewComments <==> commentsCount != 0)
  {
    if commentsCount == 0 then Some(Write(NoComments, Row(url, Count(0), traffic)))
    else if 1 <= commentsCount <= 3 then Some(Write(FewComments, Row(url, Count(commentsCount), traffic)))
    else None
  }

  /** get_submission_comments: an invalid URL, a locked or an archived
      submission is skipped; any other is classified by its comment count. */
  function SubmissionWrite(url: string, traffic: string, fetch: Fetch): (w: Option<Write>)
    ensures w.Some? <==>
      fetch.Found? && !fetch.submission.locked && !fetch.submission.archived && fetch.submission.commentCount <= 3
    ensures w.Some? ==> w == Classify(url, fetch.submission.commentCount, traffic)
  {
    match fetch
    case InvalidUrl => None
    case Found(s) =>
      if s.locked || s.archived then None else Classify(url, s.commentCount, traffic)
  }

  /** The workbook after a write, if there is one. */
  function ApplyWrite(wb: seq<Sheet>, w: Option<Write>): seq<Sheet>
  {
    match w
    case None => wb
    case Some(Write(sheet, row)) => WithRow(wb, sheet, row)
  }

  // ---------------------------------------------------------------------------
  // Rows in their sheets

  /** A data row may sit on a category sheet only if its count belongs there. */
  predicate RowFits(sheet: string, row: Row)
  {
    && (sheet == NoComments ==> row.comments == Count(0))
    && (sheet == FewComments ==> row.comments.Count? && 1 <= row.comments.n <= 3)
  }

  /** Every data row of every sheet fits the sheet. */
  ghost predicate RowsFitSheets(wb: seq<Sheet>)
  {
    forall i, j :: 0 <= i < |wb| && 1 <= j < |wb[i].rows| ==> RowFits(wb[i].name, wb[i].rows[j])
  }

  /** A write of get_submission_comments keeps every data row on the right sheet. */
  lemma SubmissionWriteFits(wb: seq<Sheet>, url: string, traffic: string, fetch: Fetch)
    requires DistinctNames(wb) && RowsFitSheets(wb)
    ensures RowsFitSheets(ApplyWrite(wb, SubmissionWrite(url, traffic, fetch)))
  {
    var w := SubmissionWrite(url, traffic, fetch);
    if w.Some? {
      var name, row := w.value.sheet, w.value.row;
      assert RowFits(name, row);
      var idx := SheetIndex(wb, name);
      if idx.Some? {
        WithRowExisting(wb, name, row, idx.value);
      } else {
        WithRowNew(wb, name, row);
      }
    }
  }

  /** Sorting moves rows only within their sheet, so they still fit it. */
  lemma SortedWorkbookFits(wb: seq<Sheet>)
    requires RowsFitSheets(wb)
    ensures RowsFitSheets(SortedWorkbook(wb))
  {
    var r := SortedWorkbook(wb);
    forall i, j | 0 <= i < |r| && 1 <= j < |r[i].rows|
      ensures RowFits(r[i].name, r[i].rows[j])
    {
      var sh := wb[i];
      SortedSheetShape(sh);
      var y := r[i].rows[j];
      assert y == r[i].rows[1..][j - 1];
      assert y in multiset(r[i].rows[1..]);
      assert y in multiset(sh.rows[1..]);
      var k :| 0 <= k < |sh.rows[1..]| && sh.rows[1..][k] == y;
      assert sh.rows[k + 1] == y;
    }
  }

  // ---------------------------------------------------------------------------
  // Queueing the tasks of `run`

  type InputRow = seq<string>

  /** A sheet of the input workbook, as read_data returns it. */
  datatype InputSheet = InputSheet(name: string, rows: seq<InputRow>)

  /** A queued call get_submission_comments(url, traffic). */
  datatype Task = Task(url: string, traffic: string)

  /** Every row that `run` unpacks as `url, traffic` has exactly two cells. */
  predicate Unpackable(rows: seq<InputRow>, skipHeader: bool)
  {
    forall i :: 0 <= i < |rows| && !(skipHeader && i == 0) ==> |rows[i]| == 2
  }

  predicate AllUnpackable(data: seq<InputSheet>, skipHeader: bool)
  {
    forall s :: 0 <= s < |data| ==> Unpackable(data[s].rows, skipHeader)
  }

  /** The tasks queued for one sheet. */
  function SheetTasks(rows: seq<InputRow>, skipHeader: bool): seq<Task>
    requires Unpackable(rows, skipHeader)
  {
    if rows == [] then []
    else
      var n := |rows| - 1;
      SheetTasks(rows[..n], skipHeader) + (if skipHeader && n == 0 then [] else [Task(rows[n][0], rows[n][1])])
  }

  /** The tasks queued for all sheets, sheet after sheet. */
  function QueuedTasks(data: seq<InputSheet>, skipHeader: bool): seq<Task>
    requires AllUnpackable(data, skipHeader)
  {
    if data == [] then []
    else QueuedTasks(data[..|data| - 1], skipHeader) + SheetTasks(data[|data| - 1].rows, skipHeader)
  }

  /** One task per row, in row order, skipping the first row when skipHeader is set. */
  lemma {:induction false} SheetTasksRows(rows: seq<InputRow>, skipHeader: bool)
    requires Unpackable(rows, skipHeader)
    ensures var skip := if skipHeader && |rows| > 0 then 1 else 0;
      && |SheetTasks(rows, skipHeader)| == |rows| - skip
      && forall j :: 0 <= j < |rows| - skip ==>
           SheetTasks(rows, skipHeader)[j] == Task(rows[j + skip][0], rows[j + skip][1])
  {
    if rows != [] {
      var n := |rows| - 1;
      SheetTasksRows(rows[..n], skipHeader);
    }
  }

  /** A sheet with no rows, or only a header, queues nothing. */
  lemma NoTasksForHeaderOnly(rows: seq<InputRow>)
    requires |rows| <= 1
    ensures SheetTasks(rows, true) == []
  {
    SheetTasksRows(rows, true);
  }

  /** The nested loop of `run` that builds the task list. */
  method QueueTasks(data: seq<InputSheet>, skipHeader: bool) returns (tasks: seq<Task>)
    requires AllUnpackable(data, skipHeader)
    ensures tasks == QueuedTasks(data, skipHeader)
  {
    tasks := [];
    for s := 0 to |data|
      invariant AllUnpackable(data[..s], skipHeader)
      invariant tasks == QueuedTasks(data[..s], skipHeader)
    {
      var rows := data[s].rows;
      ghost var before := tasks;
      for index := 0 to |rows|
        invariant Unpackable(rows[..index], skipHeader)
        invariant tasks == before + SheetTasks(rows[..index], skipHeader)
      {
        assert rows[..index + 1][..index] == rows[..index];
        if skipHeader && index == 0 {
          continue;
        }
        var row := rows[index];
        var url, traffic := row[0], row[1];
        tasks := tasks + [Task(url, traffic)];
      }
      assert rows[..|rows|] == rows;
      assert data[..s + 1][..s] == data[..s];
    }
    assert data[..|data|] == data;
  }

  // ---------------------------------------------------------------------------
  // Processing the tasks

  /** The workbook after the tasks have each written their row, in queue order;
      `fetches[i]` is what the platform answered for `tasks[i]`. */
  function ProcessAll(wb: seq<Sheet>, tasks: seq<Task>, fetches: seq<Fetch>): (r: seq<Sheet>)
    requires |tasks| == |fetches|
    ensures |r| >= |wb| && Names(r)[..|wb|] == Names(wb)
    ensures forall i :: |wb| <= i < |r| ==> r[i].name == NoComments || r[i].name == FewComments
  {
    if tasks == [] then wb
    else
      var n := |tasks| - 1;
      var before := ProcessAll(wb, tasks[..n], fetches[..n]);
      var w := SubmissionWrite(tasks[n].url, tasks[n].traffic, fetches[n]);
      var after := ApplyWrite(before, w);
      assert Names(after)[..|before|] == Names(before);
      assert Names(after)[..|wb|] == Names(before)[..|wb|];
      after
  }

  lemma {:induction false} ProcessAllKeepsValid(wb: seq<Sheet>, tasks: seq<Task>, fetches: seq<Fetch>)
    requires |tasks| == |fetches|
    requires DistinctNames(wb) && RowsFitSheets(wb)
    ensures DistinctNames(ProcessAll(wb, tasks, fetches))
    ensures RowsFitSheets(ProcessAll(wb, tasks, fetches))
  {
    if tasks != [] {
      var n := |tasks| - 1;
      ProcessAllKeepsValid(wb, tasks[..n], fetches[..n]);
      SubmissionWriteFits(ProcessAll(wb, tasks[..n], fetches[..n]), tasks[n].url, tasks[n].traffic, fetches[n]);
    }
  }

  /** After `run`, every data row of every sheet still fits its sheet: the
      "No comments" sheet holds only zero counts and "3 or less comments" only
      counts from one to three. */
  lemma RunKeepsRowsOnTheirSheets(wb: seq<Sheet>, tasks: seq<Task>, fetches: seq<Fetch>)
    requires |tasks| == |fetches|
    requires DistinctNames(wb) && RowsFitSheets(wb)
    ensures RowsFitSheets(SortedWorkbook(ProcessAll(wb, tasks, fetches)))
  {
    ProcessAllKeepsValid(wb, tasks, fetches);
    SortedWorkbookFits(ProcessAll(wb, tasks, fetches));
  }

  /** Three submissions with 0, 2 and 10 comments, on a fresh workbook: the
      first lands on "No comments", the second on "3 or less comments", the
      third nowhere; both new sheets follow the default "Sheet". */
  lemma ClassificationScenario(u1: string, u2: string, u3: string)
    ensures ProcessAll(
              [Sheet("Sheet", [])],
              [Task(u1, "high"), Task(u2, "low"), Task(u3, "medium")],
              [Found(Submission(false, false, 0)), Found(Submission(false, false, 2)), Found(Submission(false, false, 10))])
         == [Sheet("Sheet", []),
             Sheet(NoComments, [Header, Row(u1, Count(0), "high")]),
             Sheet(FewComments, [Header, Row(u2, Count(2), "low")])]
  {
    var tasks := [Task(u1, "high"), Task(u2, "low"), Task(u3, "medium")];
    var fetches := [Found(Submission(false, false, 0)), Found(Submission(false, false, 2)), Found(Submission(false, false, 10))];
    var wb0 := [Sheet("Sheet", [])];
    var wb1 := wb0 + [Sheet(NoComments, [Header, Row(u1, Count(0), "high")])];
    var wb2 := wb1 + [Sheet(FewComments, [Header, Row(u2, Count(2), "low")])];
    assert Names(wb0) == ["Sheet"];
    WithRowNew(wb0, NoComments, Row(u1, Count(0), "high"));
    assert ProcessAll(wb0, tasks[..1], fetches[..1]) == wb1 by {
      assert tasks[..1][..0] == [] && fetches[..1][..0] == [];
    }
    assert Names(wb1) == ["Sheet", NoComments];
    WithRowNew(wb1, FewComments, Row(u2, Count(2), "low"));
    assert ProcessAll(wb0, tasks[..2], fetches[..2]) == wb2 by {
      assert tasks[..2][..1] == tasks[..1] && fetches[..2][..1] == fetches[..1];
    }
    assert tasks[..3] == tasks && fetches[..3] == fetches;
    assert tasks[..3][..2] == tasks[..2] && fetches[..3][..2] == fetches[..2];
  }

  class RedditAPIClient {
    const xlsx: ExcelHandler

    ghost predicate Valid()
      reads this, xlsx
    {
      xlsx.Valid()
    }

    constructor ()
      ensures Valid() && fresh(xlsx)
      ensures xlsx.sheets == [Sheet("Sheet", [])]
    {
      xlsx := new ExcelHandler();
    }

    /** _write_comments_to_excel. */
    method WriteCommentsToExcel(url: string, commentsCount: nat, traffic: string)
      requires Valid()
      modifies xlsx
      ensures Valid()
      ensures xlsx.sheets == ApplyWrite(old(xlsx.sheets), Classify(url, commentsCount, traffic))
    {
      if commentsCount == 0 {
        xlsx.WriteDataToSheet(Row(url, Count(0), traffic), NoComments);
      } else if 1 <= commentsCount <= 3 {
        xlsx.WriteDataToSheet(Row(url, Count(commentsCount), traffic), FewComments);
      }
    }

    /** get_submission_comments, given what the platform answered. */
    method GetSubmissionComments(url: string, traffic: string, fetch: Fetch)
      requires Valid()
      modifies xlsx
      ensures Valid()
      ensures xlsx.sheets == ApplyWrite(old(xlsx.sheets), SubmissionWrite(url, traffic, fetch))
    {
      if fetch.InvalidUrl? {
        return;
      }
      var submission := fetch.submission;
      if submission.locked || submission.archived {
        return;
      }
      WriteCommentsToExcel(url, submission.commentCount, traffic);
    }

    /** run: with no input data nothing is queued and nothing is sorted;
        otherwise one task is queued per row, each task writes its row, and
        then every sheet is sorted. */
    method Run(data: Option<seq<InputSheet>>, fetches: seq<Fetch>, skipHeader: bool := true)
      returns (tasks: seq<Task>)
      requires Valid()
      requires data.Some? ==>
        AllUnpackable(data.value, skipHeader) && |fetches| == |QueuedTasks(data.value, skipHeader)|
      modifies xlsx
      ensures Valid()
      ensures data.None? ==> tasks == [] && xlsx.sheets == old(xlsx.sheets)
      ensures data.Some? ==>
        && tasks == QueuedTasks(data.value, skipHeader)
        && xlsx.sheets == SortedWorkbook(ProcessAll(old(xlsx.sheets), tasks, fetches))
    {
      if data.None? {
        return [];
      }
      tasks := QueueTasks(data.value, skipHeader);
      // asyncio.gather, with the tasks finishing in queue order.
      for i := 0 to |tasks|
        invariant Valid()
        invariant xlsx.sheets == ProcessAll(old(xlsx.sheets), tasks[..i], fetches[..i])
      {
        assert tasks[..i + 1][..i] == tasks[..i] && fetches[..i + 1][..i] == fetches[..i];
        GetSubmissionComments(tasks[i].url, tasks[i].traffic, fetches[i]);
      }
      assert tasks[..|tasks|] == tasks && fetches[..|fetches|] == fetches;
      xlsx.SortOutputByTraffic();
    }
  }
}
