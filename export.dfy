/** The CSV export of the task list: a header line and one line per task,
    each field wrapped in double quotes, with no escaping of quotes inside a
    field. */
module TaskExport {
  import opened Collections
  import opened Text
  import opened Tasks

  /** The column names, in export order. */
  const Columns: seq<string> := ["Title", "Category", "Status", "Deadline", "Created Date", "Important"]

  /** "Title,Category,Status,Deadline,Created Date,Important". */
  const HeaderLine: string := Join(Columns, ',')

  /** Splitting the header at commas gives the column names. */
  lemma HeaderColumns()
    ensures Split(HeaderLine, ',') == Columns
  {
    forall k | 0 <= k < |Columns| ensures ',' !in Columns[k] { }
    SplitJoin(Columns, ',');
  }

  /** The header as the source writes it, newline included. */
  const CsvHeader: string := HeaderLine + "\n"

  /** The six exported values of a task, in header order. */
  function CsvFields(t: Task): (r: seq<string>)
    ensures |r| == |Columns|
    ensures r[0] == t.title && r[1] == t.category && r[4] == t.createdAt
    ensures r[2] in {"Completed", "Pending"} && (r[2] == "Completed" <==> t.completed)
    ensures r[3] == "" <==> t.deadline.None? || t.deadline.value == ""
    ensures t.deadline.Some? ==> r[3] == t.deadline.value
    ensures r[5] in {"Yes", "No"} && (r[5] == "Yes" <==> t.important)
  {
    [ t.title,
      t.category,
      if t.completed then "Completed" else "Pending",
      match t.deadline case Some(d) => d case None => "",
      t.createdAt,
      if t.important then "Yes" else "No" ]
  }

  function Quoted(field: string): string {
    "\"" + field + "\""
  }

  function QuotedFields(t: Task): seq<string> {
    var fs := CsvFields(t);
    seq(|fs|, k requires 0 <= k < |fs| => Quoted(fs[k]))
  }

  /** The line of one task: its quoted fields joined by commas. */
  function CsvRow(t: Task): (r: string)
    ensures |r| >= 2 && r[0] == '"' && r[|r| - 1] == '"'
  {
    var qs := QuotedFields(t);
    assert forall k :: 0 <= k < |qs| ==> qs[k] == "\"" + CsvFields(t)[k] + "\"";
    JoinEnds(qs, ',');
    Join(qs, ',')
  }

  function CsvRows(tasks: seq<Task>): seq<string> {
    seq(|tasks|, k requires 0 <= k < |tasks| => CsvRow(tasks[k]))
  }

  /** The exported text, or None ("No tasks to export") for an empty list:
      the header followed by the task lines joined by newlines, with no
      newline after the last one. */
  function ExportCsv(tasks: seq<Task>): (r: Option<string>)
    ensures r.None? <==> tasks == []
  {
    if |tasks| == 0 then None
    else Some(CsvHeader + Join(CsvRows(tasks), '\n'))
  }

  predicate FieldsWithout(t: Task, c: char) {
    forall k :: 0 <= k < |CsvFields(t)| ==> c !in CsvFields(t)[k]
  }

  /** A task line contains a character other than '"' and ',' only if one of the task's fields does. */
  lemma RowAvoids(t: Task, c: char)
    requires c != '"' && c != ',' && FieldsWithout(t, c)
    ensures c !in CsvRow(t)
  {
    var qs := QuotedFields(t);
    forall k | 0 <= k < |qs| ensures c !in qs[k] {
      assert qs[k] == "\"" + CsvFields(t)[k] + "\"";
    }
    JoinAvoids(qs, ',', c);
  }

  /** When no field of the list contains a newline, the export has exactly
      |tasks| + 1 lines: the header, then one line per task in list order. */
  lemma {:induction false} ExportLines(tasks: seq<Task>)
    requires tasks != []
    requires forall k :: 0 <= k < |tasks| ==> FieldsWithout(tasks[k], '\n')
    ensures Split(ExportCsv(tasks).value, '\n') == [HeaderLine] + CsvRows(tasks)
    ensures |Split(ExportCsv(tasks).value, '\n')| == |tasks| + 1
  {
    var rows := CsvRows(tasks);
    var lines := [HeaderLine] + rows;
    assert lines[1..] == rows;
    assert Join(lines, '\n') == HeaderLine + ['\n'] + Join(rows, '\n');
    assert ExportCsv(tasks).value == Join(lines, '\n');
    RowsAvoidNewline(tasks);
    HeaderAvoidsNewline();
    assert forall k :: 0 <= k < |lines| ==> '\n' !in lines[k] by {
      forall k | 0 <= k < |lines| ensures '\n' !in lines[k] {
        if k > 0 {
          assert lines[k] == rows[k - 1];
        }
      }
    }
    SplitJoin(lines, '\n');
  }

  /** The header is a single line. */
  lemma HeaderAvoidsNewline()
    ensures '\n' !in HeaderLine
  {
    forall k | 0 <= k < |Columns| ensures '\n' !in Columns[k] { }
    JoinAvoids(Columns, ',', '\n');
  }

  /** No task line has a newline when no field of any task has one. */
  lemma RowsAvoidNewline(tasks: seq<Task>)
    requires forall k :: 0 <= k < |tasks| ==> FieldsWithout(tasks[k], '\n')
    ensures forall k :: 0 <= k < |tasks| ==> '\n' !in CsvRows(tasks)[k]
  {
    forall k | 0 <= k < |tasks| ensures '\n' !in CsvRows(tasks)[k] {
      RowAvoids(tasks[k], '\n');
    }
  }

  /** When no field of a task contains a comma, splitting its line at commas
      gives back its six quoted fields in header order. */
  lemma RowFields(t: Task)
    requires FieldsWithout(t, ',')
    ensures Split(CsvRow(t), ',') == QuotedFields(t)
    ensures |QuotedFields(t)| == 6
  {
    var qs := QuotedFields(t);
    forall k | 0 <= k < |qs| ensures ',' !in qs[k] {
      assert qs[k] == "\"" + CsvFields(t)[k] + "\"";
    }
    SplitJoin(qs, ',');
  }

  /** The export of a single task is two lines: the header and its row. */
  lemma SingleTaskExport(t: Task)
    requires FieldsWithout(t, '\n')
    ensures Split(ExportCsv([t]).value, '\n') == [HeaderLine, CsvRow(t)]
  {
    ExportLines([t]);
    assert CsvRows([t]) == [CsvRow(t)];
  }
}
