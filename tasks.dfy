/** The task records of one user and the pure transformations the task
    screen applies to its list: the filtered views, the statistics, toggling
    completion, editing, deleting, the reminder test and the countdown. */
module Tasks {
  import opened Collections
  import opened Text

  /** A task as kept in a user's list. `deadline` is the text the deadline
      input produced (None for null or a missing field); `createdAt` is the
      ISO timestamp text, "" when missing. */
  datatype Task = Task(
    id: string,
    title: string,
    category: string,
    important: bool,
    completed: bool,
    createdAt: string,
    deadline: Option<string>,
    notified: bool)

  predicate IsCompleted(t: Task) { t.completed }
  predicate IsPending(t: Task) { !t.completed }
  predicate IsImportant(t: Task) { t.important }

  /** The task a new submission creates: not completed and not yet reminded;
      an empty deadline input is stored as no deadline. */
  function NewTask(id: string, title: string, category: string, important: bool,
                   createdAt: string, deadlineInput: string): (t: Task)
    ensures t.id == id && t.title == title && t.category == category && t.important == important
    ensures t.createdAt == createdAt && !t.completed && !t.notified
    ensures t.deadline.None? <==> deadlineInput == ""
    ensures t.deadline.Some? ==> t.deadline.value == deadlineInput
  {
    Task(id, title, category, important, false, createdAt,
         if deadlineInput == "" then None else Some(deadlineInput), false)
  }

  /** Whether the view named `filter` shows `t`: "pending", "completed" and
      "important" select by flag, every other name shows everything. */
  predicate Shows(filter: string, t: Task)
    ensures filter != "pending" && filter != "completed" && filter != "important" ==> Shows(filter, t)
  {
    if filter == "pending" then !t.completed
    else if filter == "completed" then t.completed
    else if filter == "important" then t.important
    else true
  }

  /** The list shown under the filter `filter`. */
  function FilterView(tasks: seq<Task>, filter: string): (r: seq<Task>)
    ensures IsSubsequence(r, tasks)
    ensures forall k :: 0 <= k < |r| ==> Shows(filter, r[k])
    ensures forall k :: 0 <= k < |tasks| && Shows(filter, tasks[k]) ==> tasks[k] in r
    ensures filter != "pending" && filter != "completed" && filter != "important" ==> r == tasks
  {
    if filter == "pending" then
      FilterIsSubsequence(tasks, IsPending);
      Filter(tasks, IsPending)
    else if filter == "completed" then
      FilterIsSubsequence(tasks, IsCompleted);
      Filter(tasks, IsCompleted)
    else if filter == "important" then
      FilterIsSubsequence(tasks, IsImportant);
      Filter(tasks, IsImportant)
    else
      SubsequenceReflexive(tasks); tasks
  }

  /** A view keeps each task it shows exactly as often as the list holds
      it, and no other task. */
  lemma FilterViewCounts(tasks: seq<Task>, filter: string)
    ensures forall x :: multiset(FilterView(tasks, filter))[x] == if Shows(filter, x) then multiset(tasks)[x] else 0
  {
    if filter == "pending" {
      FilterCounts(tasks, IsPending);
    } else if filter == "completed" {
      FilterCounts(tasks, IsCompleted);
    } else if filter == "important" {
      FilterCounts(tasks, IsImportant);
    }
  }

  /** The pending and the completed views split the list between them: each
      task is in exactly one of the two, as often as it occurs in the list. */
  lemma PendingCompletedPartition(tasks: seq<Task>)
    ensures multiset(FilterView(tasks, "pending")) + multiset(FilterView(tasks, "completed")) == multiset(tasks)
  {
    FilterPartition(tasks, IsPending, IsCompleted);
  }

  datatype Stats = Stats(total: nat, completed: nat, pending: int)

  /** The three counters of the statistics panel. */
  function TaskStats(tasks: seq<Task>): (s: Stats)
    ensures s.total == |tasks|
    ensures s.completed == |FilterView(tasks, "completed")|
    ensures s.pending == |FilterView(tasks, "pending")|
    ensures 0 <= s.pending == s.total - s.completed <= s.total
  {
    var total := |tasks|;
    var completed := |Filter(tasks, IsCompleted)|;
    FilterPartition(tasks, IsCompleted, IsPending);
    Stats(total, completed, total - completed)
  }

  /** `tasks.find(t => t.id === id)`, as a position. Ids are creation
      timestamps and need not be unique: this is the first match. */
  function FindTask(tasks: seq<Task>, id: string): (r: Option<nat>)
    ensures r.Some? ==> r.value < |tasks| && tasks[r.value].id == id
    ensures r.Some? ==> forall k :: 0 <= k < r.value ==> tasks[k].id != id
    ensures r.None? <==> forall k :: 0 <= k < |tasks| ==> tasks[k].id != id
  {
    FirstIndex(tasks, (t: Task) => t.id == id)
  }

  /** Two lists with the same ids at the same positions find the same task. */
  lemma FindTaskByIds(a: seq<Task>, b: seq<Task>, id: string)
    requires |a| == |b|
    requires forall k :: 0 <= k < |a| ==> a[k].id == b[k].id
    ensures FindTask(a, id) == FindTask(b, id)
  {
  }

  /** The list after the completion checkbox of task `id` changes. */
  function ToggledComplete(tasks: seq<Task>, id: string): (r: seq<Task>)
    ensures |r| == |tasks|
    ensures forall k :: 0 <= k < |r| ==> r[k] == tasks[k].(completed := r[k].completed)
    ensures forall k :: 0 <= k < |r| ==> (r[k].completed != tasks[k].completed <==> FindTask(tasks, id) == Some(k))
  {
    match FindTask(tasks, id)
    case None => tasks
    case Some(i) => tasks[i := tasks[i].(completed := !tasks[i].completed)]
  }

  /** Toggling the same task twice restores the list. */
  lemma {:induction false} ToggleTwice(tasks: seq<Task>, id: string)
    ensures ToggledComplete(ToggledComplete(tasks, id), id) == tasks
  {
    var once := ToggledComplete(tasks, id);
    FindTaskByIds(tasks, once, id);
    var twice := ToggledComplete(once, id);
    assert forall k :: 0 <= k < |tasks| ==> twice[k] == tasks[k];
  }

  /** The list after an edit of task `id`, or None when nothing changes: the
      task is missing, or the title prompt was cancelled (None) or answered
      with "". A title of only whitespace passes that test and becomes "".
      A cancelled or blank deadline answer removes the deadline; either way
      the task may be reminded again. */
  function Edit(tasks: seq<Task>, id: string, titleAnswer: Option<string>,
                deadlineAnswer: Option<string>): (r: Option<seq<Task>>)
    ensures r.None? <==> FindTask(tasks, id).None? || titleAnswer.None? || titleAnswer == Some("")
    ensures r.Some? ==> |r.value| == |tasks|
    ensures r.Some? ==> forall k :: 0 <= k < |tasks| && FindTask(tasks, id) != Some(k) ==> r.value[k] == tasks[k]
    ensures r.Some? ==>
      var i := FindTask(tasks, id).value;
      var t := r.value[i];
      t == tasks[i].(title := t.title, deadline := t.deadline, notified := t.notified)
      && t.title == Trim(titleAnswer.value)
      && !t.notified
      && (t.deadline.Some? <==> deadlineAnswer.Some? && deadlineAnswer.value != "")
      && (t.deadline.Some? ==> t.deadline == deadlineAnswer)
  {
    match FindTask(tasks, id)
    case None => None
    case Some(i) =>
      if titleAnswer.None? || titleAnswer.value == "" then None
      else
        var t := tasks[i].(title := Trim(titleAnswer.value));
        var t' := if deadlineAnswer.Some? && deadlineAnswer.value != ""
                  then t.(deadline := deadlineAnswer, notified := false)
                  else t.(deadline := None, notified := false);
        Some(tasks[i := t'])
  }

  /** A non-empty answer of only whitespace is accepted and clears the title. */
  lemma EditWithBlankTitle(tasks: seq<Task>, id: string, answer: string, deadlineAnswer: Option<string>)
    requires FindTask(tasks, id).Some?
    requires answer != "" && AllWhitespace(answer)
    ensures Edit(tasks, id, Some(answer), deadlineAnswer).Some?
    ensures Edit(tasks, id, Some(answer), deadlineAnswer).value[FindTask(tasks, id).value].title == ""
  {
  }

  /** `tasks.filter(t => t.id !== id)`: every task with that id is removed. */
  function WithoutTask(tasks: seq<Task>, id: string): (r: seq<Task>)
    ensures IsSubsequence(r, tasks)
    ensures forall k :: 0 <= k < |r| ==> r[k].id != id
    ensures forall k :: 0 <= k < |tasks| && tasks[k].id != id ==> tasks[k] in r
    ensures forall x :: multiset(r)[x] == if x.id != id then multiset(tasks)[x] else 0
    ensures FindTask(tasks, id).None? ==> r == tasks
  {
    var keep := (t: Task) => t.id != id;
    FilterIsSubsequence(tasks, keep);
    FilterCounts(tasks, keep);
    if FindTask(tasks, id).None? then FilterKeepsAll(tasks, keep); Filter(tasks, keep)
    else Filter(tasks, keep)
  }

  /** Reminders fire for deadlines at most 15 minutes away. The source
      compares `(deadline - now) / 1000 / 60` with 0 and 15; on a whole
      number of milliseconds that is the test 0 < deadline - now <= 900000. */
  const ReminderWindowMs: int := 15 * 60 * 1000

  /** The reminder test for one task at time `now` (milliseconds). `parseDate`
      stands for `new Date(text)`, None for an invalid date. */
  predicate DueSoon(t: Task, now: int, parseDate: string -> Option<int>)
    ensures DueSoon(t, now, parseDate) ==> t.deadline.Some? && !t.completed && !t.notified
    ensures DueSoon(t, now, parseDate) ==>
      t.deadline.Some? && parseDate(t.deadline.value).Some?
      && now < parseDate(t.deadline.value).value <= now + ReminderWindowMs
  {
    t.deadline.Some? && t.deadline.value != "" && !t.completed && !t.notified
    && var due := parseDate(t.deadline.value);
       due.Some? && 0 < due.value - now <= ReminderWindowMs
  }

  function MarkIfDue(t: Task, now: int, parseDate: string -> Option<int>): Task {
    if DueSoon(t, now, parseDate) then t.(notified := true) else t
  }

  /** The list after one reminder sweep at `now`: exactly the tasks that are
      due soon become notified; nothing else changes. */
  function Swept(tasks: seq<Task>, now: int, parseDate: string -> Option<int>): (r: seq<Task>)
    ensures |r| == |tasks|
    ensures forall k :: 0 <= k < |r| ==> r[k] == tasks[k].(notified := r[k].notified)
    ensures forall k :: 0 <= k < |r| ==> (r[k].notified <==> tasks[k].notified || DueSoon(tasks[k], now, parseDate))
  {
    seq(|tasks|, k requires 0 <= k < |tasks| => MarkIfDue(tasks[k], now, parseDate))
  }

  /** A second sweep at the same time changes nothing: each due task fires once. */
  lemma {:induction false} SweepIdempotent(tasks: seq<Task>, now: int, parseDate: string -> Option<int>)
    ensures Swept(Swept(tasks, now, parseDate), now, parseDate) == Swept(tasks, now, parseDate)
  {
    var once := Swept(tasks, now, parseDate);
    var twice := Swept(once, now, parseDate);
    forall k | 0 <= k < |once| ensures twice[k] == once[k] {
      assert !DueSoon(once[k], now, parseDate) || !once[k].notified;
    }
  }

  /** Editing re-arms the reminder: a pending task given a deadline inside
      the window is reminded by the next sweep, even if it was reminded
      before. */
  lemma EditRearmsReminder(tasks: seq<Task>, id: string, title: string, deadline: string,
                           now: int, parseDate: string -> Option<int>)
    requires FindTask(tasks, id).Some? && title != ""
    requires !tasks[FindTask(tasks, id).value].completed
    requires deadline != "" && parseDate(deadline).Some?
    requires 0 < parseDate(deadline).value - now <= ReminderWindowMs
    ensures Edit(tasks, id, Some(title), Some(deadline)).Some?
    ensures Swept(Edit(tasks, id, Some(title), Some(deadline)).value, now, parseDate)[FindTask(tasks, id).value].notified
  {
    var i := FindTask(tasks, id).value;
    var edited := Edit(tasks, id, Some(title), Some(deadline)).value;
    assert DueSoon(edited[i], now, parseDate);
  }

  /** What the countdown of one deadline shows. */
  datatype Countdown = Expired | Remaining(hours: nat, minutes: nat, seconds: nat) | Unreadable

  /** The countdown text for a deadline at `deadline` (None when the date is
      invalid, which the source renders as NaN) seen at `now`: "Expired" once
      no time is left, otherwise the time left within the current day, cut to
      whole seconds. */
  function CountdownAt(deadline: Option<int>, now: int): (c: Countdown)
    ensures c.Unreadable? <==> deadline.None?
    ensures c.Expired? <==> deadline.Some? && deadline.value - now <= 0
    ensures c.Remaining? ==> c.hours < 24 && c.minutes < 60 && c.seconds < 60
    ensures c.Remaining? ==>
      var left := (deadline.value - now) % 86400000;
      var shown := c.hours * 3600000 + c.minutes * 60000 + c.seconds * 1000;
      shown <= left < shown + 1000
  {
    match deadline
    case None => Unreadable
    case Some(d) =>
      var diff := d - now;
      if diff <= 0 then Expired
      else
        DayDecomposition(diff);
        Remaining((diff / 3600000) % 24, (diff / 60000) % 60, (diff / 1000) % 60)
  }

  lemma MulAtLeast(d: nat, k: nat)
    requires k >= 1
    ensures d * k >= d
  {
    assert d * k == d * (k - 1) + d;
  }

  /** Division with remainder is unique. */
  lemma DivModUnique(n: int, d: int, q: int, r: int)
    requires d > 0 && 0 <= r < d && n == d * q + r
    ensures n / d == q && n % d == r
  {
    var q', r' := n / d, n % d;
    assert n == d * q' + r';
    if q > q' {
      assert d * q == d * q' + d * (q - q');
      MulAtLeast(d, q - q');
    } else if q < q' {
      assert d * q' == d * q + d * (q' - q);
      MulAtLeast(d, q' - q);
    }
  }

  /** The hour, minute and second digits of a positive duration, as the
      countdown computes them, add up to its part within one day, to the second. */
  lemma DayDecomposition(diff: nat)
    ensures var left := diff % 86400000;
      var shown := ((diff / 3600000) % 24) * 3600000 + ((diff / 60000) % 60) * 60000 + ((diff / 1000) % 60) * 1000;
      shown <= left < shown + 1000
  {
    var q := diff / 86400000;
    var left := diff % 86400000;
    var h := left / 3600000;
    var r1 := left % 3600000;
    var m := r1 / 60000;
    var r2 := r1 % 60000;
    var s := r2 / 1000;
    var ms := r2 % 1000;
    assert h < 24;
    assert m < 60;
    assert s < 60;
    DivModUnique(diff, 3600000, 24 * q + h, r1);
    DivModUnique(24 * q + h, 24, q, h);
    DivModUnique(diff, 60000, 1440 * q + 60 * h + m, r2);
    DivModUnique(1440 * q + 60 * h + m, 60, 24 * q + h, m);
    DivModUnique(diff, 1000, 86400 * q + 3600 * h + 60 * m + s, ms);
    DivModUnique(86400 * q + 3600 * h + 60 * m + s, 60, 1440 * q + 60 * h + m, s);
  }
}
