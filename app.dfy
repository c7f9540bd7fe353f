/** The task screen controller: the signed-in user's task list, the filter
    and the importance toggle, the handlers that change them, the reminder
    sweep, the write-back into the user directory and the profile form.
    Rendering, notifications and timers are the page's business; prompts and
    confirmations are parameters, and the clock readings a handler takes
    (`Date.now()` ids, ISO timestamps, the sweep time) are inputs. */
module App {
  import opened Collections
  import opened Text
  import opened Tasks
  import opened Directory

  /** The result of a profile submission, one per message the form can show. */
  datatype ProfileOutcome =
    | MissingNameOrEmail | UserNotFound
    | CurrentPasswordRequired | CurrentPasswordIncorrect | NewPasswordTooShort | NewPasswordsDiffer
    | ProfileUpdated
  {
    function Message(): string {
      match this
      case MissingNameOrEmail => "Name and email are required"
      case UserNotFound => "User not found"
      case CurrentPasswordRequired => "Current password is required to change password"
      case CurrentPasswordIncorrect => "Current password is incorrect"
      case NewPasswordTooShort => "New password must be at least 6 characters"
      case NewPasswordsDiffer => "New passwords do not match"
      case ProfileUpdated => "Profile updated successfully!"
    }
  }

  /** Why a password change is refused, None when it is not refused. An empty
      new password asks for no change and is never refused; otherwise the
      checks run in the source's order and the first failure is reported. */
  function PasswordObjection(stored: string, currentPassword: string, newPassword: string,
                             confirm: string): (r: Option<ProfileOutcome>)
    ensures r.None? <==>
      newPassword == "" ||
      (currentPassword != "" && currentPassword == stored && Utf16Length(newPassword) >= 6 && newPassword == confirm)
    ensures r == Some(CurrentPasswordRequired) <==> newPassword != "" && currentPassword == ""
    ensures r == Some(CurrentPasswordIncorrect) <==>
      newPassword != "" && currentPassword != "" && stored != currentPassword
    ensures r == Some(NewPasswordTooShort) <==>
      newPassword != "" && currentPassword != "" && stored == currentPassword && Utf16Length(newPassword) < 6
    ensures r == Some(NewPasswordsDiffer) <==>
      newPassword != "" && currentPassword != "" && stored == currentPassword && Utf16Length(newPassword) >= 6
      && newPassword != confirm
    ensures r.Some? ==> r.value != ProfileUpdated && r.value != MissingNameOrEmail && r.value != UserNotFound
  {
    if newPassword == "" then None
    else if currentPassword == "" then Some(CurrentPasswordRequired)
    else if stored != currentPassword then Some(CurrentPasswordIncorrect)
    else if Utf16Length(newPassword) < 6 then Some(NewPasswordTooShort)
    else if newPassword != confirm then Some(NewPasswordsDiffer)
    else None
  }

  /** The account after an accepted profile submission: the new name, email,
      phone and birth date, and the new password when one was given. Id,
      creation time and tasks are kept. */
  function ProfileApplied(user: Account, name: string, email: string, phone: string, dob: string,
                          newPassword: string): (r: Account)
    ensures r == user.(name := r.name, email := r.email, phone := r.phone, dob := r.dob, password := r.password)
    ensures r.name == name && r.email == email && r.phone == Some(phone) && r.dob == Some(dob)
    ensures r.password == if newPassword == "" then user.password else newPassword
  {
    var u := if newPassword != "" then user.(password := newPassword) else user;
    u.(name := name, email := email, phone := Some(phone), dob := Some(dob))
  }

  class TaskMasterApp {
    const storage: Storage
    var currentUser: Session
    var tasks: seq<Task>
    var currentFilter: string
    var isImportant: bool

    /** Start-up: `checkAuthentication` reads the session record, then
        `loadUserData` fetches the user's list. Without both session
        artifacts the source leaves the page instead, which the requires
        stands for. */
    constructor(storage: Storage)
      requires storage.currentUser.Some? && storage.authenticated
      ensures this.storage == storage && currentUser == storage.currentUser.value
      ensures tasks == match StoredTasks(storage.users, currentUser.id) case Some(ts) => ts case None => []
      ensures currentFilter == "all" && !isImportant
    {
      this.storage := storage;
      currentUser := storage.currentUser.value;
      tasks := [];
      currentFilter := "all";
      isImportant := false;
      new;
      LoadUserData();
    }

    /** `loadUserData`: the list stored for the current user replaces the
        one in memory; with no such account the list stays. */
    method LoadUserData()
      modifies this`tasks
      ensures tasks == match StoredTasks(storage.users, currentUser.id) case Some(ts) => ts case None => old(tasks)
    {
      var found := FindAccountById(storage.users, currentUser.id);
      if found.Some? {
        tasks := storage.users[found.value].tasks;
      }
    }

    /** `saveUserData`: the list is written into the current user's account. */
    method SaveUserData()
      modifies storage`users
      ensures storage.users == WithUserTasks(old(storage.users), currentUser.id, tasks)
      ensures StoredTasks(storage.users, currentUser.id).Some? ==> StoredTasks(storage.users, currentUser.id) == Some(tasks)
    {
      var found := FindAccountById(storage.users, currentUser.id);
      if found.Some? {
        storage.users := storage.users[found.value := storage.users[found.value].(tasks := tasks)];
      }
      SaveThenLoad(old(storage.users), currentUser.id, tasks);
    }

    /** `handleAddTask`: a title that is empty after trimming is ignored;
        otherwise the new task goes first, the list is saved and the
        importance toggle is reset. */
    method HandleAddTask(input: string, category: string, deadlineInput: string, id: string, createdAt: string)
      modifies this`tasks, this`isImportant, storage`users
      ensures Trim(input) == "" ==> tasks == old(tasks) && isImportant == old(isImportant) && unchanged(storage)
      ensures Trim(input) != "" ==>
        tasks == [NewTask(id, Trim(input), category, old(isImportant), createdAt, deadlineInput)] + old(tasks)
        && !isImportant
        && storage.users == WithUserTasks(old(storage.users), currentUser.id, tasks)
      ensures Trim(input) != "" ==>
        |tasks| == |old(tasks)| + 1 && tasks[1..] == old(tasks)
        && tasks[0].title == Trim(input) && !tasks[0].completed && !tasks[0].notified
        && tasks[0].important == old(isImportant)
    {
      var title := Trim(input);
      if title == "" {
        return;
      }
      var newTask := NewTask(id, title, category, isImportant, createdAt, deadlineInput);
      tasks := [newTask] + tasks;
      SaveUserData();
      isImportant := false;
    }

    /** `toggleImportant`: flips the toggle for the next task. */
    method ToggleImportant()
      modifies this`isImportant
      ensures isImportant == !old(isImportant)
    {
      isImportant := !isImportant;
    }

    /** `handleFilterChange`: selects the view. */
    method HandleFilterChange(filter: string)
      modifies this`currentFilter
      ensures currentFilter == filter
    {
      currentFilter := filter;
    }

    /** `toggleTaskComplete`: flips completion of the first task with that
        id and saves; an unknown id changes nothing. */
    method ToggleTaskComplete(taskId: string)
      modifies this`tasks, storage`users
      ensures tasks == ToggledComplete(old(tasks), taskId)
      ensures FindTask(old(tasks), taskId).Some? ==>
        storage.users == WithUserTasks(old(storage.users), currentUser.id, tasks)
      ensures FindTask(old(tasks), taskId).None? ==> tasks == old(tasks) && unchanged(storage)
    {
      var found := FindTask(tasks, taskId);
      if found.Some? {
        var i := found.value;
        tasks := tasks[i := tasks[i].(completed := !tasks[i].completed)];
        SaveUserData();
      }
    }

    /** `editTask`: `titleAnswer` and `deadlineAnswer` are the two prompt
        results, None for a cancelled prompt. */
    method EditTask(taskId: string, titleAnswer: Option<string>, deadlineAnswer: Option<string>)
      modifies this`tasks, storage`users
      ensures var e := Edit(old(tasks), taskId, titleAnswer, deadlineAnswer);
        (e.None? ==> tasks == old(tasks) && unchanged(storage))
        && (e.Some? ==> tasks == e.value && storage.users == WithUserTasks(old(storage.users), currentUser.id, tasks))
    {
      var found := FindTask(tasks, taskId);
      if found.None? {
        return;
      }
      var i := found.value;
      if titleAnswer.None? || titleAnswer.value == "" {
        return;
      }
      var task := tasks[i];
      task := task.(title := Trim(titleAnswer.value));
      if deadlineAnswer.Some? && deadlineAnswer.value != "" {
        task := task.(deadline := deadlineAnswer, notified := false);
      } else {
        task := task.(deadline := None, notified := false);
      }
      tasks := tasks[i := task];
      SaveUserData();
    }

    /** `deleteTask`: once confirmed, every task with that id goes and the
        list is saved. */
    method DeleteTask(taskId: string, confirmed: bool)
      modifies this`tasks, storage`users
      ensures confirmed ==>
        tasks == WithoutTask(old(tasks), taskId)
        && storage.users == WithUserTasks(old(storage.users), currentUser.id, tasks)
      ensures !confirmed ==> tasks == old(tasks) && unchanged(storage)
    {
      if confirmed {
        tasks := WithoutTask(tasks, taskId);
        SaveUserData();
      }
    }

    /** `clearCompletedTasks`: `cleared` is the number of completed tasks the
        confirmation names; with none, or without confirmation, nothing
        changes. */
    method ClearCompletedTasks(confirmed: bool) returns (cleared: nat)
      modifies this`tasks, storage`users
      ensures cleared == TaskStats(old(tasks)).completed
      ensures cleared == 0 || !confirmed ==> tasks == old(tasks) && unchanged(storage)
      ensures cleared > 0 && confirmed ==>
        tasks == FilterView(old(tasks), "pending")
        && |tasks| == |old(tasks)| - cleared
        && storage.users == WithUserTasks(old(storage.users), currentUser.id, tasks)
    {
      cleared := |FilterView(tasks, "completed")|;
      if cleared == 0 {
        return;
      }
      if confirmed {
        tasks := FilterView(tasks, "pending");
        SaveUserData();
      }
    }

    /** One run of the reminder checker at time `now`: every task that is
        due soon is marked as notified, in list order; `reminded` holds the
        positions of the tasks a reminder is shown for. The list is saved
        only when some task was marked. */
    method ReminderSweep(now: int, parseDate: string -> Option<int>) returns (reminded: seq<nat>)
      modifies this`tasks, storage`users
      ensures tasks == Swept(old(tasks), now, parseDate)
      ensures forall k :: 0 <= k < |old(tasks)| ==> (k in reminded <==> DueSoon(old(tasks)[k], now, parseDate))
      ensures forall k :: 0 <= k < |reminded| ==> reminded[k] < |old(tasks)|
      ensures forall i, j :: 0 <= i < j < |reminded| ==> reminded[i] < reminded[j]
      ensures reminded != [] ==> storage.users == WithUserTasks(old(storage.users), currentUser.id, tasks)
      ensures reminded == [] ==> tasks == old(tasks) && unchanged(storage)
    {
      ghost var before := tasks;
      var changed := false;
      reminded := [];
      var i := 0;
      while i < |tasks|
        invariant 0 <= i <= |tasks| == |before|
        invariant forall k :: 0 <= k < i ==> tasks[k] == MarkIfDue(before[k], now, parseDate)
        invariant forall k :: i <= k < |tasks| ==> tasks[k] == before[k]
        invariant forall k :: 0 <= k < |before| ==> (k in reminded <==> k < i && DueSoon(before[k], now, parseDate))
        invariant forall k :: 0 <= k < |reminded| ==> reminded[k] < i
        invariant forall a, b :: 0 <= a < b < |reminded| ==> reminded[a] < reminded[b]
        invariant changed <==> reminded != []
        invariant unchanged(storage)
      {
        var task := tasks[i];
        assert task == before[i];
        if task.deadline.Some? && task.deadline.value != "" && !task.completed && !task.notified {
          var due := parseDate(task.deadline.value);
          if due.Some? && 0 < due.value - now <= ReminderWindowMs {
            assert DueSoon(task, now, parseDate);
            tasks := tasks[i := task.(notified := true)];
            reminded := reminded + [i];
            changed := true;
          } else {
            assert !DueSoon(task, now, parseDate);
          }
        } else {
          assert !DueSoon(task, now, parseDate);
        }
        i := i + 1;
      }
      assert tasks == Swept(before, now, parseDate);
      if changed {
        SaveUserData();
      }
    }

    /** `handleProfileUpdate`: the trimmed name and email must be non-empty
        and the account must exist; a password change must pass
        `PasswordObjection`. An accepted submission rewrites the account and
        the name and email of the session record. */
    method HandleProfileUpdate(nameInput: string, emailInput: string, phoneInput: string, dob: string,
                               currentPassword: string, newPassword: string, confirm: string)
      returns (outcome: ProfileOutcome)
      modifies storage`users, storage`currentUser, this`currentUser
      ensures var name, email := Trim(nameInput), Trim(emailInput);
        var found := FindAccountById(old(storage.users), old(currentUser).id);
        if name == "" || email == "" then
          outcome == MissingNameOrEmail && unchanged(storage) && unchanged(this)
        else if found.None? then
          outcome == UserNotFound && unchanged(storage) && unchanged(this)
        else
          var user := old(storage.users)[found.value];
          match PasswordObjection(user.password, currentPassword, newPassword, confirm)
          case Some(objection) =>
            outcome == objection && unchanged(storage) && unchanged(this)
          case None =>
            outcome == ProfileUpdated
            && storage.users == old(storage.users)[found.value :=
                 ProfileApplied(user, name, email, Trim(phoneInput), dob, newPassword)]
            && currentUser == old(currentUser).(name := name, email := email)
            && storage.currentUser == Some(currentUser)
    {
      var name := Trim(nameInput);
      var email := Trim(emailInput);
      var phone := Trim(phoneInput);
      if name == "" || email == "" {
        return MissingNameOrEmail;
      }
      var found := FindAccountById(storage.users, currentUser.id);
      if found.None? {
        return UserNotFound;
      }
      var user := storage.users[found.value];
      if newPassword != "" {
        if currentPassword == "" {
          return CurrentPasswordRequired;
        }
        if user.password != currentPassword {
          return CurrentPasswordIncorrect;
        }
        if Utf16Length(newPassword) < 6 {
          return NewPasswordTooShort;
        }
        if newPassword != confirm {
          return NewPasswordsDiffer;
        }
        user := user.(password := newPassword);
      }
      user := user.(name := name, email := email, phone := Some(phone), dob := Some(dob));
      storage.users := storage.users[found.value := user];
      currentUser := currentUser.(name := name, email := email);
      storage.currentUser := Some(currentUser);
      outcome := ProfileUpdated;
    }

    /** `logout`: once confirmed, both session artifacts are removed; the
        directory and the list stay. */
    method Logout(confirmed: bool)
      modifies storage`currentUser, storage`authenticated
      ensures confirmed ==> storage.currentUser.None? && !storage.authenticated
      ensures !confirmed ==> unchanged(storage)
    {
      if confirmed {
        storage.currentUser := None;
        storage.authenticated := false;
      }
    }
  }
}
