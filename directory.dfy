/** The user directory and the session marker that both pages share through
    the browser's storage: the account records under "taskmaster_users", the
    password-free session record under "taskmaster_current_user" and the
    session-scoped "taskmaster_authenticated" flag. */
module Directory {
  import opened Collections
  import opened Tasks

  /** A user account. `phone` and `dob` are absent until the profile is
      first saved. Ids are creation timestamps and need not be unique. */
  datatype Account = Account(
    id: string,
    name: string,
    email: string,
    password: string,
    phone: Option<string>,
    dob: Option<string>,
    createdAt: string,
    tasks: seq<Task>)

  /** The session record: an account without its password and tasks. */
  datatype Session = Session(
    id: string,
    name: string,
    email: string,
    phone: string,
    dob: string,
    createdAt: string)

  /** The browser storage the two controllers share, as typed values. A
      directory that was never written reads as the empty list. */
  class Storage {
    var users: seq<Account>
    var currentUser: Option<Session>
    var authenticated: bool

    constructor(users: seq<Account>, currentUser: Option<Session>, authenticated: bool)
      ensures this.users == users && this.currentUser == currentUser && this.authenticated == authenticated
    {
      this.users := users;
      this.currentUser := currentUser;
      this.authenticated := authenticated;
    }
  }

  function OrEmpty(s: Option<string>): string {
    match s case Some(v) => v case None => ""
  }

  /** The session record of an account: id, name, email and creation time
      copied, a missing phone or birth date stored as "". */
  function SessionOf(a: Account): (r: Session)
    ensures r.id == a.id && r.name == a.name && r.email == a.email && r.createdAt == a.createdAt
    ensures r.phone == (if a.phone.Some? then a.phone.value else "")
    ensures r.dob == (if a.dob.Some? then a.dob.value else "")
  {
    Session(a.id, a.name, a.email, OrEmpty(a.phone), OrEmpty(a.dob), a.createdAt)
  }

  /** The session record keeps nothing of the password or the task list. */
  lemma SessionOmitsSecrets(a: Account, password: string, tasks: seq<Task>)
    ensures SessionOf(a.(password := password, tasks := tasks)) == SessionOf(a)
  {
  }

  /** `users.findIndex(u => u.id === id)`, None for -1. */
  function FindAccountById(users: seq<Account>, id: string): (r: Option<nat>)
    ensures r.Some? ==> r.value < |users| && users[r.value].id == id
    ensures r.Some? ==> forall k :: 0 <= k < r.value ==> users[k].id != id
    ensures r.None? <==> forall k :: 0 <= k < |users| ==> users[k].id != id
  {
    FirstIndex(users, (u: Account) => u.id == id)
  }

  /** `users.find(u => u.email === email)`, as a position. */
  function FindAccountByEmail(users: seq<Account>, email: string): (r: Option<nat>)
    ensures r.Some? ==> r.value < |users| && users[r.value].email == email
    ensures r.Some? ==> forall k :: 0 <= k < r.value ==> users[k].email != email
    ensures r.None? <==> forall k :: 0 <= k < |users| ==> users[k].email != email
  {
    FirstIndex(users, (u: Account) => u.email == email)
  }

  /** No two accounts share an email address. */
  ghost predicate DistinctEmails(users: seq<Account>) {
    forall i, j :: 0 <= i < j < |users| ==> users[i].email != users[j].email
  }

  /** Appending an account whose email is not yet taken keeps emails distinct. */
  lemma AppendKeepsEmailsDistinct(users: seq<Account>, a: Account)
    requires DistinctEmails(users)
    requires FindAccountByEmail(users, a.email).None?
    ensures DistinctEmails(users + [a])
  {
    var after := users + [a];
    forall i, j | 0 <= i < j < |after| ensures after[i].email != after[j].email {
      if j == |users| {
        assert after[i] == users[i];
      } else {
        assert after[i] == users[i] && after[j] == users[j];
      }
    }
  }

  /** The task list stored for user `id`, None when no account has that id. */
  function StoredTasks(users: seq<Account>, id: string): (r: Option<seq<Task>>)
    ensures r.None? <==> FindAccountById(users, id).None?
    ensures r.Some? ==> r.value == users[FindAccountById(users, id).value].tasks
  {
    match FindAccountById(users, id)
    case None => None
    case Some(i) => Some(users[i].tasks)
  }

  /** The directory after the task list of user `id` is written back: only
      the first account with that id changes, and only in its task list. */
  function WithUserTasks(users: seq<Account>, id: string, tasks: seq<Task>): (r: seq<Account>)
    ensures |r| == |users|
    ensures forall k :: 0 <= k < |r| ==> r[k] == users[k].(tasks := r[k].tasks)
    ensures forall k :: 0 <= k < |r| && FindAccountById(users, id) != Some(k) ==> r[k] == users[k]
    ensures FindAccountById(users, id).None? ==> r == users
  {
    match FindAccountById(users, id)
    case None => users
    case Some(i) => users[i := users[i].(tasks := tasks)]
  }

  /** Loading after saving gives back the saved list when the user exists,
      and there is still nothing to load when it does not. */
  lemma {:induction false} SaveThenLoad(users: seq<Account>, id: string, tasks: seq<Task>)
    ensures StoredTasks(WithUserTasks(users, id, tasks), id)
         == if FindAccountById(users, id).Some? then Some(tasks) else None
  {
    var after := WithUserTasks(users, id, tasks);
    var f, g := FindAccountById(users, id), FindAccountById(after, id);
    assert forall k :: 0 <= k < |users| ==> after[k].id == users[k].id;
    if f.Some? {
      assert g.Some?;
    }
  }

  /** The directory a first visit seeds: the one demo account with two tasks.
      The source stamps each record with the time it is built; one `createdAt`
      stands for all of them. */
  function DemoUsers(createdAt: string): (r: seq<Account>)
    ensures |r| == 1 && DistinctEmails(r)
    ensures r[0].email == "john@example.com" && r[0].password == "password123"
    ensures |r[0].tasks| == 2 && r[0].tasks[0].id != r[0].tasks[1].id
  {
    [ Account("demo1", "John Doe", "john@example.com", "password123", None, None, createdAt,
        [ Task("task1", "Complete project proposal", "work", true, false, createdAt, None, false),
          Task("task2", "Buy groceries", "personal", false, true, createdAt, None, false) ]) ]
  }
}
