/** The login page controller: form validation, sign-in against the stored
    directory, account creation, the session marker and the demo directory a
    first visit seeds. Form reading, error display, success toasts and
    redirects are the page's business; here the handlers take the submitted
    values and return the errors they would show. */
module Auth {
  import opened Collections
  import opened Text
  import opened Tasks
  import opened Directory

  /** A run of one or more characters that are neither whitespace nor '@':
      the class `[^\s@]+`. */
  predicate IsPlainRun(a: string) {
    |a| > 0 && forall k :: 0 <= k < |a| ==> !IsWhitespace(a[k]) && a[k] != '@'
  }

  /** The pattern `^[^\s@]+@[^\s@]+\.[^\s@]+$` matches `s` with its '@' at
      position `at` and the escaped '.' at position `dot`. */
  ghost predicate MatchesAt(s: string, at: nat, dot: nat) {
    at < dot < |s| && s[at] == '@' && s[dot] == '.'
    && IsPlainRun(s[..at]) && IsPlainRun(s[at + 1..dot]) && IsPlainRun(s[dot + 1..])
  }

  /** The pattern matches `s` in some way. */
  ghost predicate MatchesEmailPattern(s: string) {
    exists at: nat, dot: nat :: MatchesAt(s, at, dot)
  }

  /** `isValidEmail`, decided by one scan: no whitespace anywhere, an '@'
      with text before it and no second '@', and after it a '.' with text
      on both sides. */
  predicate IsValidEmail(email: string)
    ensures IsValidEmail(email) ==> |email| >= 5 && '@' in email && '.' in email
  {
    (forall k :: 0 <= k < |email| ==> !IsWhitespace(email[k]))
    && match IndexOf(email, '@')
       case None => false
       case Some(at) =>
         at > 0 && '@' !in email[at + 1..]
         && exists dot :: at + 1 < dot < |email| - 1 && email[dot] == '.'
  }

  /** A slice free of whitespace and '@' whose bounds leave it non-empty is a plain run. */
  lemma PlainSlice(s: string, i: nat, j: nat)
    requires i < j <= |s|
    requires forall k :: i <= k < j ==> !IsWhitespace(s[k]) && s[k] != '@'
    ensures IsPlainRun(s[i..j])
  {
    assert forall k :: 0 <= k < j - i ==> s[i..j][k] == s[i + k];
  }

  /** Every string the scan accepts matches the pattern. */
  lemma ValidEmailMatches(s: string)
    requires IsValidEmail(s)
    ensures MatchesEmailPattern(s)
  {
    var at := IndexOf(s, '@').value;
    var dot :| at + 1 < dot < |s| - 1 && s[dot] == '.';
    assert forall k :: 0 <= k < at ==> s[k] == s[..at][k];
    assert forall k :: at < k < |s| ==> s[k] == s[at + 1..][k - at - 1];
    PlainSlice(s, 0, at);
    PlainSlice(s, at + 1, dot);
    PlainSlice(s, dot + 1, |s|);
    assert s[0..at] == s[..at] && s[dot + 1..|s|] == s[dot + 1..];
    assert MatchesAt(s, at, dot);
  }

  /** Every string the pattern matches passes the scan. */
  lemma MatchingEmailValid(s: string)
    requires MatchesEmailPattern(s)
    ensures IsValidEmail(s)
  {
    var at: nat, dot: nat :| MatchesAt(s, at, dot);
    forall k | 0 <= k < |s| ensures !IsWhitespace(s[k]) && (k != at ==> s[k] != '@') {
      if k < at {
        assert s[k] == s[..at][k];
      } else if at < k < dot {
        assert s[k] == s[at + 1..dot][k - at - 1];
      } else if dot < k {
        assert s[k] == s[dot + 1..][k - dot - 1];
      }
    }
    assert forall k :: at < k < |s| ==> s[k] == s[at + 1..][k - at - 1];
    IndexOfAt(s, '@', at);
    assert at + 1 < dot < |s| - 1;
  }

  /** The scan accepts exactly the strings the regular expression matches. */
  lemma IsValidEmailMatchesPattern(s: string)
    ensures IsValidEmail(s) <==> MatchesEmailPattern(s)
  {
    if IsValidEmail(s) {
      ValidEmailMatches(s);
    }
    if MatchesEmailPattern(s) {
      MatchingEmailValid(s);
    }
  }

  /** The form fields an error message is written next to. */
  datatype Field = LoginEmail | LoginPassword | SignupName | SignupEmail | SignupPassword | ConfirmPassword
  {
    /** The id of the page element that shows the field's message. */
    function ElementId(): string {
      match this
      case LoginEmail => "loginEmailError"
      case LoginPassword => "loginPasswordError"
      case SignupName => "signupNameError"
      case SignupEmail => "signupEmailError"
      case SignupPassword => "signupPasswordError"
      case ConfirmPassword => "confirmPasswordError"
    }
  }

  /** Every message the two forms can show. */
  datatype AuthError =
    | LoginEmailRequired | LoginEmailInvalid | LoginNoAccount
    | LoginPasswordRequired | LoginWrongPassword
    | SignupNameTooShort | SignupEmailRequired | SignupEmailInvalid | SignupEmailTaken
    | SignupPasswordRequired | SignupPasswordTooShort
    | ConfirmRequired | ConfirmMismatch
  {
    function Field(): Field {
      match this
      case LoginEmailRequired | LoginEmailInvalid | LoginNoAccount => LoginEmail
      case LoginPasswordRequired | LoginWrongPassword => LoginPassword
      case SignupNameTooShort => SignupName
      case SignupEmailRequired | SignupEmailInvalid | SignupEmailTaken => SignupEmail
      case SignupPasswordRequired | SignupPasswordTooShort => SignupPassword
      case ConfirmRequired | ConfirmMismatch => ConfirmPassword
    }

    function Message(): string {
      match this
      case LoginEmailRequired => "Email is required"
      case LoginEmailInvalid => "Please enter a valid email address"
      case LoginNoAccount => "No account found with this email address"
      case LoginPasswordRequired => "Password is required"
      case LoginWrongPassword => "Incorrect password"
      case SignupNameTooShort => "Name must be at least 2 characters long"
      case SignupEmailRequired => "Email is required"
      case SignupEmailInvalid => "Please enter a valid email address"
      case SignupEmailTaken => "An account with this email already exists"
      case SignupPasswordRequired => "Password is required"
      case SignupPasswordTooShort => "Password must be at least 6 characters long"
      case ConfirmRequired => "Please confirm your password"
      case ConfirmMismatch => "Passwords do not match"
    }
  }

  /** Each field shows at most one message. */
  predicate OneErrorPerField(errors: seq<AuthError>) {
    forall i, j :: 0 <= i < j < |errors| ==> errors[i].Field() != errors[j].Field()
  }

  /** The login form passes validation: a well-formed email and a non-empty password. */
  predicate LoginFieldsValid(email: string, password: string) {
    IsValidEmail(email) && password != ""
  }

  /** The sign-up form passes validation: a name of at least 2 and a password
      of at least 6 UTF-16 code units, a well-formed email, and a
      confirmation equal to the password. */
  predicate SignupFieldsValid(name: string, email: string, password: string, confirm: string) {
    Utf16Length(name) >= 2 && IsValidEmail(email) && Utf16Length(password) >= 6 && confirm == password
  }

  /** What login validation reports: one message per rule broken, and none
      exactly when the fields are valid. */
  predicate LoginReport(email: string, password: string, errors: seq<AuthError>) {
    (errors == [] <==> LoginFieldsValid(email, password))
    && (LoginEmailRequired in errors <==> email == "")
    && (LoginEmailInvalid in errors <==> email != "" && !IsValidEmail(email))
    && (LoginPasswordRequired in errors <==> password == "")
    && (forall k :: 0 <= k < |errors| ==>
          errors[k] in {LoginEmailRequired, LoginEmailInvalid, LoginPasswordRequired})
    && OneErrorPerField(errors)
  }

  /** What sign-up validation reports: one message per rule broken, and none
      exactly when the fields are valid. */
  predicate SignupReport(name: string, email: string, password: string, confirm: string, errors: seq<AuthError>) {
    (errors == [] <==> SignupFieldsValid(name, email, password, confirm))
    && (SignupNameTooShort in errors <==> Utf16Length(name) < 2)
    && (SignupEmailRequired in errors <==> email == "")
    && (SignupEmailInvalid in errors <==> email != "" && !IsValidEmail(email))
    && (SignupPasswordRequired in errors <==> password == "")
    && (SignupPasswordTooShort in errors <==> password != "" && Utf16Length(password) < 6)
    && (ConfirmRequired in errors <==> confirm == "")
    && (ConfirmMismatch in errors <==> confirm != "" && password != confirm)
    && FromSignupChecks(errors)
    && OneErrorPerField(errors)
  }

  /** Only messages of the seven sign-up checks, none of the later outcomes. */
  predicate FromSignupChecks(errors: seq<AuthError>) {
    forall k :: 0 <= k < |errors| ==>
      errors[k] in {SignupNameTooShort, SignupEmailRequired, SignupEmailInvalid,
                    SignupPasswordRequired, SignupPasswordTooShort, ConfirmRequired, ConfirmMismatch}
  }

  lemma {:induction false} ChecksJoin(n: seq<AuthError>, e: seq<AuthError>, p: seq<AuthError>, c: seq<AuthError>)
    requires FromSignupChecks(n) && FromSignupChecks(e) && FromSignupChecks(p) && FromSignupChecks(c)
    ensures FromSignupChecks(n + e + p + c)
  {
    var all := n + e + p + c;
    var a, b, d := |n|, |n| + |e|, |n| + |e| + |p|;
    forall k | 0 <= k < |all|
      ensures all[k] in {SignupNameTooShort, SignupEmailRequired, SignupEmailInvalid,
                         SignupPasswordRequired, SignupPasswordTooShort, ConfirmRequired, ConfirmMismatch}
    {
      if k < a {
        assert all[k] == n[k];
      } else if k < b {
        assert all[k] == e[k - a];
      } else if k < d {
        assert all[k] == p[k - b];
      } else {
        assert all[k] == c[k - d];
      }
    }
  }

  /** At most one error, and only errors of field `f`. */
  predicate OnlyFor(piece: seq<AuthError>, f: Field) {
    |piece| <= 1 && forall k :: 0 <= k < |piece| ==> piece[k].Field() == f
  }

  /** Reports for four different fields, put together, show one message per field. */
  lemma FourFields(n: seq<AuthError>, e: seq<AuthError>, p: seq<AuthError>, c: seq<AuthError>)
    requires OnlyFor(n, SignupName) && OnlyFor(e, SignupEmail)
    requires OnlyFor(p, SignupPassword) && OnlyFor(c, ConfirmPassword)
    ensures OneErrorPerField(n + e + p + c)
  {
    var all := n + e + p + c;
    var a, b, d := |n|, |n| + |e|, |n| + |e| + |p|;
    forall k | 0 <= k < |all|
      ensures all[k].Field() == if k < a then SignupName else if k < b then SignupEmail
                                else if k < d then SignupPassword else ConfirmPassword
    {
      if k < a {
        assert all[k] == n[k];
      } else if k < b {
        assert all[k] == e[k - a];
      } else if k < d {
        assert all[k] == p[k - b];
      } else {
        assert all[k] == c[k - d];
      }
    }
  }

  /** The sign-up report for the outcomes of the seven checks, each a
      plain boolean. */
  lemma SignupMembers(nameShort: bool, emailEmpty: bool, emailBad: bool, passwordEmpty: bool,
                      passwordShort: bool, confirmEmpty: bool, mismatch: bool,
                      n: seq<AuthError>, e: seq<AuthError>, p: seq<AuthError>, c: seq<AuthError>)
    requires n == if nameShort then [SignupNameTooShort] else []
    requires e == if emailEmpty then [SignupEmailRequired] else if emailBad then [SignupEmailInvalid] else []
    requires p == if passwordEmpty then [SignupPasswordRequired]
                  else if passwordShort then [SignupPasswordTooShort] else []
    requires c == if confirmEmpty then [ConfirmRequired] else if mismatch then [ConfirmMismatch] else []
    ensures SignupNameTooShort in n + e + p + c <==> nameShort
    ensures SignupEmailRequired in n + e + p + c <==> emailEmpty
    ensures SignupEmailInvalid in n + e + p + c <==> !emailEmpty && emailBad
    ensures SignupPasswordRequired in n + e + p + c <==> passwordEmpty
    ensures SignupPasswordTooShort in n + e + p + c <==> !passwordEmpty && passwordShort
    ensures ConfirmRequired in n + e + p + c <==> confirmEmpty
    ensures ConfirmMismatch in n + e + p + c <==> !confirmEmpty && mismatch
  {
    InPieces(SignupNameTooShort, n, e, p, c);
    InPieces(SignupEmailRequired, n, e, p, c);
    InPieces(SignupEmailInvalid, n, e, p, c);
    InPieces(SignupPasswordRequired, n, e, p, c);
    InPieces(SignupPasswordTooShort, n, e, p, c);
    InPieces(ConfirmRequired, n, e, p, c);
    InPieces(ConfirmMismatch, n, e, p, c);
  }

  lemma InPieces(x: AuthError, n: seq<AuthError>, e: seq<AuthError>, p: seq<AuthError>, c: seq<AuthError>)
    ensures x in n + e + p + c <==> x in n || x in e || x in p || x in c
  {
    assert n + e + p + c == n + (e + (p + c));
  }

  /** The seven checks put together report nothing exactly when every check passes. */
  lemma SignupNone(nameShort: bool, emailEmpty: bool, emailBad: bool, passwordEmpty: bool,
                   passwordShort: bool, confirmEmpty: bool, mismatch: bool,
                   n: seq<AuthError>, e: seq<AuthError>, p: seq<AuthError>, c: seq<AuthError>)
    requires n == if nameShort then [SignupNameTooShort] else []
    requires e == if emailEmpty then [SignupEmailRequired] else if emailBad then [SignupEmailInvalid] else []
    requires p == if passwordEmpty then [SignupPasswordRequired]
                  else if passwordShort then [SignupPasswordTooShort] else []
    requires c == if confirmEmpty then [ConfirmRequired] else if mismatch then [ConfirmMismatch] else []
    ensures n + e + p + c == [] <==>
      !nameShort && !emailEmpty && !emailBad && !passwordEmpty && !passwordShort && !confirmEmpty && !mismatch
  {
    assert |n + e + p + c| == |n| + |e| + |p| + |c|;
  }

  /** The seven checks put together give one message per field, each from a check. */
  lemma SignupShape(nameShort: bool, emailEmpty: bool, emailBad: bool, passwordEmpty: bool,
                    passwordShort: bool, confirmEmpty: bool, mismatch: bool,
                    n: seq<AuthError>, e: seq<AuthError>, p: seq<AuthError>, c: seq<AuthError>)
    requires n == if nameShort then [SignupNameTooShort] else []
    requires e == if emailEmpty then [SignupEmailRequired] else if emailBad then [SignupEmailInvalid] else []
    requires p == if passwordEmpty then [SignupPasswordRequired]
                  else if passwordShort then [SignupPasswordTooShort] else []
    requires c == if confirmEmpty then [ConfirmRequired] else if mismatch then [ConfirmMismatch] else []
    ensures FromSignupChecks(n + e + p + c) && OneErrorPerField(n + e + p + c)
  {
    assert OnlyFor(n, SignupName) && OnlyFor(e, SignupEmail);
    assert OnlyFor(p, SignupPassword) && OnlyFor(c, ConfirmPassword);
    FourFields(n, e, p, c);
    assert FromSignupChecks(n) && FromSignupChecks(e) && FromSignupChecks(p) && FromSignupChecks(c);
    ChecksJoin(n, e, p, c);
  }

  /** The sign-up report is the four per-field reports in form order. */
  lemma SignupReportOf(name: string, email: string, password: string, confirm: string,
                       n: seq<AuthError>, e: seq<AuthError>, p: seq<AuthError>, c: seq<AuthError>)
    requires n == if Utf16Length(name) < 2 then [SignupNameTooShort] else []
    requires e == if email == "" then [SignupEmailRequired]
                  else if !IsValidEmail(email) then [SignupEmailInvalid] else []
    requires p == if password == "" then [SignupPasswordRequired]
                  else if Utf16Length(password) < 6 then [SignupPasswordTooShort] else []
    requires c == if confirm == "" then [ConfirmRequired]
                  else if password != confirm then [ConfirmMismatch] else []
    ensures SignupReport(name, email, password, confirm, n + e + p + c)
  {
    var nameShort, emailEmpty, emailBad := Utf16Length(name) < 2, email == "", !IsValidEmail(email);
    var passwordEmpty, passwordShort := password == "", Utf16Length(password) < 6;
    var confirmEmpty, mismatch := confirm == "", password != confirm;
    assert emailEmpty ==> emailBad;
    assert passwordEmpty ==> passwordShort;
    assert SignupFieldsValid(name, email, password, confirm) <==>
      !nameShort && !emailBad && !passwordShort && !mismatch;
    SignupMembers(nameShort, emailEmpty, emailBad, passwordEmpty, passwordShort, confirmEmpty, mismatch, n, e, p, c);
    SignupNone(nameShort, emailEmpty, emailBad, passwordEmpty, passwordShort, confirmEmpty, mismatch, n, e, p, c);
    SignupShape(nameShort, emailEmpty, emailBad, passwordEmpty, passwordShort, confirmEmpty, mismatch, n, e, p, c);
  }

  /** The account `handleSignup` creates: no phone or birth date yet, no tasks. */
  function NewAccount(id: string, name: string, email: string, password: string, createdAt: string): (a: Account)
    ensures a.tasks == [] && a.phone.None? && a.dob.None?
  {
    Account(id, name, email, password, None, None, createdAt, [])
  }

  class AuthSystem {
    const storage: Storage

    constructor(storage: Storage)
      ensures this.storage == storage
    {
      this.storage := storage;
    }

    /** `validateLogin`: checks the trimmed email and the password. */
    method ValidateLogin(email: string, password: string) returns (isValid: bool, errors: seq<AuthError>)
      ensures isValid <==> LoginFieldsValid(email, password)
      ensures LoginReport(email, password, errors)
    {
      isValid := true;
      errors := [];
      if email == "" {
        errors := errors + [LoginEmailRequired];
        isValid := false;
      } else if !IsValidEmail(email) {
        errors := errors + [LoginEmailInvalid];
        isValid := false;
      }
      if password == "" {
        errors := errors + [LoginPasswordRequired];
        isValid := false;
      }
    }

    /** `validateSignup`: checks the trimmed name and email, the password and its confirmation. */
    method ValidateSignup(name: string, email: string, password: string, confirm: string)
      returns (isValid: bool, errors: seq<AuthError>)
      ensures isValid <==> SignupFieldsValid(name, email, password, confirm)
      ensures SignupReport(name, email, password, confirm, errors)
    {
      isValid := true;
      errors := [];
      ghost var n, e, p, c: seq<AuthError> := [], [], [], [];
      if name == "" || Utf16Length(name) < 2 {
        errors := errors + [SignupNameTooShort];
        n := [SignupNameTooShort];
        isValid := false;
      }
      assert errors == n && (isValid <==> errors == []);
      if email == "" {
        errors := errors + [SignupEmailRequired];
        e := [SignupEmailRequired];
        isValid := false;
      } else if !IsValidEmail(email) {
        errors := errors + [SignupEmailInvalid];
        e := [SignupEmailInvalid];
        isValid := false;
      }
      assert errors == n + e && (isValid <==> errors == []);
      if password == "" {
        errors := errors + [SignupPasswordRequired];
        p := [SignupPasswordRequired];
        isValid := false;
      } else if Utf16Length(password) < 6 {
        errors := errors + [SignupPasswordTooShort];
        p := [SignupPasswordTooShort];
        isValid := false;
      }
      assert errors == n + e + p && (isValid <==> errors == []);
      if confirm == "" {
        errors := errors + [ConfirmRequired];
        c := [ConfirmRequired];
        isValid := false;
      } else if password != confirm {
        errors := errors + [ConfirmMismatch];
        c := [ConfirmMismatch];
        isValid := false;
      }
      assert errors == n + e + p + c;
      SignupReportOf(name, email, password, confirm, n, e, p, c);
    }

    /** `handleLogin`: validation, then the first account with the trimmed
        email, then an exact comparison with the untrimmed password. Only a
        full success writes the session marker. */
    method HandleLogin(emailInput: string, password: string) returns (errors: seq<AuthError>)
      modifies storage`currentUser, storage`authenticated
      ensures var email := Trim(emailInput);
              var found := FindAccountByEmail(storage.users, email);
              if !LoginFieldsValid(email, password) then
                LoginReport(email, password, errors) && unchanged(storage)
              else if found.None? then
                errors == [LoginNoAccount] && unchanged(storage)
              else if storage.users[found.value].password != password then
                errors == [LoginWrongPassword] && unchanged(storage)
              else
                errors == [] && storage.currentUser == Some(SessionOf(storage.users[found.value]))
                && storage.authenticated
    {
      var email := Trim(emailInput);
      var isValid;
      isValid, errors := ValidateLogin(email, password);
      if !isValid {
        return;
      }
      var found := FindAccountByEmail(storage.users, email);
      if found.None? {
        errors := [LoginNoAccount];
        return;
      }
      var user := storage.users[found.value];
      if user.password != password {
        errors := [LoginWrongPassword];
        return;
      }
      SetCurrentUser(user);
    }

    /** `handleSignup`: validation, then the duplicate-email check, then the
        new account appended to the directory and signed in. `id` and
        `createdAt` are the clock readings the source takes. */
    method HandleSignup(nameInput: string, emailInput: string, password: string, confirm: string,
                        id: string, createdAt: string) returns (errors: seq<AuthError>)
      modifies storage`users, storage`currentUser, storage`authenticated
      ensures var name, email := Trim(nameInput), Trim(emailInput);
              if !SignupFieldsValid(name, email, password, confirm) then
                SignupReport(name, email, password, confirm, errors) && unchanged(storage)
              else if FindAccountByEmail(old(storage.users), email).Some? then
                errors == [SignupEmailTaken] && unchanged(storage)
              else
                var a := NewAccount(id, name, email, password, createdAt);
                errors == [] && storage.users == old(storage.users) + [a]
                && storage.currentUser == Some(SessionOf(a)) && storage.authenticated
      ensures DistinctEmails(old(storage.users)) ==> DistinctEmails(storage.users)
    {
      var name := Trim(nameInput);
      var email := Trim(emailInput);
      var isValid;
      isValid, errors := ValidateSignup(name, email, password, confirm);
      if !isValid {
        return;
      }
      if FindAccountByEmail(storage.users, email).Some? {
        errors := [SignupEmailTaken];
        return;
      }
      var a := NewAccount(id, name, email, password, createdAt);
      if DistinctEmails(storage.users) {
        AppendKeepsEmailsDistinct(storage.users, a);
      }
      storage.users := storage.users + [a];
      SetCurrentUser(a);
    }

    /** `setCurrentUser`: stores the password-free session record and sets the flag. */
    method SetCurrentUser(user: Account)
      modifies storage`currentUser, storage`authenticated
      ensures storage.currentUser == Some(SessionOf(user)) && storage.authenticated
      ensures GetCurrentUser() == Some(SessionOf(user))
    {
      storage.currentUser := Some(SessionOf(user));
      storage.authenticated := true;
    }

    /** `getCurrentUser`: the session record, only while both the record and
        the flag are present. */
    function GetCurrentUser(): (r: Option<Session>)
      reads storage
      ensures r.Some? <==> storage.currentUser.Some? && storage.authenticated
      ensures r.Some? ==> r == storage.currentUser
    {
      if storage.authenticated then storage.currentUser else None
    }

    /** `logout`: removes the session record and the flag; the directory stays. */
    method Logout()
      modifies storage`currentUser, storage`authenticated
      ensures storage.currentUser.None? && !storage.authenticated
      ensures GetCurrentUser().None?
    {
      storage.currentUser := None;
      storage.authenticated := false;
    }
  }

  /** The first-visit script: an empty directory is replaced by the demo one;
      a non-empty one is left alone. */
  method SeedDemoUsers(storage: Storage, createdAt: string)
    modifies storage`users
    ensures old(storage.users) == [] ==> storage.users == DemoUsers(createdAt)
    ensures old(storage.users) != [] ==> storage.users == old(storage.users)
  {
    if |storage.users| == 0 {
      storage.users := DemoUsers(createdAt);
    }
  }

  /** The demo credentials pass validation and sign in as the demo account. */
  lemma DemoLogin(createdAt: string)
    ensures LoginFieldsValid("john@example.com", "password123")
    ensures FindAccountByEmail(DemoUsers(createdAt), "john@example.com") == Some(0)
    ensures DemoUsers(createdAt)[0].password == "password123"
  {
    DemoEmailMatches();
    MatchingEmailValid("john@example.com");
  }

  /** The demo address splits as "john" @ "example" . "com". */
  lemma DemoEmailMatches()
    ensures MatchesEmailPattern("john@example.com")
  {
    var s := "john@example.com";
    assert s[..4] == "john" && s[5..12] == "example" && s[13..] == "com";
    assert IsPlainRun("john") && IsPlainRun("example") && IsPlainRun("com");
    assert MatchesAt(s, 4, 12);
  }
}
