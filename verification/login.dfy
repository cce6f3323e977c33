/**
 * The login form's schema: two minimum-length rules, each with its own
 * message. Lengths are counted in characters.
 */
module LoginValidator {

  const USERNAME_MIN: nat := 6
  const PASSWORD_MIN: nat := 3
  const USERNAME_MESSAGE: string := "Username must be at least 6 characters."
  const PASSWORD_MESSAGE: string := "Password must be at least 3 characters."

  datatype Field = Username | Password

  /** One reported problem: the field it is about and its message. */
  datatype Issue = Issue(path: Field, message: string)

  datatype Credentials = Credentials(username: string, password: string)

  /** `z.string().min(min, { message })` on one field. */
  function MinLength(path: Field, s: string, min: nat, message: string): (issues: seq<Issue>)
    ensures issues == [] <==> |s| >= min
    ensures issues != [] ==> issues == [Issue(path, message)]
  {
    if |s| >= min then [] else [Issue(path, message)]
  }

  /** The issues for `username`. */
  function UsernameIssues(username: string): seq<Issue> {
    MinLength(Username, username, USERNAME_MIN, USERNAME_MESSAGE)
  }

  /** The issues for `password`. */
  function PasswordIssues(password: string): seq<Issue> {
    MinLength(Password, password, PASSWORD_MIN, PASSWORD_MESSAGE)
  }

  /** The object schema: every field is checked, issues in field order. */
  function Validate(c: Credentials): (issues: seq<Issue>)
    ensures issues == [] <==> |c.username| >= 6 && |c.password| >= 3
    ensures Issue(Username, USERNAME_MESSAGE) in issues <==> |c.username| < 6
    ensures Issue(Password, PASSWORD_MESSAGE) in issues <==> |c.password| < 3
    ensures forall i :: 0 <= i < |issues| ==>
              issues[i] == Issue(Username, USERNAME_MESSAGE) || issues[i] == Issue(Password, PASSWORD_MESSAGE)
  {
    UsernameIssues(c.username) + PasswordIssues(c.password)
  }

  /** The issues reported about one field. */
  function IssuesAbout(issues: seq<Issue>, path: Field): (r: seq<Issue>)
    ensures forall i :: 0 <= i < |r| ==> r[i].path == path && r[i] in issues
  {
    if issues == [] then []
    else (if issues[0].path == path then [issues[0]] else []) + IssuesAbout(issues[1..], path)
  }

  /**
   * What is reported about each field depends on that field alone: it is
   * exactly that field's own check.
   */
  lemma FieldsIndependent(c: Credentials)
    ensures IssuesAbout(Validate(c), Username) == UsernameIssues(c.username)
    ensures IssuesAbout(Validate(c), Password) == PasswordIssues(c.password)
  {
    var u, p := UsernameIssues(c.username), PasswordIssues(c.password);
    IssuesAboutAppend(u, p, Username);
    IssuesAboutAppend(u, p, Password);
    assert IssuesAbout(u, Username) == u && IssuesAbout(u, Password) == [];
    assert IssuesAbout(p, Username) == [] && IssuesAbout(p, Password) == p;
  }

  /** Selecting one field's issues distributes over concatenation. */
  lemma {:induction false} IssuesAboutAppend(a: seq<Issue>, b: seq<Issue>, path: Field)
    ensures IssuesAbout(a + b, path) == IssuesAbout(a, path) + IssuesAbout(b, path)
  {
    if a != [] {
      assert (a + b)[0] == a[0];
      assert (a + b)[1..] == a[1..] + b;
      IssuesAboutAppend(a[1..], b, path);
      var head := if a[0].path == path then [a[0]] else [];
      assert IssuesAbout(a + b, path) == head + IssuesAbout(a[1..] + b, path);
      assert IssuesAbout(a, path) == head + IssuesAbout(a[1..], path);
    } else {
      assert a + b == b;
    }
  }

  /** Changing the password never changes what is said about the username, and back. */
  lemma ChangingOneFieldKeepsTheOther(c: Credentials, username: string, password: string)
    ensures IssuesAbout(Validate(c.(password := password)), Username) == IssuesAbout(Validate(c), Username)
    ensures IssuesAbout(Validate(c.(username := username)), Password) == IssuesAbout(Validate(c), Password)
  {
    FieldsIndependent(c);
    FieldsIndependent(c.(password := password));
    FieldsIndependent(c.(username := username));
  }
}
