/**
 * The login page: an identifier containing '@' is first looked up as an
 * employee e-mail and replaced by that employee's username; authentication
 * itself is a parameter.
 */
module LoginView {
  import opened Outcomes
  import EmployeeViews

  const InvalidCredentials := "Usuário ou senha inválidos!"

  /** The result of the username-or-e-mail lookup; `Ambiguous` is the uncaught error of a lookup matching several rows. */
  datatype Resolution = Resolved(username: string) | Ambiguous

  /** The ids of the employees whose e-mail is exactly `email`. */
  function MatchingIds(m: map<nat, EmployeeViews.Employee>, email: string): (ids: set<nat>)
    ensures forall id :: id in ids <==> id in m && m[id].email == email
  {
    set id | id in m && m[id].email == email
  }

  /** A set with one element holds nothing else. */
  lemma SingletonHasOneElement(s: set<nat>, a: nat, b: nat)
    requires |s| == 1 && a in s && b in s
    ensures a == b
  {
    if a != b {
      assert {a, b} <= s;
      assert |{a, b}| == 2;
      SubsetCardinality({a, b}, s);
    }
  }

  lemma SubsetCardinality(a: set<nat>, b: set<nat>)
    requires a <= b
    ensures |a| <= |b|
  {
    assert b == a + (b - a);
  }

  /** The username handed to authentication for what was typed in the identifier box. */
  function Resolve(input: string, m: map<nat, EmployeeViews.Employee>): (r: Resolution)
    ensures '@' !in input ==> r == Resolved(input)
    ensures r.Ambiguous? <==> '@' in input && |MatchingIds(m, input)| > 1
    ensures r.Resolved? && r.username != input ==>
      exists id :: id in m && m[id].email == input && m[id].username == r.username
  {
    if '@' !in input then Resolved(input)
    else
      var ids := MatchingIds(m, input);
      if ids == {} then Resolved(input)
      else if |ids| > 1 then Ambiguous
      else
        var id :| id in ids;
        assert forall a, b :: a in ids && b in ids ==> a == b by {
          forall a, b | a in ids && b in ids ensures a == b {
            SingletonHasOneElement(ids, a, b);
          }
        }
        Resolved(m[id].username)
  }

  /** An e-mail held by exactly one employee resolves to that employee's username. */
  lemma ResolveByEmail(input: string, m: map<nat, EmployeeViews.Employee>, id: nat)
    requires '@' in input && id in m && m[id].email == input
    requires forall other :: other in m && other != id ==> m[other].email != input
    ensures Resolve(input, m) == Resolved(m[id].username)
  {
    var ids := MatchingIds(m, input);
    assert ids == {id};
  }

  /** An e-mail no employee holds is passed on as typed. */
  lemma ResolveUnknownEmail(input: string, m: map<nat, EmployeeViews.Employee>)
    requires forall id :: id in m ==> m[id].email != input
    ensures Resolve(input, m) == Resolved(input)
  {
    assert MatchingIds(m, input) == {};
  }

  datatype Page =
    | RedirectTo(target: string)
    | LoginForm(error: Option<string>)
    | ServerError

  /** The typed name resolves to a single account and `authenticate` accepts it with the password. */
  predicate Authenticated(
    username: Option<string>, password: Option<string>,
    m: map<nat, EmployeeViews.Employee>, authenticate: (string, Option<string>) -> bool)
  {
    username.Some? && Resolve(username.value, m).Resolved?
    && authenticate(Resolve(username.value, m).username, password)
  }

  /**
   * `login_view`. `username`, `password` and `next` are the request's
   * parameters when present; `authenticate` says whether a username and
   * password identify an active account.
   */
  function Login(
    signedIn: bool, isPost: bool,
    username: Option<string>, password: Option<string>, next: Option<string>,
    m: map<nat, EmployeeViews.Employee>, authenticate: (string, Option<string>) -> bool): (p: Page)
    ensures signedIn ==> p == RedirectTo("home")
    ensures p.RedirectTo? <==> signedIn || (isPost && Authenticated(username, password, m, authenticate))
    ensures p.RedirectTo? && !signedIn ==> p.target == (if next.Some? then next.value else "home")
    ensures p == ServerError <==>
      !signedIn && isPost && (username.None? || Resolve(username.value, m).Ambiguous?)
    ensures p == LoginForm(None) <==> !signedIn && !isPost
    ensures p == LoginForm(Some(InvalidCredentials)) <==>
      !signedIn && isPost && username.Some? && Resolve(username.value, m).Resolved?
      && !authenticate(Resolve(username.value, m).username, password)
  {
    if signedIn then RedirectTo("home")
    else if !isPost then LoginForm(None)
    else if username.None? then ServerError
    else
      match Resolve(username.value, m)
      case Ambiguous => ServerError
      case Resolved(name) =>
        if authenticate(name, password) then
          RedirectTo(if next.Some? then next.value else "home")
        else
          LoginForm(Some(InvalidCredentials))
  }

  /** Signing in with an e-mail held by exactly one employee is signing in with that employee's username. */
  lemma EmailLoginIsUsernameLogin(
    isPost: bool, email: string, password: Option<string>, next: Option<string>,
    m: map<nat, EmployeeViews.Employee>, authenticate: (string, Option<string>) -> bool, id: nat)
    requires '@' in email && id in m && m[id].email == email && '@' !in m[id].username
    requires forall other :: other in m && other != id ==> m[other].email != email
    ensures Login(false, isPost, Some(email), password, next, m, authenticate)
         == Login(false, isPost, Some(m[id].username), password, next, m, authenticate)
  {
    ResolveByEmail(email, m, id);
  }
}
