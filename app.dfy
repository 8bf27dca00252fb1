/**
 * The `App` component's state and its event handlers, each handler one atomic
 * transition over the component's state fields.
 */
module AppState {
  import opened Wrappers
  import opened Text
  import opened Items
  import opened Directory

  /** The value of `currentPage`. */
  datatype Page = LoginPage | RegisterPage | DashboardPage

  class App {
    var users: Users
    var currentUser: Option<string>
    var currentPage: Page
    var usernameInput: string
    var passwordInput: string
    var confirmPasswordInput: string
    var newItemText: string

    /**
     * The session always names an existing account, and the dashboard is only
     * ever shown to a logged-in user.
     */
    ghost predicate Valid()
      reads this
    {
      && (currentUser.Some? ==> currentUser.value in users)
      && (currentPage == DashboardPage ==> currentUser.Some?)
    }

    /** The first render: `users` comes from storage, nobody is logged in, the login page shows. */
    constructor (storedUsers: Users)
      ensures Valid()
      ensures users == storedUsers && currentUser == None && currentPage == LoginPage
      ensures usernameInput == [] && passwordInput == [] && confirmPasswordInput == [] && newItemText == []
    {
      users := storedUsers;
      currentUser := None;
      currentPage := LoginPage;
      usernameInput, passwordInput, confirmPasswordInput := [], [], [];
      newItemText := [];
    }

    /**
     * The mount effect: adopts the stored username, and shows the dashboard,
     * only when it names an account; otherwise nothing changes.
     */
    method RestoreSession(stored: Option<string>)
      requires Valid()
      modifies this
      ensures Valid()
      ensures users == old(users)
      ensures stored.Some? && stored.value != [] && stored.value in users ==>
        currentUser == stored && currentPage == DashboardPage
      ensures !(stored.Some? && stored.value != [] && stored.value in users) ==>
        currentUser == old(currentUser) && currentPage == old(currentPage)
      ensures usernameInput == old(usernameInput) && passwordInput == old(passwordInput)
      ensures confirmPasswordInput == old(confirmPasswordInput) && newItemText == old(newItemText)
    {
      var restored := RestoredUser(users, stored);
      if restored.Some? {
        currentUser := restored;
        currentPage := DashboardPage;
      }
    }

    /**
     * The register form: on success the new account is added, the login page
     * shows and the three inputs are cleared; on any rejection nothing changes.
     */
    method HandleRegister() returns (outcome: Outcome<RegisterError>)
      requires Valid()
      modifies this
      ensures Valid()
      ensures var r := Register(old(users), old(usernameInput), old(passwordInput), old(confirmPasswordInput));
        && (r.Ok? ==>
          && outcome == Pass
          && users == r.value
          && currentPage == LoginPage
          && usernameInput == [] && passwordInput == [] && confirmPasswordInput == [])
        && (r.Err? ==>
          && outcome == Fail(r.error)
          && users == old(users) && currentPage == old(currentPage)
          && usernameInput == old(usernameInput) && passwordInput == old(passwordInput)
          && confirmPasswordInput == old(confirmPasswordInput))
      ensures currentUser == old(currentUser) && newItemText == old(newItemText)
    {
      var r := Register(users, usernameInput, passwordInput, confirmPasswordInput);
      match r
      case Err(e) =>
        outcome := Fail(e);
      case Ok(updated) =>
        users := updated;
        currentPage := LoginPage;
        usernameInput, passwordInput, confirmPasswordInput := [], [], [];
        outcome := Pass;
    }

    /**
     * The login form: on success the user becomes current, the dashboard shows
     * and the two inputs are cleared; on a rejection nothing changes.
     */
    method HandleLogin() returns (outcome: Outcome<LoginError>)
      requires Valid()
      modifies this
      ensures Valid()
      ensures users == old(users)
      ensures var r := Login(old(users), old(usernameInput), old(passwordInput));
        && (r.Ok? ==>
          && outcome == Pass
          && currentUser == Some(old(usernameInput))
          && currentPage == DashboardPage
          && usernameInput == [] && passwordInput == [])
        && (r.Err? ==>
          && outcome == Fail(r.error)
          && currentUser == old(currentUser) && currentPage == old(currentPage)
          && usernameInput == old(usernameInput) && passwordInput == old(passwordInput))
      ensures confirmPasswordInput == old(confirmPasswordInput) && newItemText == old(newItemText)
    {
      var r := Login(users, usernameInput, passwordInput);
      match r
      case Err(e) =>
        outcome := Fail(e);
      case Ok(name) =>
        currentUser := Some(name);
        currentPage := DashboardPage;
        usernameInput, passwordInput := [], [];
        outcome := Pass;
    }

    /** Logout: ends the session, shows the login page and clears the item input. */
    method HandleLogout()
      requires Valid()
      modifies this
      ensures Valid()
      ensures currentUser == None && currentPage == LoginPage && newItemText == []
      ensures users == old(users)
      ensures usernameInput == old(usernameInput) && passwordInput == old(passwordInput)
      ensures confirmPasswordInput == old(confirmPasswordInput)
    {
      currentUser := None;
      currentPage := LoginPage;
      newItemText := [];
    }

    /**
     * The add-item form: a no-op when the trimmed input is empty or nobody is
     * logged in; otherwise the current user's list gains one item `{id, trimmed
     * text}` at its end, no other account changes and the input is cleared.
     */
    method HandleAddItem(id: int)
      requires Valid()
      modifies this
      ensures Valid()
      ensures AllWhitespace(old(newItemText)) || old(currentUser).None? ==>
        users == old(users) && newItemText == old(newItemText)
      ensures !AllWhitespace(old(newItemText)) && old(currentUser).Some? ==>
        var name := old(currentUser).value;
        && newItemText == []
        && users.Keys == old(users).Keys
        && users[name].password == old(users)[name].password
        && users[name].items == old(users)[name].items + [Item(id, Trim(old(newItemText)))]
        && forall u :: u in old(users) && u != name ==> users[u] == old(users)[u]
      ensures currentUser == old(currentUser) && currentPage == old(currentPage)
      ensures usernameInput == old(usernameInput) && passwordInput == old(passwordInput)
      ensures confirmPasswordInput == old(confirmPasswordInput)
    {
      TrimEmptyIff(newItemText);
      if Trim(newItemText) == [] || currentUser.None? {
        return;
      }
      var name := currentUser.value;
      users := WithItems(users, name, AddItem(users[name].items, id, newItemText));
      newItemText := [];
    }

    /**
     * Delete: a no-op when nobody is logged in; otherwise the current user's
     * list keeps, in order, exactly the items whose id differs from `id`, and no
     * other account changes.
     */
    method HandleDeleteItem(id: int)
      requires Valid()
      modifies this
      ensures Valid()
      ensures old(currentUser).None? ==> users == old(users)
      ensures old(currentUser).Some? ==>
        var name := old(currentUser).value;
        && users.Keys == old(users).Keys
        && users[name].password == old(users)[name].password
        && users[name].items == DeleteItem(old(users)[name].items, id)
        && forall u :: u in old(users) && u != name ==> users[u] == old(users)[u]
      ensures currentUser == old(currentUser) && currentPage == old(currentPage)
      ensures usernameInput == old(usernameInput) && passwordInput == old(passwordInput)
      ensures confirmPasswordInput == old(confirmPasswordInput) && newItemText == old(newItemText)
    {
      if currentUser.None? {
        return;
      }
      var name := currentUser.value;
      users := WithItems(users, name, DeleteItem(users[name].items, id));
    }

    /** The "Don't have an account? Register" link. */
    method ShowRegister()
      requires Valid()
      modifies this`currentPage
      ensures Valid() && currentPage == RegisterPage
    {
      currentPage := RegisterPage;
    }

    /** The "Already have an account? Login" link. */
    method ShowLogin()
      requires Valid()
      modifies this`currentPage
      ensures Valid() && currentPage == LoginPage
    {
      currentPage := LoginPage;
    }
  }

  /**
   * A client of the handlers' contracts: register alice, log in, add an item
   * and delete it again.
   */
  method AliceScenario(id: int)
  {
    var app := new App(map[]);
    app.ShowRegister();
    app.usernameInput, app.passwordInput, app.confirmPasswordInput := "alice", "p1", "p1";
    var registered := app.HandleRegister();
    assert registered == Pass && app.users["alice"] == Account("p1", []);

    app.usernameInput, app.passwordInput := "alice", "wrong";
    var rejected := app.HandleLogin();
    assert rejected == Fail(InvalidCredentials) && app.currentUser == None;

    app.passwordInput := "p1";
    var loggedIn := app.HandleLogin();
    assert loggedIn == Pass && app.currentUser == Some("alice") && app.currentPage == DashboardPage;

    app.newItemText := "buy milk";
    assert !IsWhitespace(app.newItemText[0]);
    assert TrimStart("buy milk") == "buy milk";
    assert TrimEnd("buy milk") == "buy milk";
    app.HandleAddItem(id);
    assert app.users["alice"].items == [Item(id, "buy milk")];

    app.HandleDeleteItem(id);
    assert app.users["alice"].items == [];

    app.HandleLogout();
    assert app.currentUser == None && app.users["alice"] == Account("p1", []);
  }
}
