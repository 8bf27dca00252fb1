# Account and session state machine of the single-page demo app

This project models the client-side state of the `App` component in `main.jsx`.
The state has a directory `users` mapping each username to `{password, items}`, an
optional `currentUser` (the session) and a `currentPage`, plus the form inputs.
The event handlers are register, login, logout, add item and delete item. The
mount effect restores a stored session only if its user still exists.

Modules:

- `Wrappers`: `Option`, `Result` and `Outcome`.
- `Text`: JavaScript's `trim()`, over the ECMAScript white-space and line-terminator characters.
- `Items`: the item record and the two list operations. Add trims, skips empty text and appends. Delete is the `filter` by id.
- `Directory`: accounts and the directory. It holds the register, login and session-restore decisions as pure functions, and the item-list replacement for one account.
- `AppState`: class `App`, whose fields are the component's state variables and whose methods are its handlers. Each handler is one atomic transition. `Valid()` says that the session always names an existing account and that the dashboard is shown only to a logged-in user. Every handler preserves `Valid()`.

The clock read `Date.now()` that gives a new item its id is a parameter of
`HandleAddItem`. The value the mount effect reads from storage is a parameter of
`RestoreSession`. The directory loaded from storage at start-up is a parameter of
the constructor.

## Model

| member | source | states |
|---|---|---|
| `Text.Trim` | main.jsx:115 | the trimmed text has no white space at either end, and it is the infix of the input left after dropping only white space before and after it |
| `Text.TrimEmptyIff` | main.jsx:115 | `!text.trim()` holds exactly when the text is all white space (empty text included) |
| `Text.TrimIdempotent` | main.jsx:122 | trimming an already trimmed text changes nothing |
| `Items.AddItem` | main.jsx:115-122 | text that is all white space leaves the list unchanged; otherwise the old list is kept as a prefix and followed by exactly one item `{id, trimmed text}` with non-empty text |
| `Items.DeleteItem` | main.jsx:134 | the result holds exactly the items whose id differs from the argument, is no longer than the input, and equals the input when no item has that id |
| `Items.DeleteItemAppend` | main.jsx:134 | filtering distributes over concatenation, so the kept items stay in their original order |
| `Items.DeleteItemIdempotent` | main.jsx:129-141 | deleting an id twice gives the same list as deleting it once |
| `Items.AddThenDelete` | main.jsx:117-137 | adding an item under an id no item has, then deleting that id, gives back the previous list |
| `Items.AddItemKeepsUniqueIds` | main.jsx:122 | with a fresh id, adding keeps item ids pairwise distinct |
| `Items.DeleteItemKeepsUniqueIds` | main.jsx:134 | deleting keeps item ids pairwise distinct |
| `Items.AddItemKeepsTextsTrimmed` | main.jsx:115-122 | if every stored text is non-empty and trimmed, this stays true after adding |
| `Items.DeleteItemKeepsTextsTrimmed` | main.jsx:134 | if every stored text is non-empty and trimmed, this stays true after deleting |
| `Directory.Register` | main.jsx:58-79 | a missing field, a password mismatch and an existing username are each rejected, tested in that order. Success adds exactly the one new key, mapped to `{password, []}`, and every existing entry is unchanged |
| `Directory.Login` | main.jsx:87-102 | succeeds, with the entered username, exactly when both fields are non-empty, the user exists and the stored password equals the one entered. Empty fields get their own rejection |
| `Directory.WithItems` | main.jsx:117-123 | replacing one account's items keeps the key set and that account's password, and leaves every other account unchanged |
| `Directory.RestoredUser` | main.jsx:38-45 | a stored username is adopted exactly when it is non-empty and is a key of `users`, so an adopted session always names an account |
| `Directory.RegisterThenLogin` | main.jsx:73-96 | after a successful registration, logging in with the same username and password succeeds |
| `Directory.WrongPasswordRejected` | main.jsx:94-101 | a wrong password for an existing user is rejected |
| `Directory.RegisterKeepsLogins` | main.jsx:73-95 | a registration does not change any login outcome for an existing user |
| `Directory.WithItemsKeepsLogins` | main.jsx:117-139 | changing a user's items does not change any login outcome |
| `Directory.RegisterAsWritten` | main.jsx:68-71 | with the source's `users[username]` test, a name inherited from Object.prototype is rejected as a duplicate; on every other name it agrees with `Register` |
| `Directory.RestoredUserAsWritten` | main.jsx:41 | with the source's `users[stored]` test, an inherited name is adopted; on every other name it agrees with `RestoredUser` |
| `Directory.RegisterRejectsInheritedName` | main.jsx:68-71 | as written, "constructor" is refused as an existing username although it is no key of `users`; the corrected `Register` accepts it |
| `Directory.RestoreAdoptsInheritedName` | main.jsx:41 | as written, a stored "constructor" becomes the session although no such account exists; the corrected `RestoredUser` refuses it |
| `AppState.App.constructor` | main.jsx:25-35 | the first render: `users` comes from storage, nobody is logged in, the login page shows, and all inputs are empty |
| `AppState.App.RestoreSession` | main.jsx:38-45 | adopts the stored user and shows the dashboard only if that user exists; otherwise nothing changes; `users` is never changed |
| `AppState.App.HandleRegister` | main.jsx:58-85 | on success `users` becomes the `Register` result, the login page shows and the three inputs are cleared. On rejection it reports the error and changes nothing. `currentUser` is never set |
| `AppState.App.HandleLogin` | main.jsx:87-103 | on success the entered user becomes current, the dashboard shows and both inputs are cleared. On rejection it reports the error and changes nothing. `users` is never changed |
| `AppState.App.HandleLogout` | main.jsx:105-110 | always clears the session and the item input and shows the login page; `users` is unchanged |
| `AppState.App.HandleAddItem` | main.jsx:113-127 | a no-op when the input is all white space or nobody is logged in. Otherwise the current user's list becomes the old list plus `{id, trimmed input}`, the password and all other accounts are unchanged, and the input is cleared |
| `AppState.App.HandleDeleteItem` | main.jsx:129-141 | a no-op when nobody is logged in. Otherwise the current user's list becomes `DeleteItem` of the old list, and the password and all other accounts are unchanged |
| `AppState.App.ShowLogin` | main.jsx:312 | the "Login" link shows the login page and keeps the invariant |
| `AppState.App.ShowRegister` | main.jsx:350 | the "Register" link shows the register page and keeps the invariant |

## Left out

- Storage: reading and writing `localStorage` with JSON (main.jsx:4-20) and the two save effects (main.jsx:47-55) are browser I/O. The stored directory and the stored session are parameters, and writing them back is not modelled.
- Item ids: `Date.now()` is a clock read and becomes the `id` parameter of `HandleAddItem`. Unique ids are proved only under a freshness precondition, which the source does not enforce.
- React: hook mechanics (`useState`, effect re-run timing, `useCallback` dependencies, batched functional updates) are not modelled; each handler is one atomic transition. The restore effect's re-run whenever `users` changes is the same `RestoreSession` transition called again.
- Presentation: `alert` messages, `e.preventDefault()`, the inline styles (main.jsx:144-265) and the JSX rendering are not modelled. The handlers return the rejection kind that selects the alert. The input `onChange` setters are plain assignments to the public input fields.
- Absent account: the `?.items || []` fallback for a current user without an account (main.jsx:119 and main.jsx:134) is not modelled, because `Valid()` keeps the current user a key of `users` in every reachable state. As written, the source would create an account with items and no password in that case.
- Strings: JavaScript strings are UTF-16 code units and Dafny strings are Unicode scalar values. Every white-space character `trim()` removes lies in the Basic Multilingual Plane, so trimming agrees. Unpaired surrogates are not representable.
- JSON shape: the model assumes stored values have the documented shape. A stored session that is not a string, or a stored account that is not an object, is not modelled.
- Item editing, `lastUpdated`, the theme preference and the simulated latency belong to another version of the application and are not part of this model.
- Passwords are stored and compared as plain text, as the source does; no security property is stated.

## Findings

| source | as written | input that shows it | evidently intended | confidence | as-written member | corrected member |
|---|---|---|---|---|---|---|
| main.jsx:68-71 | the duplicate test `users[usernameInput]` is also truthy for names inherited from Object.prototype | registering "constructor" with password "p" on any directory without that key is refused with "Username already exists" | reject only names that are keys of `users` | high (JavaScript lookup semantics; not executed) | `Directory.RegisterRejectsInheritedName` | `Directory.Register` |
| main.jsx:41 | the restore test `users[storedCurrentUser]` is also truthy for names inherited from Object.prototype | a stored session "constructor" is adopted, and the dashboard shows, for an account that does not exist | restore only a user that is a key of `users` ("Check if user still exists") | high (JavaScript lookup semantics; not executed) | `Directory.RestoreAdoptsInheritedName` | `Directory.RestoredUser` |

The rest of the model uses the corrected members. Login is not affected: the
inherited value has no `password` property, so `undefined === passwordInput` is
false for every non-empty input.
