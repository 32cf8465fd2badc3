# NSS submissions admin dashboard — Dafny model

This project models the logic of the NSS-unit submissions admin front end. The
**session gate** (`src/App.jsx`) decides, from a logged-in flag, whether the Login
screen or the Submissions Dashboard is shown. The **dashboard** (`src/pages/Dashboard.jsx`)
fetches all college submissions once, shows the ones whose college name matches a
free-text search, and exports the shown list as CSV text.

Modules (one per concept of the source):

- `Wrappers` (`wrappers.dfy`): `Option` and `Result`.
- `Text` (`text.dfy`): ASCII lower-casing, `includes`, `join`, and `split` as the inverse of `join`.
- `Records` (`records.dfy`): a record is an ordered list of (key, value) fields, so that `Object.keys` and `Object.values` agree in order. `college_name` is looked up by key.
- `Search` (`search.dfy`): the search filter as a function `Filter`, with lemmas for order, membership and multiplicity, the error case, the empty term, idempotence, letter case and narrowing.
- `Csv` (`csv.dfy`): the export text, with lemmas on its line layout and on reading it back.
- `App` (`app.dfy`): the token store and the `Session` gate class.
- `DashboardPage` (`dashboard.dfy`): the `Dashboard` class. Its fields `colleges`, `filtered` and `searchTerm` are the component state (`filtered` is `filteredColleges`). The field `crashed` records that the search effect threw, and `session` is the gate whose `handleLogout` arrives as `onLogout`. Its methods are the fetch callbacks, the search input, the search effect and the export.

Modelling decisions:

- `college.college_name.toLowerCase()` throws when a record has no `college_name`. `Search.Filter` returns `Err(MissingCollegeName(i))` for the first such record `i`. Nothing in the application catches the error, so React unmounts the component tree. The `Dashboard` records this in its `crashed` flag: `ApplySearch` sets it without setting the shown list, no user handler or effect of the dashboard can run afterwards, and a late fetch success changes nothing.
- `useState(!!getToken())` uses JavaScript truthiness: a stored empty-string token starts the gate logged out. The model follows the code, so the flag is true exactly when a non-empty token is stored.
- React runs the search effect after any render in which `colleges` or `searchTerm` changed. The setters (`OnFetchSuccess`, `OnSearchInput`) and the effect (`ApplySearch`) are separate methods. `MountAndFetch` and `SearchFor` run them in React's order.
- The CSV text is built exactly as written, with plain commas and no quoting. `Csv.CommaInValueShiftsColumns` shows the consequence: a comma inside a value splits it into two columns.

## Model

| member | source | states |
|---|---|---|
| `Records.Get` | src/pages/Dashboard.jsx:31 | `college.college_name` is absent exactly when no field has that key; a value found belongs to a field of that key |
| `Text.Lower` | src/pages/Dashboard.jsx:31 | `toLowerCase`, on ASCII letters; the result has the length of the input; its idempotence is `Text.LowerIdempotent` |
| `Text.Contains` | src/pages/Dashboard.jsx:31 | `includes`: some window of the name spells the term; no contract of its own, its properties are `Text.ContainsEmpty` and `Text.ContainsTransitive` |
| `Text.Join` | src/pages/Dashboard.jsx:39-41 | `join`: parts separated by the separator, none before the first or after the last; no contract of its own, pinned by its inverse in `Text.SplitJoin` and by `Text.JoinAvoids` |
| `Records.Keys` | src/pages/Dashboard.jsx:39 | `Object.keys`: the field names in field order; no contract of its own, read back by `Csv.ExportRoundTrip` |
| `Records.Values` | src/pages/Dashboard.jsx:40 | `Object.values`: the field values in the same order as the keys; no contract of its own, read back by `Csv.ExportRoundTrip` |
| `Records.CollegeName` | src/pages/Dashboard.jsx:31 | `college.college_name`: the lookup `Records.Get` of that key, whose contract applies |
| `Search.Matches` | src/pages/Dashboard.jsx:31 | the callback's case-insensitive `includes` test: the lower-cased name includes the lower-cased term |
| `Search.Kept` | src/pages/Dashboard.jsx:31 | the callback returns true: the record has a `college_name` and it matches |
| `Search.Filter` | src/pages/Dashboard.jsx:30-32 | `colleges.filter(...)`; no contract of its own, pinned by `Search.FilterSelects`, `Search.FilterKeepsOrder` and `Search.FilterFailsAtFirstUnnamed` |
| `Csv.Header` | src/pages/Dashboard.jsx:39 | the first record's keys joined with commas; read back by `Csv.ExportRoundTrip` |
| `Csv.Row` | src/pages/Dashboard.jsx:40 | one record's values joined with commas; read back by `Csv.ExportRoundTrip` |
| `Csv.Rows` | src/pages/Dashboard.jsx:40 | `filteredColleges.map(...)`: one row per record, as many rows as records |
| `App.Truthy` | src/App.jsx:7 | `!!` of the stored token: true exactly for a present, non-empty token; used by `App.Session.constructor` |
| `Text.LowerIdempotent` | src/pages/Dashboard.jsx:31 | lower-casing an already lower-cased string changes nothing |
| `Text.ContainsEmpty` | src/pages/Dashboard.jsx:31 | every name includes the empty search term |
| `Text.ContainsTransitive` | src/pages/Dashboard.jsx:31 | a name that includes term `a` includes everything `a` includes |
| `Search.FilterKeepsOrder` | src/pages/Dashboard.jsx:30-32 | the search result is a subsequence of `colleges`, in the original order |
| `Search.SubsequenceMembers` | src/pages/Dashboard.jsx:30-32 | every record of a subsequence, so every shown record, is a fetched record |
| `Search.FilterSelects` | src/pages/Dashboard.jsx:30-32 | a record is in the result iff it is in `colleges` and its lower-cased `college_name` includes the lower-cased term; kept records keep their multiplicity |
| `Search.FilterFailsAtFirstUnnamed` | src/pages/Dashboard.jsx:30-31 | the filter throws iff some record has no `college_name`, and it reports the first such record |
| `Search.FilterEmptyTermKeepsAll` | src/pages/Dashboard.jsx:31 | when every college has a `college_name`, an empty search term keeps every college: the result equals `colleges` |
| `Search.FilterIdempotent` | src/pages/Dashboard.jsx:28-34 | filtering the result again with the same term gives the same result |
| `Search.FilterSameForCaseVariants` | src/pages/Dashboard.jsx:31 | terms that differ only in ASCII letter case give the same result |
| `Search.FilterIgnoresTermCase` | src/pages/Dashboard.jsx:31 | searching for a term gives the same result as searching for its lower-cased form |
| `Search.FilterNarrows` | src/pages/Dashboard.jsx:31 | a term that includes another term selects a subsequence of what the other term selects |
| `Text.SplitJoin` | src/pages/Dashboard.jsx:39-41 | for a non-empty list of parts, `join` on a one-character separator is undone by `split` when no part holds the separator |
| `Text.JoinAvoids` | src/pages/Dashboard.jsx:39-41 | joining parts and a separator that lack a character gives text that lacks it |
| `Csv.Export` | src/pages/Dashboard.jsx:36-41 | export produces nothing exactly when the shown list is empty |
| `Csv.ExportLines` | src/pages/Dashboard.jsx:39-41 | with no newline inside the first record's keys or any value, the text is the header line (first record's keys, comma-joined) followed by one comma-joined value line per record in order: `|shown| + 1` lines |
| `Csv.ExportRoundTrip` | src/pages/Dashboard.jsx:39-41 | with no comma or newline in the first record's keys or any value and no empty record, reading the text back gives the first record's keys, then each record's values |
| `Csv.CommaInValueShiftsColumns` | src/pages/Dashboard.jsx:40 | a value holding a comma reads back as two columns under a one-column header |
| `App.TokenStore.GetToken` | src/App.jsx:7 | `getToken()` returns the stored token |
| `App.TokenStore.SaveToken` | src/pages/Login.jsx:56 | `saveToken(t)` leaves exactly `t` stored |
| `App.TokenStore.RemoveToken` | src/App.jsx:11 | `removeToken()` leaves no token stored |
| `App.Session.constructor` | src/App.jsx:7 | the initial flag is true iff a non-empty token is stored; the store is not changed |
| `App.Session.Rendered` | src/App.jsx:15 | the Dashboard is rendered iff the flag is true, otherwise Login |
| `App.Session.HandleLogin` | src/App.jsx:9 | login sets the flag and shows the Dashboard; the token store is unchanged |
| `App.Session.HandleLogout` | src/App.jsx:10-13 | logout leaves no token, the flag false and the Login screen shown |
| `App.LoginSucceeded` | src/pages/Login.jsx:56-57 | a successful login stores the returned token, then sets the flag, so the Dashboard is shown with that token stored |
| `App.LogoutTwice` | src/App.jsx:10-13 | a second logout leaves the same state as the first |
| `App.ReloadAfterLogout` | src/App.jsx:7-13 | a gate initialised from storage after logout starts logged out, on the Login screen |
| `DashboardPage.Dashboard.constructor` | src/pages/Dashboard.jsx:8-10 | the dashboard starts with no colleges, nothing shown and an empty search term |
| `DashboardPage.Dashboard.OnFetchSuccess` | src/pages/Dashboard.jsx:17-20 | on fetch success both `colleges` and the shown list become the response; on a dashboard that has already crashed the updates are dropped; the shown list stays a subsequence of `colleges` |
| `DashboardPage.Dashboard.OnFetchFailure` | src/pages/Dashboard.jsx:21-25 | on fetch failure, even a late one, the token is removed and the gate logs out to the Login screen; the dashboard's own state is untouched |
| `DashboardPage.Dashboard.OnLogoutClick` | src/pages/Dashboard.jsx:61-62 | the Logout button logs the gate out |
| `DashboardPage.Dashboard.OnSearchInput` | src/pages/Dashboard.jsx:72-73 | typing replaces the search term and nothing else |
| `DashboardPage.Dashboard.ApplySearch` | src/pages/Dashboard.jsx:28-34 | the effect recomputes the search from all colleges; on success the shown list is exactly that result; on a throw it is not set and the dashboard is marked crashed; the shown list stays a subsequence of `colleges` |
| `DashboardPage.Dashboard.DownloadCsv` | src/pages/Dashboard.jsx:36-41 | the download text is the CSV export of the shown list, absent exactly when nothing is shown |
| `DashboardPage.MountAndFetch` | src/pages/Dashboard.jsx:12-34 | when every fetched record has a `college_name`, after mount, a successful fetch and the effect it triggers, every fetched college is shown and the dashboard is still mounted |
| `DashboardPage.SearchFor` | src/pages/Dashboard.jsx:28-34 | after typing a term, either the shown list holds exactly the fetched colleges whose name matches and running the effect again changes nothing, or the filter threw, the shown list is unchanged and the dashboard crashed |
| `DashboardPage.FetchWithUnnamedRecord` | src/pages/Dashboard.jsx:17-34 | a fetched record without `college_name` makes the effect after the fetch throw, so the dashboard crashes with the unfiltered response still in both lists |

## Left out

- The network: the axios GET to `/all` and its bearer header are out of scope. Only its two outcomes are modelled, as calls to `OnFetchSuccess` and `OnFetchFailure`.
- `alert('Session expired')` is a browser dialog with no state effect.
- Browser download plumbing (`Blob`, `URL.createObjectURL`, the anchor click, the file name) is out of scope. The model stops at the CSV text.
- JSX rendering, the table markup, framer-motion animations and the upload link are presentation only.
- The Login screen (`src/pages/Login.jsx`) is left out except for its success path: the particle animation uses floats, timers and randomness, the form is presentation, and the login request is a network call. On success it saves the returned token and then calls `onLogin`, which is `App.Session.HandleLogin`; `App.LoginSucceeded` models that step.
- The token store module (`src/auth`) is not part of this model. It is reduced to one optional token string.
- Unicode case mapping: `toLowerCase` is modelled on ASCII letters only.
- Field values are held in their text form. A `college_name` that is present but is not a string (a number or `null`) would also make the filter throw; the model does not represent such values.
- Duplicate keys cannot occur in a JavaScript object. The model does not forbid them, and `Records.Get` returns the first field with the key.
- A fetch that settles after the dashboard has unmounted is only partly out of scope. A late success is dropped: `OnFetchSuccess` on a crashed dashboard changes nothing, and an unmount by logout is not tracked on the dashboard. A late failure still removes the token and calls `onLogout`, which is the gate's `handleLogout` and still takes effect. So a user who logged out during the fetch and then logged in again is logged out once more, and the new token is removed. `OnFetchFailure` has no precondition on the dashboard's state and expresses this.
- DashboardPage.Dashboard.ApplySearch: when the filter throws, React unmounts the whole tree (no error boundary exists). The model records only that `filteredColleges` is not set and that the dashboard is crashed. It does not model the unmounted gate or the blank page that follows.
- Pagination, entries-per-page and exact-match filters do not exist in this version of the dashboard.
