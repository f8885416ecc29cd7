# Event manager core in Dafny

A model of the business core of a browser-only event manager written in
React. All state lives in the browser's `localStorage`, under three keys
(`ems_users_v2`, `ems_events_v2`, `ems_session_v2`) and one more
(`EVENT_PREFERENCES`) for per-event preferences. Each page reads a whole
collection, filters, maps or appends to it, and writes the whole
collection back.

Modules, one per source file:

- `Storage` (src/utils/localStorageUtils.js): the store as a class
  `LocalStore` holding a `map<string, Slot>`. A slot is the empty string,
  unparseable text, or a parsed value. `ReadSlot` is `readLS` with its
  fallback rules. `Write` replaces a slot as a whole.
- `Sessions` (src/utils/session.jsx): `getSession`, `setSession`,
  `clearSession`, and the guards `RequireAuth` and `RequireAdmin`.
- `Signup`, `Login`, `CreateEvent`, `EditEvent`: each handler is a module
  method that takes the `LocalStore` and changes it. Its contract ties the
  new store to a pure "effect" function, which gives the new store or the
  error that leaves the store unchanged. The lemmas are stated about those
  functions.
- `ManageEvents`: `HandleDelete` and `HandleApprove` take the list the page
  read. Their contracts state the written slot directly through `WriteSlot`
  and the list functions `RemoveById` and `ApproveById`.
- `Tags`: the tag normaliser `split(",").map(trim).filter(nonEmpty)` and the
  edit form's `join(", ")`.
- `EventsPage`, `EventDetails`, `AdminDashboard`, `UserDashboard`, `Home`:
  the read views, the preference table with its page state, and the home
  carousel.
- Helper modules: `Strings` (the JavaScript string built-ins the pages use)
  and `Seqs` (`filter`, `map`, `findIndex`, `find`, `some`).

Ids are `Option<string>` with plain equality. Sessions made by login and
signup carry no `id`, and events created under them get no `creatorId`.
So the ownership checks compare absent with absent, and that comparison
holds:

- `EditEvent.AbsentIdsMatch`: every such session may edit every such event.
- `UserDashboard.OwnerlessListedForAll`: every such session lists every such
  event as its own.

Creation does not check or store `time` (src/pages/CreateEvent.jsx:31);
saving an edit requires it (src/pages/EditEvent.jsx:39).

Dates are the date input's `YYYY-MM-DD` strings. They are compared as text,
and for that format text order is date order.

## Model

| member | source | states |
|---|---|---|
| Storage.ReadSlot | src/utils/localStorageUtils.js:7-13 | `readLS` gives the parsed value of a slot that holds one, and the fallback for an absent, empty or unparseable slot |
| Storage.WriteSlot | src/utils/localStorageUtils.js:15-17 | `writeLS` makes the key hold the value, adds no other key and leaves every other slot as it was |
| Storage.RemoveSlot | src/utils/session.jsx:17 | `removeItem` drops the key and leaves every other slot as it was |
| Storage.AsUsers | src/pages/Signup.jsx:15-18 | a slot is read as users exactly when it holds a user list or an empty list |
| Storage.AsEvents | src/pages/CreateEvent.jsx:35 | a slot is read as events exactly when it holds an event list or an empty list |
| Storage.AsPrefs | src/pages/EventDetails.jsx:17-18 | a slot is read as the preference table exactly when it holds one |
| Storage.LocalStore.constructor | src/utils/localStorageUtils.js:1-5 | the store starts with the given slots |
| Storage.LocalStore.Read | src/utils/localStorageUtils.js:7-13 | a read gives the fallback or the value stored under the key, and the stored value whenever there is one |
| Storage.ReadFallsBack | src/utils/localStorageUtils.js:7-13 | a key never written, a slot holding `""` and an unparseable slot all read as the fallback |
| Storage.ReadKeepsFalsy | src/utils/localStorageUtils.js:9 | a stored `null`, `false` or `0` is returned, not the fallback |
| Storage.ReadAfterWrite | src/utils/localStorageUtils.js:7-17 | reading a key just written gives the written value |
| Storage.OtherKeysUntouched | src/utils/localStorageUtils.js:15-17 | a write or a removal leaves every other key's slot as it was |
| Storage.LastWriteWins | src/utils/localStorageUtils.js:15-17 | of two writes to one key, the second alone decides the store |
| Storage.ReadAfterRemove | src/utils/session.jsx:17 | a removed key reads as the fallback |
| Storage.UsersIn | src/utils/localStorageUtils.js:7-13 | `readLS(LS.USERS, [])` read as users; a missing, empty or unparseable slot gives the empty list |
| Storage.EventsIn | src/utils/localStorageUtils.js:7-13 | `readLS(LS.EVENTS, [])` read as events; a missing, empty or unparseable slot gives the empty list |
| Storage.PrefsIn | src/pages/EventDetails.jsx:17 | `readLS("EVENT_PREFERENCES", {})` read as the table; a missing, empty or unparseable slot gives the empty table |
| Storage.EmptyStoreReadsEmpty | src/utils/localStorageUtils.js:9 | a fresh store reads as an empty user list, an empty event list and an empty preference table |
| Storage.EventsInAfterWrite | src/utils/localStorageUtils.js:15-17 | an event list written to the events key reads back as that list |
| Storage.LocalStore.Write | src/utils/localStorageUtils.js:15-17 | the slot is replaced by the value and nothing else changes |
| Storage.LocalStore.Remove | src/utils/session.jsx:16-18 | the key is removed and nothing else changes |
| Sessions.GetSession | src/utils/session.jsx:6-8 | the session is the session slot's stored value, or `null` without one |
| Sessions.RequireAuth | src/utils/session.jsx:21-24 | `RequireAuth` grants exactly the truthy sessions and otherwise redirects to the login page |
| Sessions.RequireAdmin | src/utils/session.jsx:27-32 | `RequireAdmin` grants exactly truthy sessions with role `admin` and otherwise redirects to the login page |
| Sessions.NonAdminRedirectedLikeVisitor | src/utils/session.jsx:21-32 | a logged-in non-admin gets the same redirect from `RequireAdmin` as a visitor with no session |
| Sessions.NoSessionIsNull | src/utils/session.jsx:6-8 | with no session slot, or one that is empty or unparseable, the session is `null` |
| Sessions.GetAfterSet | src/utils/session.jsx:11-13 | after `setSession(u)`, `getSession()` gives `u` |
| Sessions.GuardsAfterClear | src/utils/session.jsx:16-32 | after `clearSession()` the session is `null` and both guards redirect to the login page |
| Sessions.AdminImpliesAuth | src/utils/session.jsx:21-32 | whatever `RequireAdmin` grants, `RequireAuth` grants |
| Sessions.SessionWritesOnlySession | src/utils/session.jsx:11-18 | setting or clearing the session leaves every other key's reading unchanged |
| Sessions.DashboardFor | src/pages/Login.jsx:30-34 | the landing page is the admin dashboard if and only if the role is `admin`, otherwise the user dashboard |
| Sessions.SetSession | src/utils/session.jsx:11-13 | the session slot holds the value afterwards and no other slot changes |
| Sessions.ClearSession | src/utils/session.jsx:16-18 | the session slot is gone afterwards and the session reads as `null` |
| Signup.Register | src/pages/Signup.jsx:18-25 | rejected exactly when a stored user has the username; otherwise the old list, unchanged and in order, with the new user at the end |
| Signup.RegisterKeepsUnique | src/pages/Signup.jsx:18-27 | if usernames were unique before a signup, they are unique after it |
| Signup.SignupSession | src/pages/Signup.jsx:28 | the session written is a truthy `{username, role}` record with the new user's username and role and no id |
| Signup.SignupEffect | src/pages/Signup.jsx:12-31 | fails exactly when the users slot is no list or the username is taken; success appends the user, sets the `{username, role}` session and lands on the admin dashboard exactly for admins |
| Signup.SignupTouchesTwoSlots | src/pages/Signup.jsx:27-28 | a signup changes only the users and session slots |
| Signup.HandleSignup | src/pages/Signup.jsx:12-31 | the handler's writes give the effect's store; a rejected signup writes nothing |
| Login.Authenticate | src/pages/Login.jsx:18-20 | finds a user exactly when one matches username, password and role, and returns the first match |
| Login.WrongRoleFails | src/pages/Login.jsx:18-20 | with unique usernames, the right username and password under the other role is rejected |
| Login.LoginEffect | src/pages/Login.jsx:12-35 | fails exactly when the users slot is no list or nobody matches; success sets the `{username, role}` session, leaves the users alone and lands by role |
| Login.LoginTouchesSessionOnly | src/pages/Login.jsx:28 | a successful login changes the session slot and nothing else |
| Login.HandleLogin | src/pages/Login.jsx:12-35 | the handler's writes give the effect's store; a failed login writes nothing |
| Tags.Clean | src/pages/CreateEvent.jsx:44 | the cleaned tags are the pieces trimmed, in order, with the empty ones dropped: `Filter(Map(pieces, Trim), NonEmpty)` |
| Tags.CleanTags | src/pages/CreateEvent.jsx:44 | comma-free pieces clean up into tags: non-empty, comma-free, no whitespace at either end |
| Tags.NormalizeTags | src/pages/CreateEvent.jsx:44 | every normalised tag is non-empty, holds no comma and has no whitespace at its ends |
| Tags.NormalizeAtComma | src/pages/CreateEvent.jsx:44 | the tags of `a + "," + b` are the tags of `a` followed by those of `b`, so input order is kept |
| Tags.NormalizeLeadingWhitespace | src/pages/CreateEvent.jsx:44 | whitespace in front of the input changes no tag |
| Tags.NormalizeOneTag | src/pages/CreateEvent.jsx:44 | an input that is a single tag gives that tag alone |
| Tags.NormalizeEmpty | src/pages/CreateEvent.jsx:44 | the empty input gives no tags |
| Tags.NormalizeBlank | src/pages/CreateEvent.jsx:44 | an input gives no tags if and only if it consists of commas and whitespace only |
| Tags.JoinTags | src/pages/EditEvent.jsx:16-17 | a list of tags shown in the edit form and saved unchanged gives the list back |
| Tags.TagsRoundTrip | src/pages/EditEvent.jsx:17-46 | a normalised list joined with `", "` and normalised again is the same list |
| Tags.NormalizeIdempotent | src/pages/EditEvent.jsx:17-46 | loading normalised tags into the edit form and saving them changes nothing |
| Strings.Trim | src/pages/CreateEvent.jsx:44 | `trim` gives the middle of the string: what it removes in front and behind is all whitespace, and no whitespace is left at either end |
| Strings.TrimBlank | src/pages/Events.jsx:35 | `s.trim()` is empty if and only if `s` is all whitespace |
| Strings.Join | src/pages/EditEvent.jsx:17 | `join` of no pieces is empty and otherwise starts with the first piece; JoinSplit and SplitJoin make it the inverse of `split` |
| Strings.Split | src/pages/CreateEvent.jsx:44 | `split(",")` gives at least one piece and no piece holds a comma |
| Strings.JoinSplit | src/pages/EditEvent.jsx:46 | joining the pieces of `split(",")` with `","` restores the input |
| Strings.SplitJoin | src/pages/EditEvent.jsx:46 | splitting comma-free pieces joined with `","` gives the pieces back |
| Strings.SplitAtComma | src/pages/CreateEvent.jsx:44 | splitting `a + "," + b` splits `a` and `b` separately |
| Strings.Lower | src/pages/Events.jsx:36 | `toLowerCase` keeps the length, turns each upper-case ASCII letter into its lower-case letter and keeps every other character |
| Strings.LowerIdempotent | src/pages/Events.jsx:36 | lowercasing twice is lowercasing once |
| Strings.LowerKeepsWhitespace | src/pages/Events.jsx:36 | lowercasing keeps a string all whitespace, or not |
| Strings.Contains | src/pages/Events.jsx:39-41 | `includes` holds for the empty needle and never for a needle longer than the haystack |
| Strings.ContainsAt | src/pages/Events.jsx:39 | `includes` holds exactly when the needle starts at some position of the haystack |
| Strings.LexLeqTotal | src/pages/Events.jsx:49-53 | any two dates are ordered one way or the other |
| Strings.LexLeqTransitive | src/pages/Events.jsx:49-53 | the date order is transitive |
| Strings.LexLeqAntisymmetric | src/pages/Events.jsx:49-53 | dates ordered both ways are equal |
| Seqs.Filter | src/pages/ManageEvents.jsx:17 | `filter` keeps exactly the elements satisfying the test, each as often as it occurs |
| Seqs.FilterAppend | src/pages/AdminDashboard.jsx:20-21 | filtering keeps relative order: it distributes over concatenation |
| Seqs.Map | src/pages/CreateEvent.jsx:44 | `map` keeps the length and applies the function at every position |
| Seqs.FirstIndex | src/pages/EditEvent.jsx:50 | `findIndex` is -1 exactly when nothing matches, and is otherwise the first match |
| Seqs.Find | src/pages/EventDetails.jsx:9 | `find` gives nothing exactly when nothing matches, and is otherwise the first match |
| Seqs.Any | src/pages/Signup.jsx:18 | `some` holds exactly when an element satisfies the test |
| Entities.Approved | src/pages/Events.jsx:8 | the approved list holds exactly the stored events that are approved, each as often as it is stored |
| Entities.Pending | src/pages/AdminDashboard.jsx:21 | the pending list holds exactly the stored events that are not approved, each as often as it is stored |
| Entities.OwnedBy | src/pages/UserDashboard.jsx:9 | the owned list holds exactly the events whose `creatorId` equals the id, absent matching absent, each as often as it is stored |
| Entities.OwnedByKeepsOrder | src/pages/UserDashboard.jsx:9 | the owned list keeps the stored order: it distributes over concatenation and keeps or drops each single event |
| CreateEvent.NewEvent | src/pages/CreateEvent.jsx:36-47 | the new event has the form's title, date, description, location, image and category, the fresh id, no time, the session's id as creator, normalised tags, and is approved if and only if the session's role is `admin` |
| CreateEvent.OnlyAdminsAutoApprove | src/pages/CreateEvent.jsx:46 | under a truthy session the event is approved exactly for admins |
| CreateEvent.LoginSessionsCreateOwnerless | src/pages/CreateEvent.jsx:45 | under a session made by login or signup the event has no creator id |
| CreateEvent.MissingField | src/pages/CreateEvent.jsx:31 | the form is incomplete exactly when title, date, description, location, image or category is empty; tags and time are not checked |
| CreateEvent.CreateEffect | src/pages/CreateEvent.jsx:30-54 | fails exactly when a required field is empty or the events slot is no list; otherwise the stored list gains exactly the new event at its end |
| CreateEvent.CreateTouchesEventsOnly | src/pages/CreateEvent.jsx:50 | a create changes the events slot and no other |
| CreateEvent.FreshIdKeepsIdsUnique | src/pages/CreateEvent.jsx:37 | appending an event whose id is not yet stored keeps ids distinct |
| CreateEvent.CreateKeepsIdsUnique | src/pages/CreateEvent.jsx:35-50 | a create with a fresh id keeps the stored ids distinct |
| CreateEvent.HandleCreate | src/pages/CreateEvent.jsx:30-54 | the handler's writes give the effect's store and it then goes to the listing; a rejected create writes nothing |
| EditEvent.LoadDraft | src/pages/EditEvent.jsx:13-22 | loads the first event with the route id, its tags joined by `", "`, or nothing when no event has the id |
| EditEvent.NoTagsLoadEmpty | src/pages/EditEvent.jsx:16-17 | an event without tags loads as an empty tag input |
| EditEvent.Saved | src/pages/EditEvent.jsx:44-47 | the saved event keeps every field of the loaded one, `id`, `approved` and `creatorId` included, except the tags, which are normalised |
| EditEvent.ReplaceFirst | src/pages/EditEvent.jsx:50-56 | nothing is saved when no event has the id; otherwise only the first entry with the id is replaced and the length is kept |
| EditEvent.SaveKeepsNormalTags | src/pages/EditEvent.jsx:13-47 | loading an event with normalised tags and saving it untouched gives the event back |
| EditEvent.ReplaceKeepsIdsUnique | src/pages/EditEvent.jsx:56 | a replacement keeps distinct ids distinct |
| EditEvent.MissingField | src/pages/EditEvent.jsx:39-42 | the event is incomplete exactly when time is absent or empty, or title, date, description, location, image or category is empty |
| EditEvent.SaveEffect | src/pages/EditEvent.jsx:35-61 | fails exactly when nothing is loaded, a required field including time is empty, the events slot is no list, or no stored event has the id; otherwise the stored list is the replacement |
| EditEvent.SaveTouchesEventsOnly | src/pages/EditEvent.jsx:57 | a save changes the events slot and no other |
| EditEvent.CanEdit | src/pages/EditEvent.jsx:66 | an admin may edit every event; anyone else exactly the events whose creator id equals the session's id |
| EditEvent.AbsentIdsMatch | src/pages/EditEvent.jsx:66 | a session without id may edit every event without creator id |
| EditEvent.View | src/pages/EditEvent.jsx:63-72 | the form is shown exactly to a truthy session with a loaded event it may edit; with no session, login is asked for first |
| EditEvent.HandleSave | src/pages/EditEvent.jsx:35-61 | the handler's writes give the effect's store and it then goes to the manage page; a failed save writes nothing |
| ManageEvents.Manageable | src/pages/ManageEvents.jsx:11-14 | an admin manages every event; anyone else exactly the events whose creator id equals the session's id, each as often as it is stored |
| ManageEvents.ManageableKeepsOrder | src/pages/ManageEvents.jsx:11-14 | the managed list keeps the stored order: it distributes over concatenation |
| ManageEvents.ManageableAreEditable | src/pages/ManageEvents.jsx:11-14 | a stored event is listed on the manage page exactly when the edit page lets the session edit it |
| ManageEvents.View | src/pages/ManageEvents.jsx:7-14 | login is asked for exactly when there is no session; otherwise the listing is the managed list |
| ManageEvents.RemoveById | src/pages/ManageEvents.jsx:17 | deletion keeps exactly the events with another id |
| ManageEvents.RemoveKeepsOrder | src/pages/ManageEvents.jsx:17 | deletion keeps the remaining events in order |
| ManageEvents.RemoveAbsent | src/pages/ManageEvents.jsx:17 | deleting an id that is not stored changes nothing |
| ManageEvents.RemoveIdempotent | src/pages/ManageEvents.jsx:17 | deleting twice is deleting once |
| ManageEvents.RemoveOneOfUnique | src/pages/ManageEvents.jsx:17 | with distinct ids, deleting a stored id removes exactly that entry |
| ManageEvents.ApproveById | src/pages/ManageEvents.jsx:24-26 | approval keeps the length, sets `approved` on every event with the id and changes nothing else |
| ManageEvents.ApproveIdempotent | src/pages/ManageEvents.jsx:24-26 | approving twice is approving once |
| ManageEvents.ShowApprove | src/pages/ManageEvents.jsx:57 | the approve button is shown only to admins and never on an approved event |
| ManageEvents.ApprovedHidesButton | src/pages/ManageEvents.jsx:57 | an approved event offers no approve button |
| ManageEvents.HandleDelete | src/pages/ManageEvents.jsx:16-21 | called with the list the page read from the events slot, it writes that whole list less the id, not only the filtered view |
| ManageEvents.HandleApprove | src/pages/ManageEvents.jsx:23-30 | called with the list the page read from the events slot, it writes that whole list with the id approved |
| EventsPage.MatchesSearch | src/pages/Events.jsx:36-42 | an event matches when the lowercased query occurs in its lowercased title, location or description; the empty query matches every event |
| EventsPage.SearchIgnoresCase | src/pages/Events.jsx:36-42 | the query's case does not change which events match |
| EventsPage.SearchFilter | src/pages/Events.jsx:35-43 | a blank or whitespace-only search keeps every event; any other keeps exactly the events matching the lowercased query, each as often as it is stored |
| EventsPage.CategoryFilter | src/pages/Events.jsx:45-47 | `All` keeps every event; any other category keeps exactly the events of that category, each as often as it is stored |
| EventsPage.Insert | src/pages/Events.jsx:49-53 | inserting into a date-ordered list keeps it ordered and adds exactly the element |
| EventsPage.SortByDate | src/pages/Events.jsx:49-53 | the sort orders neighbours by date and is a permutation of its input |
| EventsPage.SortedAllPairs | src/pages/Events.jsx:49-53 | order between neighbours gives order between any two positions |
| EventsPage.Listing | src/pages/Events.jsx:32-56 | the listing is a permutation of the approved, searched, category-filtered events, ordered by date |
| EventsPage.ListingMembers | src/pages/Events.jsx:32-56 | an event is listed exactly when it is stored, approved, matches a non-blank search and has the chosen category |
| EventsPage.ListingDateOrder | src/pages/Events.jsx:49-53 | `newest` lists dates non-increasing, any other order non-decreasing |
| EventDetails.ShownEvent | src/pages/EventDetails.jsx:9 | shows the first stored event with the route id, or the not-found view when there is none |
| EventDetails.LoadPanel | src/pages/EventDetails.jsx:16-22 | without an entry the state is `false` and `0`; with one, its flag and its rating, or 0 when it has none; a table of valid ratings loads a rating in 0..5 |
| EventDetails.SetPreference | src/pages/EventDetails.jsx:27-30 | saving sets this event's entry and leaves every other entry as it was |
| EventDetails.LoadAfterSet | src/pages/EventDetails.jsx:18-30 | a saved entry loads back as the state that was saved |
| EventDetails.SetKeepsValid | src/pages/EventDetails.jsx:148-152 | saving a rating the stars can produce keeps every stored rating in 0..5 |
| EventDetails.SaveEffect | src/pages/EventDetails.jsx:25-32 | saving writes the table with this entry replaced, or nothing when the slot holds no table |
| EventDetails.SaveTouchesPrefsOnly | src/pages/EventDetails.jsx:31 | a save changes the preference slot and no other |
| EventDetails.Toggle | src/pages/EventDetails.jsx:34-38 | toggling flips the flag and keeps the rating |
| EventDetails.Rate | src/pages/EventDetails.jsx:40-43 | rating sets the value and keeps the flag |
| EventDetails.ToggleTwice | src/pages/EventDetails.jsx:34-38 | toggling twice restores the state and stores the original flag again |
| EventDetails.PreferencePanel.constructor | src/pages/EventDetails.jsx:12-13 | the state starts as not interested with rating 0 |
| EventDetails.PreferencePanel.Load | src/pages/EventDetails.jsx:16-22 | a stored entry replaces the state; without one, or with no table, the state stays |
| EventDetails.PreferencePanel.ToggleInterested | src/pages/EventDetails.jsx:34-38 | flips the flag, keeps the rating in 0..5 and saves both |
| EventDetails.PreferencePanel.HandleRating | src/pages/EventDetails.jsx:40-43 | sets a star value, keeps the flag and saves both |
| EventDetails.PreferencePanel.SavePreferences | src/pages/EventDetails.jsx:25-32 | the store becomes the save effect's store, or stays when the slot holds no table |
| AdminDashboard.Redirects | src/pages/AdminDashboard.jsx:13-17 | the page redirects exactly the sessions that are not a truthy admin session |
| AdminDashboard.RedirectsLikeRequireAdmin | src/pages/AdminDashboard.jsx:13-17 | the page redirects to login exactly when `RequireAdmin` does |
| AdminDashboard.Partition | src/pages/AdminDashboard.jsx:20-21 | approved and pending together are the stored events, and their lengths add up to the total |
| AdminDashboard.SplitKeepsOrder | src/pages/AdminDashboard.jsx:20-21 | both lists keep the stored order |
| AdminDashboard.DashboardCounts | src/pages/AdminDashboard.jsx:32-40 | the counters are the number of users, of events and of pending events, and pending plus approved is the total |
| UserDashboard.Dashboard | src/pages/UserDashboard.jsx:9-12 | no session shows the login message; otherwise the owned list of the session's id, so exactly the events whose creator id equals it, in stored order |
| UserDashboard.OwnerlessListedForAll | src/pages/UserDashboard.jsx:9 | an event without creator id is listed for every session without id |
| Home.Step | src/pages/Home.jsx:30 | from a slide in range the next slide is in range, and before the last slide it is the following one |
| Home.Steps | src/pages/Home.jsx:30 | any number of ticks from a slide in range stays in range |
| Home.StepsAdd | src/pages/Home.jsx:30 | `a + b` ticks are `a` ticks followed by `b` ticks |
| Home.StepsClimb | src/pages/Home.jsx:30 | before the last slide each tick moves one slide on |
| Home.StepsToFirst | src/pages/Home.jsx:30 | from any slide, `len - current` ticks reach the first slide |
| Home.FullCycle | src/pages/Home.jsx:30 | `len` ticks return to the starting slide |
| Home.Upcoming | src/pages/Home.jsx:120 | at most four events, the first four approved ones, or all of them when there are fewer |
| Home.Carousel.constructor | src/pages/Home.jsx:23-25 | the carousel runs over the approved events and starts at the first |
| Home.Carousel.Tick | src/pages/Home.jsx:27-33 | a tick, which only runs with approved events, moves to the step's next slide and stays in range |
| Home.Carousel.Shown | src/pages/Home.jsx:42-72 | the slide on screen is one of the slides, so an approved event |

## Left out

- JSON text: slots hold parsed values instead of the text that `JSON.stringify` produces and `JSON.parse` reads. An undefined field, such as a missing session id, is written as `None`.
- Wrongly shaped records are not modelled: a stored event without a title, location, description or tag list, an `approved` that is not a boolean, or a user or session with other fields. So the search's "a missing field never matches" and the edit load's `found.tags || []` are not captured.
- AsUsers, AsEvents: a non-empty list of the other record type reads as `None`, as if the page threw. In the source `.some`, `.find`, `.filter` and `.push` do not throw on it, and signup or create would append to it. No page writes such a list under the other key.
- Read-only views take the list the page read. When the slot holds something other than a list, the page would throw; only the writing handlers model that case, as an error.
- Date parsing with `new Date`, invalid dates and time zones. Dates are compared as strings.
- `toLowerCase` outside the ASCII letters; Unicode case folding.
- `uuidv4()` is a parameter, the fresh id. The `FileReader` image upload is left out, and `image` is an opaque string.
- `navigate`, `alert`, `toast`, `setTimeout` and `window.location.reload`. Handlers return the next route or an error instead. The `setInterval` timer is modelled only as `Home.Carousel.Tick`.
- The HTML `required` attributes on the signup and login forms.
- Several tabs sharing one store at the same time.
- EventsPage.Listing: the in-place `sort` also reorders the page's own `approved` array when no filter applies. That aliasing is not captured. The sort is stable, but stability is not stated as a property.
- EventDetails.SaveEffect: any preference slot that is not a table is treated as throwing, and nothing is written. In the source, a `null` slot throws and a primitive throws when assigned to. An array is written back unchanged, because `JSON.stringify` drops the id-keyed entry. Another stored record, such as a session, gets the entry added and is written back.
- EventDetails.PreferencePanel.Load: any preference slot that is not a table is treated as throwing. The source throws only for `null`; for another value it finds no entry.
- EventDetails.LoadPanel: a stored rating is a number or absent. A `NaN` or non-numeric stored rating, and a non-boolean stored flag, are not modelled.
- Home.Carousel.Tick: the slide list is fixed for the carousel's lifetime. An index left out of range when the list shrinks between renders is not modelled.
- The admin dashboard renders once before its redirect effect runs. Only the redirect condition is modelled.
- Markup, styling, animation, the presentational components and the routing table.
