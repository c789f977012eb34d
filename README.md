# Fitness platform core, modelled in Dafny

This project models the core of a small fitness web application. It has two halves:

- **The browser scripts.**
  - `static/videos.js` is the video library. It filters videos by category, difficulty and a
    case-insensitive search, opens and closes the video modal, and adds or removes favorites.
  - `static/script.js` holds the shared site logic: the authentication state mirrored in
    `localStorage`, the `X-User-ID` request headers, the login and signup modals, the six
    featured videos, and the water-intake tracker.
  - `workout-planner.js` is the workout planner page. It creates and deletes workouts, adds
    exercises with their position in the workout, and guards exercise removal behind a
    confirmation.
- **The Flask backend, `app.py`.** The model covers:
  - each route's validation of required fields and of the `X-User-ID` header;
  - the `get_videos` query builder;
  - the rows `create_workout`, `add_exercise_to_workout` and `add_favorite` insert, with their
    defaults;
  - the delete semantics of `delete_workout` and `remove_favorite`;
  - the profile routes.

Files:

| file | module | models |
|---|---|---|
| `wrappers.dfy` | `Wrappers` | `Option`, used for JavaScript `null` and Python `None` |
| `text.dfy` | `Text` | JavaScript truthiness of strings, ASCII `toLowerCase`, `String.prototype.includes` (proved equal to a substring definition), decimal numerals and their parsing |
| `seqs.dfy` | `Seqs` | `Array.prototype.filter`, `find`/`fetchone` as "first match", and the subsequence and multiplicity laws of filtering |
| `catalog.dfy` | `Catalog` | the video record that the backend and the library page share |
| `videos.dfy` | `Videos` | `static/videos.js` |
| `script.dfy` | `SiteScript` | `static/script.js` |
| `planner.dfy` | `WorkoutPlanner` | `workout-planner.js` |
| `backend.dfy` | `Backend` | `app.py` |

Modelling choices:

- **Mutable page state.** State that a page updates in place is a Dafny `class`: the video
  page, the authentication state, the modals, the water tracker, the planner and
  `localStorage`. Its methods carry `modifies` frames.
- **The backend.** The backend's tables are a value `Db`. Each Flask handler is a function from
  the request and `Db` to a `Handled` result, which holds:
  - the reply the handler returns;
  - the tables afterwards;
  - whether the local `connection` was bound when the `finally` block ran.
- **Inputs.**
  - Network answers (`response.ok` and the parsed JSON), the answer to `confirm(...)`, stored
    values and freshly generated UUIDs are all parameters.
  - Each method of the workout planner returns the requests it issues as a sequence of
    `Request` values. The video page instead reports the write a favorite toggle makes as a
    `ToggleOutcome`. It does not record the `GET` requests that load the videos and check
    favorites; their replies are parameters.
  - The favorites the server holds are an abstract set on the video page.

The login form posts `{email, password}`, but the `login` route reads only `username`. The
model therefore shows that, under the code as written, every login through the form is
refused: `Backend.Login` answers 400 and, under the finding below, the client receives 500.

## Model

The definitional functions `Videos.ApplyFilters` (static/videos.js:69-79) and
`WorkoutPlanner.WithoutWorkout` (workout-planner.js:333) have no rows of their own. They are
specified by the lemma rows that cite the same lines: `Videos.ApplyFiltersExactly`,
`Videos.ApplyFiltersKeepsOrder` and `Videos.MatchesIffSelected` for the first, and
`WorkoutPlanner.WithoutWorkoutExactly` and `WorkoutPlanner.WithoutAbsentWorkout` for the second.

| member | source | states |
|---|---|---|
| `Text.ToLower` | static/videos.js:67 | the lower-cased string has the same length and lowers each ASCII capital, keeping every other character |
| `Text.ToLowerIdempotent` | static/videos.js:74-76 | lowering an already lowered search term changes nothing |
| `Text.IncludesIff` | static/videos.js:74-76 | `includes` holds exactly when the needle occurs at some position of the haystack |
| `Text.ParseNatToString` | static/script.js:260-266 | a count written in decimal reads back as the same count |
| `Seqs.FilterIsSubsequence` | static/videos.js:69-79 | filtering keeps a subsequence, in the original order |
| `Seqs.FilterMembership` | static/videos.js:69-79 | an element survives filtering iff it was present and satisfies the predicate |
| `Seqs.FilterMultiplicity` | static/videos.js:69-79 | filtering keeps every copy of a selected element and no copy of any other |
| `Seqs.FilterOfFilter` | app.py:311 | filtering again by a stronger predicate equals filtering once by it |
| `Seqs.FirstWhere` | static/videos.js:86 | `find` returns the first index that satisfies the predicate, and nothing exactly when no element does |
| `Videos.MatchesIffSelected` | static/videos.js:69-79 | the executable filter predicate agrees with its declarative reading (category, difficulty, search hitting the title, description or instructor) |
| `Videos.ApplyFiltersKeepsOrder` | static/videos.js:69-79 | the filtered list is a subsequence of all videos |
| `Videos.ApplyFiltersExactly` | static/videos.js:69-79 | a video is shown iff it is loaded and selected, with the same multiplicity |
| `Videos.ApplyFiltersNoCriteria` | static/videos.js:70-73 | with every filter empty, all videos are shown |
| `Videos.ApplyFiltersIgnoresCase` | static/videos.js:67 | two search terms that lower to the same string select the same videos |
| `Videos.ApplyFiltersLoweredTerm` | static/videos.js:67 | typing the term in lower case changes nothing |
| `Videos.FlowHitsYogaFlow` | static/videos.js:74 | the search "flow" hits the title "Yoga Flow" |
| `Videos.FlowMissesHiitBlast` | static/videos.js:74-76 | the search "flow" misses "HIIT Blast" and an empty field |
| `Videos.ApplyFiltersCategoryExample` | static/videos.js:70 | the category "yoga" keeps only the yoga video of a two-video library |
| `Videos.ApplyFiltersSearchExample` | static/videos.js:67-76 | the search "FLOW" keeps only the video whose title contains "Flow", whatever the case of the term |
| `Videos.CheckIfFavorited` | static/videos.js:160-179 | false without a stored user or a good reply; otherwise true iff the pair is among the user's favorites |
| `Videos.ToggleDecision` | static/videos.js:115-157 | no video gives no action; no stored user gives the login prompt; a favorited video is removed, any other added |
| `Videos.ToggleFlips` | static/videos.js:124-153 | with good replies, one toggle flips whether the pair is a favorite and leaves every other pair alone |
| `Videos.ToggleTwiceRestores` | static/videos.js:124-153 | with good replies, toggling twice restores the favorites |
| `Videos.VideoPage.constructor` | static/videos.js:2-3 | the page starts with no videos loaded, no current video and the modal closed |
| `Videos.VideoPage.LoadVideos` | static/videos.js:17-28 | a good reply replaces the loaded videos, a failed one keeps them |
| `Videos.VideoPage.OpenVideoModal` | static/videos.js:85-104 | an unknown id changes nothing; otherwise the first video with that id becomes current and the modal opens |
| `Videos.VideoPage.CloseVideoModal` | static/videos.js:107-112 | the modal closes and no video is current |
| `Videos.VideoPage.ToggleFavorite` | static/videos.js:115-157 | the action follows the toggle decision and the favorites change exactly as that action says |
| `SiteScript.LocalStorage.SetItem` | static/script.js:110-111 | the key now maps to the value and reads back as it; every other key reads as before |
| `SiteScript.LocalStorage.RemoveItem` | static/script.js:178-179 | the key is gone and reads back as nothing; every other key reads as before |
| `SiteScript.AuthState.constructor` | static/script.js:5-9 | a fresh state is signed out |
| `SiteScript.InitializeAuthState` | static/script.js:12-21 | signs in iff both a token and a user id are stored and non-empty, copying them; otherwise the state is unchanged, and from a signed-out start the state mirrors storage |
| `SiteScript.AuthModals.SwitchToSignup` | static/script.js:41-44 | the login modal closes and the signup modal opens |
| `SiteScript.AuthModals.SwitchToLogin` | static/script.js:46-49 | the signup modal closes and the login modal opens |
| `SiteScript.AuthModals.OpenLoginModal` | static/script.js:25-27 | opens the login modal only |
| `SiteScript.AuthModals.CloseLoginModal` | static/script.js:29-31 | closes the login modal only |
| `SiteScript.AuthModals.OpenSignupModal` | static/script.js:33-35 | opens the signup modal only |
| `SiteScript.AuthModals.CloseSignupModal` | static/script.js:37-39 | closes the signup modal only |
| `SiteScript.AuthModals.HandleSignupResponse` | static/script.js:161-168 | success swaps the signup modal for the login modal; failure changes nothing |
| `SiteScript.HandleLoginResponse` | static/script.js:108-126 | success stores token and user id, signs in with them, mirrors storage and closes the login modal; failure changes nothing |
| `SiteScript.Logout` | static/script.js:177-186 | both keys are removed, the state is signed out and mirrors storage |
| `SiteScript.GetAuthHeaders` | static/script.js:74-84 | always JSON content type; `X-User-ID` present iff the user id is truthy, carrying it; no other header |
| `SiteScript.FeaturedVideos` | static/script.js:214 | at most six videos: a prefix of the list |
| `SiteScript.WaterPercentage` | static/script.js:279 | intake over goal times 100, capped at exactly 100 from the goal of 8 glasses up, never negative for a non-negative intake |
| `SiteScript.WaterPercentageMonotonic` | static/script.js:279 | more water never shows a smaller percentage |
| `SiteScript.WaterTracker.constructor` | static/script.js:256 | the intake starts at 0 |
| `SiteScript.WaterTracker.InitializeWaterIntake` | static/script.js:260-266 | a stored plain numeral becomes the intake; a missing or empty value leaves it |
| `SiteScript.WaterTracker.AddWater` | static/script.js:286-290 | the intake grows by the amount, floored at 0, and is stored as a numeral that reads back to it |
| `SiteScript.WaterTracker.ResetWater` | static/script.js:293-297 | the intake is 0 and "0" is stored |
| `SiteScript.PersistedIntakeRestores` | static/script.js:260-266 | a stored intake is restored exactly on the next page load |
| `WorkoutPlanner.WithoutWorkoutExactly` | workout-planner.js:333 | after the local delete, a workout remains iff its id differs, with its multiplicity, in order |
| `WorkoutPlanner.WithoutAbsentWorkout` | workout-planner.js:333 | deleting an id no workout has changes nothing |
| `WorkoutPlanner.DeleteUndoesCreate` | workout-planner.js:242 | deleting a freshly created workout restores the list |
| `WorkoutPlanner.Planner.constructor` | workout-planner.js:2-4 | the planner starts empty with every modal closed |
| `WorkoutPlanner.Planner.LoadWorkouts` | workout-planner.js:61-75 | one list request; a good reply replaces the workouts |
| `WorkoutPlanner.Planner.SelectWorkout` | workout-planner.js:103-122 | one fetch request; a good reply becomes the current workout |
| `WorkoutPlanner.Planner.OpenCreateWorkoutModal` | workout-planner.js:167-169 | opens the create modal |
| `WorkoutPlanner.Planner.CloseCreateWorkoutModal` | workout-planner.js:172-174 | closes the create modal |
| `WorkoutPlanner.Planner.OpenAddExerciseModal` | workout-planner.js:177-183 | alerts iff no workout is selected; otherwise opens the modal |
| `WorkoutPlanner.Planner.CloseAddExerciseModal` | workout-planner.js:186-188 | closes the add-exercise modal |
| `WorkoutPlanner.Planner.HandleCreateWorkout` | workout-planner.js:219-256 | posts the form; on success appends the created workout, closes the modal and fetches it; on failure the list is unchanged |
| `WorkoutPlanner.Planner.HandleAddExercise` | workout-planner.js:259-295 | nothing without a current workout; otherwise posts the exercise with order index equal to the current exercise count, then refetches on success |
| `WorkoutPlanner.Planner.RemoveExercise` | workout-planner.js:298-317 | no request unless confirmed with a current workout; then one delete request, and a refetch on success |
| `WorkoutPlanner.Planner.DeleteWorkout` | workout-planner.js:320-345 | no request unless confirmed; on success the workout leaves the list and nothing is current |
| `Backend.Signup` | app.py:30-57 | 400 iff email, password or username is missing or empty, storing nothing; otherwise 201 with the new id and one profile row appended (email in `bio`, full name defaulting to '') |
| `Backend.Login` | app.py:67-88 | 400 iff no username; 401 iff no profile has it; otherwise 200 with the id of a profile with that username; nothing written |
| `Backend.VideoConditions` | app.py:112-117 | one clause per non-empty argument, category first, difficulty last |
| `Backend.AppendClause` | app.py:113-116 | appending a clause appends its text to the query and its value to the parameters |
| `Backend.WhereTextPlaceholders` | app.py:113-116 | the clauses carry exactly one placeholder each |
| `Backend.VideosQueryPlaceholders` | app.py:109-117 | the query starts with the base select and has as many placeholders as parameters |
| `Backend.BuildVideosQuery` | app.py:109-117 | the appended query and parameter list are those of the clause list |
| `Backend.GetVideos` | app.py:100-122 | 200 with the selected videos, in storage order, nothing written |
| `Backend.GetVideosAgreesWithPageFilter` | app.py:109-120 | the server's filter selects exactly what the library page shows for the same category and difficulty and no search |
| `Backend.GetVideo` | app.py:132-143 | 404 iff no video has that id; otherwise 200 with a video of that id |
| `Backend.GetUserWorkouts` | app.py:180-193 | 401 iff no user id; otherwise 200 with exactly the caller's workouts |
| `Backend.NewWorkoutRow` | app.py:216-219 | description defaults to '', difficulty to 'beginner', duration to 30, only for missing keys; a value sent is stored as sent and an explicit null as NULL |
| `Backend.CreateWorkout` | app.py:203-225 | 401 iff no user id, storing nothing; otherwise 201, the row appended, and under a fresh id the reply is that row |
| `Backend.NewWorkoutExerciseRow` | app.py:282-285 | sets default to 3, reps to 10, rest to 60, order index to 0, only for missing keys; a value sent is stored as sent and an explicit null as NULL |
| `Backend.AddExerciseToWorkout` | app.py:269-291 | 401 iff no user id, storing nothing; otherwise 201 and the row appended |
| `Backend.DeleteWorkout` | app.py:301-314 | 401 iff no user id; otherwise 200 whether or not a row matched, and the rows with that id owned by the caller are gone |
| `Backend.DeleteWorkoutSemantics` | app.py:311 | a row survives iff it is not the caller's row with that id; order is kept and other users' rows are untouched |
| `Backend.DeleteUndoesCreate` | app.py:216-219 | deleting a workout just created under a fresh id restores the table |
| `Backend.GetFavorites` | app.py:326-344 | 401 iff no user id; otherwise 200 with exactly the caller's favorite rows whose video exists, in storage order |
| `Backend.AddFavorite` | app.py:354-376 | 401 iff no user id, storing nothing; otherwise 201 and one more row for the pair, duplicates allowed |
| `Backend.RemoveFavorite` | app.py:386-399 | 401 iff no user id; otherwise 200 and the rows for the pair removed |
| `Backend.RemoveFavoriteSemantics` | app.py:396 | no row for the pair remains; every other row keeps its multiplicity and order |
| `Backend.RemoveUndoesAdd` | app.py:367-370 | adding then removing a pair equals removing it alone |
| `Backend.GetProfile` | app.py:411-422 | 404 iff no profile has that id; otherwise 200 with such a profile |
| `Backend.UpdateProfiles` | app.py:443-446 | rows with that id get the three new values (a missing key writes NULL); other rows are kept |
| `Backend.UpdateProfile` | app.py:432-452 | 403 iff the header is not the profile's own id, storing nothing; otherwise 200 and the update applied |
| `Backend.DeliveredAsReturnedIffValid` | app.py:39-64 | as written, the client receives exactly the handler's reply iff the request passed validation (signup, login, list and create workouts, update profile) |
| `Backend.MissingUserIdRefused` | app.py:183-185 | every route needing `X-User-ID` refuses a missing one with 401 and touches no table |
| `Backend.MissingUserIdDeliveredAs500` | app.py:197-200 | as written, those refusals reach the client as 500 |
| `Backend.SignupRefusalDeliveredAs500` | app.py:39-40 | as written, a signup missing a field reaches the client as 500 |
| `Backend.LoginRefusalDeliveredAs500` | app.py:73-74 | as written, a login without a username reaches the client as 500; an unknown username still gets 401 |
| `Backend.UpdateProfileRefusalDeliveredAs500` | app.py:435-437 | as written, an update of another user's profile reaches the client as 500 |

## Left out

- Rendering of HTML (`displayVideos`, `displayWorkouts`, `displayWorkoutDetails`, `updateAuthUI`, `updateFavoriteButton`, `updateWaterDisplay`) and page redirects: these are presentation only.
- Network transport, `async` interleaving and timers: each reply is a parameter, and a handler runs to completion. The 100 ms `setTimeout` before selecting a new workout is modelled as an immediate fetch request.
- `alert`, `confirm` and `console.error`: the answer to `confirm` is a parameter, and an alert is a returned flag where the model needs it.
- Videos.Matches: lowers only ASCII capitals, because Unicode case mapping is outside the model.
- SiteScript.WaterTracker.InitializeWaterIntake: restores only a stored plain decimal numeral. `parseInt`'s handling of signs, leading spaces, trailing junk and `NaN` is not modelled, and any other stored value leaves the intake unchanged.
- SiteScript.WaterPercentage: the value is exact. `Math.round` of the displayed text and floating-point rounding are left out.
- SiteScript.HandleLoginResponse: stores the reply's fields as strings. When the reply has no `access_token`, JavaScript stores the text "undefined"; that case is not modelled.
- `loadExercises`, `populateExerciseSelect`, `filterByCategory` and the page-load listeners: these only fetch or render lists, or navigate.
- The `get_exercises` and `get_workout` routes: they are JSON decoding and a `JOIN` ordered by `order_index`, and they sit outside this core. `profile.js` is not part of this model.
- Backend.GetFavorites: returns the favorite rows, not the merged favorite-and-video columns of the `JOIN`.
- Backend.Login, Backend.GetVideo, Backend.GetVideos, Backend.GetVideosAgreesWithPageFilter, Backend.GetUserWorkouts, Backend.GetFavorites, Backend.DeleteWorkout, Backend.DeleteWorkoutSemantics, Backend.RemoveFavorite, Backend.RemoveFavoriteSemantics, Backend.GetProfile and Backend.UpdateProfiles: SQL equality is exact string equality. MySQL collation, which may ignore case and trailing spaces, is not modelled. Under a case-insensitive collation `category = 'yoga'` also selects a 'Yoga' row, which the library page's strict comparison drops, so the agreement with the page holds only under a binary collation.
- Backend.Login, Backend.GetVideo and Backend.GetProfile: `fetchone` without `ORDER BY` is modelled as the first row in table order.
- Backend.GetVideos, Backend.GetVideosAgreesWithPageFilter, Backend.GetUserWorkouts and Backend.GetFavorites: a multi-row `SELECT` without `ORDER BY` is modelled as returning rows in storage (insertion) order. MySQL promises no order. InnoDB usually returns rows in primary-key order, which for UUID keys is not insertion order, so only which rows come back and how many times each appears carries over.
- Database errors (the `except Error` branch answering 500), connection failures and `get_db_connection` returning `None` are not modelled.
- UUID generation: each new id is a parameter. `CreateWorkout` states its reply only for an id no row already has.
- Backend.AddExerciseToWorkout: does not check that the workout belongs to the caller, because the route does not check it either.
- Python `request.json` being `None`: a missing body is not modelled, only missing keys within it.

## Findings

| source | as written | input that shows it | evidently intended | confidence | as-written member | corrected member |
|---|---|---|---|---|---|---|
| app.py:183-200 | the 401 for a missing `X-User-ID` returns before `connection` is bound; the `finally` block then reads `connection`, raises `UnboundLocalError`, and the client gets 500 | `GET /api/workouts` without an `X-User-ID` header | 401 "User ID required" | high, not executed | `Backend.MissingUserIdDeliveredAs500` | `Backend.MissingUserIdRefused` |
| app.py:39-64 | the 400 for a signup missing a field is replaced by a 500 in the same way | `POST /api/auth/signup` with body `{"email": "a@b.c"}` | 400 "Missing required fields" | high, not executed | `Backend.SignupRefusalDeliveredAs500` | `Backend.Signup` |
| app.py:73-95 | the 400 for a login without a username is replaced by a 500 in the same way | `POST /api/auth/login` with body `{"email": "a@b.c", "password": "x"}`, which is what the login form sends | 400 "Missing username" | high, not executed | `Backend.LoginRefusalDeliveredAs500` | `Backend.Login` |
| app.py:435-459 | the 403 for an update of another user's profile is replaced by a 500 in the same way | `PUT /api/profiles/u1` with header `X-User-ID: u2` | 403 "Unauthorized" | high, not executed | `Backend.UpdateProfileRefusalDeliveredAs500` | `Backend.UpdateProfile` |
