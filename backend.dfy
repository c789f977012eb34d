/** The Flask backend: request validation, the `get_videos` query builder, the rows the
    handlers insert and delete, and what the client receives. The MySQL tables are an
    in-memory value `Db`; every handler is a function from the request and the tables to the
    reply and the new tables. */
module Backend {
  import opened Wrappers
  import opened Text
  import opened Seqs
  import opened Catalog
  import Videos

  /** One key of a JSON request body: missing, `null`, or a value. */
  datatype Field<T> = Absent | Null | Given(value: T)

  /** Python's `data.get(key, default)`: the default stands in only for a missing key; a JSON
      `null` is `None` (SQL `NULL`). */
  function Get<T>(f: Field<T>, default: Option<T>): (r: Option<T>)
  {
    match f
    case Absent => default
    case Null => None
    case Given(v) => Some(v)
  }

  /** `not data.get(key)` is false: the key holds a non-empty string. */
  predicate Filled(f: Field<string>)
  {
    f.Given? && f.value != ""
  }

  datatype Profile = Profile(
    id: string,
    username: Option<string>,
    fullName: Option<string>,
    bio: Option<string>,
    avatarUrl: Option<string>)

  datatype WorkoutRow = WorkoutRow(
    id: string,
    userId: string,
    name: Option<string>,
    description: Option<string>,
    difficultyLevel: Option<string>,
    durationMinutes: Option<int>)

  datatype WorkoutExerciseRow = WorkoutExerciseRow(
    id: string,
    workoutId: string,
    exerciseId: Option<string>,
    sets: Option<int>,
    reps: Option<int>,
    restSeconds: Option<int>,
    orderIndex: Option<int>)

  datatype FavoriteRow = FavoriteRow(id: string, userId: string, videoId: Option<string>)

  /** The tables the handlers read and write, each in storage order. */
  datatype Db = Db(
    profiles: seq<Profile>,
    videos: seq<Video>,
    workouts: seq<WorkoutRow>,
    workoutExercises: seq<WorkoutExerciseRow>,
    favorites: seq<FavoriteRow>)

  /** The JSON a handler answers with. */
  datatype Payload =
    | Error(error: string)
    | Message(message: string)
    | UserId(message: string, userId: string)
    | VideoList(videos: seq<Video>)
    | OneVideo(video: Video)
    | WorkoutList(workouts: seq<WorkoutRow>)
    | OneWorkout(workout: Option<WorkoutRow>)
    | OneWorkoutExercise(workoutExercise: Option<WorkoutExerciseRow>)
    | FavoriteList(favorites: seq<FavoriteRow>)
    | OneFavorite(favorite: Option<FavoriteRow>)
    | OneProfile(profile: Option<Profile>)
    | InternalError   // Flask's own error page for an exception that escaped the handler

  datatype Reply = Reply(status: int, payload: Payload)

  /** What a handler did: the reply it returns, the tables after it, and whether the local
      `connection` had been bound when its `finally` block ran. */
  datatype Handled = Handled(reply: Reply, db: Db, connectionBound: bool)

  /** A validation failure: returned before `get_db_connection` is called. */
  function Refuse(status: int, error: string, db: Db): (h: Handled)
  {
    Handled(Reply(status, Error(error)), db, false)
  }

  /** A reply produced after the connection was opened. */
  function Answer(status: int, payload: Payload, db: Db): (h: Handled)
  {
    Handled(Reply(status, payload), db, true)
  }

  /** What the client receives from the code as written. Every handler's `finally` block reads
      `connection`; after an early return that variable is unbound, the read raises
      `UnboundLocalError`, the exception replaces the return value, and Flask answers 500. */
  function Deliver(h: Handled): (r: Reply)
    ensures h.connectionBound ==> r == h.reply
    ensures !h.connectionBound ==> r.status == 500 && r.payload == InternalError
  {
    if h.connectionBound then h.reply else Reply(500, InternalError)
  }

  // ==================== AUTHENTICATION ====================

  datatype SignupBody = SignupBody(email: Field<string>, password: Field<string>, username: Field<string>,
                                   fullName: Field<string>)

  /** `signup`: email, password and username must all be non-empty (400 otherwise, nothing
      stored); then one profile row is appended with the new id, the username, the full name
      (default '') and the email in the `bio` column; the password is not stored. */
  function Signup(body: SignupBody, newUserId: string, db: Db): (h: Handled)
    ensures h.reply.status == 400 <==> !(Filled(body.email) && Filled(body.password) && Filled(body.username))
    ensures h.reply.status == 400 ==> h.db == db && h.reply.payload == Error("Missing required fields")
    ensures h.reply.status != 400 ==>
      && h.reply == Reply(201, UserId("User created successfully", newUserId))
      && |h.db.profiles| == |db.profiles| + 1
      && h.db == db.(profiles := db.profiles + [h.db.profiles[|db.profiles|]])
      && var row := h.db.profiles[|db.profiles|];
         && row.id == newUserId && row.username == Some(body.username.value) && row.bio == Some(body.email.value)
         && row.fullName == (if body.fullName.Absent? then Some("") else Get(body.fullName, None))
         && row.avatarUrl == None
  {
    var email := Get(body.email, None);
    var password := Get(body.password, None);
    var username := Get(body.username, None);
    var fullName := Get(body.fullName, Some(""));
    if !Truthy(email) || !Truthy(password) || !Truthy(username) then
      Refuse(400, "Missing required fields", db)
    else
      var row := Profile(newUserId, username, fullName, email, None);
      Answer(201, UserId("User created successfully", newUserId), db.(profiles := db.profiles + [row]))
  }

  datatype LoginBody = LoginBody(username: Field<string>)

  /** `login`: 400 without a username; otherwise the first profile with that username logs in
      (200 and its id), and 401 when there is none. Nothing is written. */
  function Login(body: LoginBody, db: Db): (h: Handled)
    ensures h.db == db
    ensures h.reply.status in {200, 400, 401}
    ensures h.reply.status == 400 <==> !Filled(body.username)
    ensures h.reply.status == 401 <==>
      Filled(body.username) && forall i :: 0 <= i < |db.profiles| ==> db.profiles[i].username != Some(body.username.value)
    ensures h.reply.status == 200 ==>
      exists i :: 0 <= i < |db.profiles| && db.profiles[i].username == Some(body.username.value)
        && h.reply.payload == UserId("Login successful", db.profiles[i].id)
  {
    var username := Get(body.username, None);
    if !Truthy(username) then
      Refuse(400, "Missing username", db)
    else
      match FirstWhere(db.profiles, (p: Profile) => p.username == username)
      case Some(i) => Answer(200, UserId("Login successful", db.profiles[i].id), db)
      case None => Answer(401, Error("Invalid credentials"), db)
  }

  // ==================== VIDEOS ====================

  const SELECT_VIDEOS := "SELECT * FROM videos WHERE 1=1"

  /** One `AND column = %s` clause of a query, with the value bound to its placeholder. */
  datatype Condition = Condition(column: string, value: string)

  /** The clauses `get_videos` adds, in the order it adds them. */
  function VideoConditions(category: Option<string>, difficulty: Option<string>): (conds: seq<Condition>)
    ensures |conds| == (if Truthy(category) then 1 else 0) + (if Truthy(difficulty) then 1 else 0)
    ensures Truthy(category) ==> conds[0] == Condition("category", category.value)
    ensures Truthy(difficulty) ==> conds[|conds| - 1] == Condition("difficulty_level", difficulty.value)
  {
    (if Truthy(category) then [Condition("category", category.value)] else [])
    + (if Truthy(difficulty) then [Condition("difficulty_level", difficulty.value)] else [])
  }

  /** The text one clause adds to the query. */
  function ClauseText(c: Condition): (text: string)
  {
    " AND " + c.column + " = %s"
  }

  /** The text the clauses add to the query. */
  function WhereText(conds: seq<Condition>): (text: string)
  {
    if conds == [] then "" else ClauseText(conds[0]) + WhereText(conds[1..])
  }

  lemma CategoryClause(v: string)
    ensures ClauseText(Condition("category", v)) == " AND category = %s"
  {
  }

  lemma DifficultyClause(v: string)
    ensures ClauseText(Condition("difficulty_level", v)) == " AND difficulty_level = %s"
  {
  }

  /** Appending a clause appends its text and its parameter. */
  lemma {:induction false} AppendClause(conds: seq<Condition>, c: Condition)
    ensures WhereText(conds + [c]) == WhereText(conds) + ClauseText(c)
    ensures Values(conds + [c]) == Values(conds) + [c.value]
  {
    if conds == [] {
      assert ([] + [c])[1..] == [];
    } else {
      assert (conds + [c])[1..] == conds[1..] + [c];
      AppendClause(conds[1..], c);
    }
  }

  /** The parameters bound to the clauses, in clause order. */
  function Values(conds: seq<Condition>): (vs: seq<string>)
    ensures |vs| == |conds|
    ensures forall i :: 0 <= i < |conds| ==> vs[i] == conds[i].value
  {
    if conds == [] then [] else [conds[0].value] + Values(conds[1..])
  }

  /** The number of `%s` placeholders in a query whose only `%` signs are placeholders. */
  function Placeholders(query: string): (n: nat)
  {
    multiset(query)['%']
  }

  /** One clause brings one placeholder, provided its column name contains no `%`. */
  lemma ClausePlaceholders(column: string)
    requires '%' !in column
    ensures Placeholders(ClauseText(Condition(column, ""))) == 1
  {
    PlaceholdersAppend(" AND ", column);
    PlaceholdersAppend(" AND " + column, " = %s");
    NoPercentSign(" AND ");
    NoPercentSign(column);
    MarkerPlaceholders();
  }

  lemma MarkerPlaceholders()
    ensures Placeholders(" = %s") == 1
  {
    assert " = %s" == " = " + "%" + "s";
    PlaceholdersAppend(" = ", "%");
    PlaceholdersAppend(" = " + "%", "s");
    NoPercentSign(" = ");
    NoPercentSign("s");
  }

  /** Each clause brings exactly one placeholder, provided no column name contains `%`. */
  lemma {:induction false} WhereTextPlaceholders(conds: seq<Condition>)
    requires forall i :: 0 <= i < |conds| ==> '%' !in conds[i].column
    ensures Placeholders(WhereText(conds)) == |conds|
  {
    if conds != [] {
      WhereTextPlaceholders(conds[1..]);
      ClausePlaceholders(conds[0].column);
      assert ClauseText(conds[0]) == ClauseText(Condition(conds[0].column, ""));
    }
  }

  /** The query `get_videos` sends. */
  function VideosQuery(category: Option<string>, difficulty: Option<string>): (query: string)
  {
    SELECT_VIDEOS + WhereText(VideoConditions(category, difficulty))
  }

  /** The built query always starts with `SELECT * FROM videos WHERE 1=1` and carries exactly one
      placeholder per bound parameter. */
  lemma VideosQueryPlaceholders(category: Option<string>, difficulty: Option<string>)
    ensures SELECT_VIDEOS <= VideosQuery(category, difficulty)
    ensures Placeholders(VideosQuery(category, difficulty)) == |Values(VideoConditions(category, difficulty))|
  {
    var conds := VideoConditions(category, difficulty);
    var where := WhereText(conds);
    ConditionColumns(category, difficulty);
    WhereTextPlaceholders(conds);
    SelectHasNoPlaceholder();
    PlaceholdersAppend(SELECT_VIDEOS, where);
    assert VideosQuery(category, difficulty) == SELECT_VIDEOS + where;
  }

  lemma PlaceholdersAppend(a: string, b: string)
    ensures Placeholders(a + b) == Placeholders(a) + Placeholders(b)
    ensures a <= a + b
  {
    assert multiset(a + b) == multiset(a) + multiset(b);
  }

  lemma SelectHasNoPlaceholder()
    ensures Placeholders(SELECT_VIDEOS) == 0
  {
    NoPercentSign(SELECT_VIDEOS);
  }

  lemma NoPercentSign(s: string)
    requires '%' !in s
    ensures Placeholders(s) == 0
  {
  }

  lemma ConditionColumns(category: Option<string>, difficulty: Option<string>)
    ensures forall i :: 0 <= i < |VideoConditions(category, difficulty)| ==> '%' !in VideoConditions(category, difficulty)[i].column
  {
    assert '%' !in "category" && '%' !in "difficulty_level";
  }

  lemma QueryAppend(query: string, conds: seq<Condition>, c: Condition)
    requires query == SELECT_VIDEOS + WhereText(conds)
    ensures query + ClauseText(c) == SELECT_VIDEOS + WhereText(conds + [c])
    ensures Values(conds + [c]) == Values(conds) + [c.value]
  {
    AppendClause(conds, c);
    assert SELECT_VIDEOS + WhereText(conds) + ClauseText(c) == SELECT_VIDEOS + (WhereText(conds) + ClauseText(c));
  }

  /** `get_videos` builds its query by appending: a category clause comes before a difficulty
      clause, and each is present only when that argument is non-empty. */
  method BuildVideosQuery(category: Option<string>, difficulty: Option<string>) returns (query: string, params: seq<string>)
    ensures query == VideosQuery(category, difficulty)
    ensures params == Values(VideoConditions(category, difficulty))
  {
    query := SELECT_VIDEOS;
    params := [];
    ghost var conds: seq<Condition> := [];
    if Truthy(category) {
      QueryAppend(query, conds, Condition("category", category.value));
      CategoryClause(category.value);
      conds := conds + [Condition("category", category.value)];
      query := query + " AND category = %s";
      params := params + [category.value];
    }
    if Truthy(difficulty) {
      QueryAppend(query, conds, Condition("difficulty_level", difficulty.value));
      DifficultyClause(difficulty.value);
      conds := conds + [Condition("difficulty_level", difficulty.value)];
      query := query + " AND difficulty_level = %s";
      params := params + [difficulty.value];
    }
    assert conds == VideoConditions(category, difficulty);
  }

  /** The database's reading of one clause on one row. */
  predicate Meets(v: Video, c: Condition)
  {
    if c.column == "category" then v.category == c.value
    else if c.column == "difficulty_level" then v.difficultyLevel == c.value
    else false
  }

  /** The row filter of a `WHERE 1=1 AND ...` query. */
  function MeetsAll(conds: seq<Condition>): (p: Video -> bool)
  {
    (v: Video) => forall i :: 0 <= i < |conds| ==> Meets(v, conds[i])
  }

  /** `get_videos`: the rows of `videos` the built query selects, in table order. */
  function GetVideos(category: Option<string>, difficulty: Option<string>, db: Db): (h: Handled)
    ensures h.db == db && h.reply.status == 200 && h.reply.payload.VideoList?
    ensures IsSubsequence(h.reply.payload.videos, db.videos)
  {
    FilterIsSubsequence(db.videos, MeetsAll(VideoConditions(category, difficulty)));
    Answer(200, VideoList(Filter(db.videos, MeetsAll(VideoConditions(category, difficulty)))), db)
  }

  /** The server-side filter selects exactly what the library page's filter shows for the same
      category and difficulty and an empty search box. */
  lemma GetVideosAgreesWithPageFilter(category: Option<string>, difficulty: Option<string>, db: Db)
    ensures GetVideos(category, difficulty, db).reply.payload
      == VideoList(Videos.ApplyFilters(db.videos, Videos.Criteria(category.GetOr(""), difficulty.GetOr(""), "")))
  {
    var conds := VideoConditions(category, difficulty);
    var c := Videos.Criteria(category.GetOr(""), difficulty.GetOr(""), "");
    forall i | 0 <= i < |db.videos|
      ensures MeetsAll(conds)(db.videos[i]) == Videos.Matcher(c)(db.videos[i])
    {
      var v := db.videos[i];
      assert ToLower("") == "";
      if Truthy(category) && Truthy(difficulty) {
        assert conds == [Condition("category", category.value), Condition("difficulty_level", difficulty.value)];
        assert MeetsAll(conds)(v) == (Meets(v, conds[0]) && Meets(v, conds[1]));
      } else if Truthy(category) {
        assert conds == [Condition("category", category.value)];
      } else if Truthy(difficulty) {
        assert conds == [Condition("difficulty_level", difficulty.value)];
      } else {
        assert conds == [];
      }
    }
    FilterAgrees(db.videos, MeetsAll(conds), Videos.Matcher(c));
  }

  /** `get_video`: the first video with that id, or 404. */
  function GetVideo(videoId: string, db: Db): (h: Handled)
    ensures h.db == db
    ensures h.reply.status == 404 <==> forall i :: 0 <= i < |db.videos| ==> db.videos[i].id != videoId
    ensures h.reply.status != 404 ==>
      h.reply.status == 200 && h.reply.payload.OneVideo? && h.reply.payload.video in db.videos
      && h.reply.payload.video.id == videoId
  {
    match FirstWhere(db.videos, Videos.HasId(videoId))
    case Some(i) => Answer(200, OneVideo(db.videos[i]), db)
    case None => Answer(404, Error("Video not found"), db)
  }

  // ==================== WORKOUTS ====================

  const USER_ID_REQUIRED := "User ID required"

  /** `get_user_workouts`: 401 without a user id; otherwise that user's workouts. */
  function GetUserWorkouts(userHeader: Option<string>, db: Db): (h: Handled)
    ensures h.db == db
    ensures h.reply.status == 401 <==> !Truthy(userHeader)
    ensures h.reply.status != 401 ==>
      && h.reply.status == 200 && h.reply.payload.WorkoutList?
      && (forall w :: w in h.reply.payload.workouts <==> w in db.workouts && w.userId == userHeader.value)
  {
    if !Truthy(userHeader) then Refuse(401, USER_ID_REQUIRED, db)
    else
      var owned := (w: WorkoutRow) => w.userId == userHeader.value;
      var rows := Filter(db.workouts, owned);
      assert forall w :: w in rows <==> w in db.workouts && owned(w) by {
        forall w ensures w in rows <==> w in db.workouts && owned(w) {
          FilterMembership(db.workouts, owned, w);
        }
      }
      Answer(200, WorkoutList(rows), db)
  }

  datatype WorkoutBody = WorkoutBody(name: Field<string>, description: Field<string>,
                                     difficultyLevel: Field<string>, durationMinutes: Field<int>)

  /** The row `create_workout` inserts: description defaults to '', difficulty to 'beginner' and
      duration to 30, each only for a missing key; a value sent is stored as sent, and an explicit
      `null` is stored as `NULL`. */
  function NewWorkoutRow(workoutId: string, userId: string, body: WorkoutBody): (row: WorkoutRow)
    ensures row.id == workoutId && row.userId == userId
    ensures row.name == (if body.name.Given? then Some(body.name.value) else None)
    ensures body.description.Absent? ==> row.description == Some("")
    ensures body.description.Null? ==> row.description == None
    ensures body.description.Given? ==> row.description == Some(body.description.value)
    ensures body.difficultyLevel.Absent? ==> row.difficultyLevel == Some("beginner")
    ensures body.difficultyLevel.Null? ==> row.difficultyLevel == None
    ensures body.difficultyLevel.Given? ==> row.difficultyLevel == Some(body.difficultyLevel.value)
    ensures body.durationMinutes.Absent? ==> row.durationMinutes == Some(30)
    ensures body.durationMinutes.Null? ==> row.durationMinutes == None
    ensures body.durationMinutes.Given? ==> row.durationMinutes == Some(body.durationMinutes.value)
  {
    WorkoutRow(workoutId, userId, Get(body.name, None), Get(body.description, Some("")),
               Get(body.difficultyLevel, Some("beginner")), Get(body.durationMinutes, Some(30)))
  }

  /** `create_workout`: 401 without a user id and nothing written; otherwise the new row is
      appended and the row stored under the new id is returned with 201. */
  function CreateWorkout(userHeader: Option<string>, body: WorkoutBody, workoutId: string, db: Db): (h: Handled)
    ensures h.reply.status == 401 <==> !Truthy(userHeader)
    ensures h.reply.status == 401 ==> h.db == db
    ensures h.reply.status != 401 ==>
      && h.reply.status == 201
      && h.db == db.(workouts := db.workouts + [NewWorkoutRow(workoutId, userHeader.value, body)])
    ensures h.reply.status != 401 && (forall i :: 0 <= i < |db.workouts| ==> db.workouts[i].id != workoutId) ==>
      h.reply.payload == OneWorkout(Some(NewWorkoutRow(workoutId, userHeader.value, body)))
  {
    if !Truthy(userHeader) then Refuse(401, USER_ID_REQUIRED, db)
    else
      var workouts := db.workouts + [NewWorkoutRow(workoutId, userHeader.value, body)];
      var hasId := (w: WorkoutRow) => w.id == workoutId;
      var found := FirstWhere(workouts, hasId);
      assert hasId(workouts[|db.workouts|]);
      assert (forall i :: 0 <= i < |db.workouts| ==> db.workouts[i].id != workoutId) ==>
        found == Some(|db.workouts|) by {
        if forall i :: 0 <= i < |db.workouts| ==> db.workouts[i].id != workoutId {
          assert forall i :: 0 <= i < |db.workouts| ==> !hasId(workouts[i]);
        }
      }
      var stored := match found
        case Some(i) => Some(workouts[i])
        case None => None;
      Answer(201, OneWorkout(stored), db.(workouts := workouts))
  }

  datatype ExerciseBody = ExerciseBody(exerciseId: Field<string>, sets: Field<int>, reps: Field<int>,
                                       restSeconds: Field<int>, orderIndex: Field<int>)

  /** The row `add_exercise_to_workout` inserts: sets default to 3, reps to 10, rest to 60 seconds
      and the order index to 0, each only for a missing key; a value sent is stored as sent, and an
      explicit `null` is stored as `NULL`. */
  function NewWorkoutExerciseRow(rowId: string, workoutId: string, body: ExerciseBody): (row: WorkoutExerciseRow)
    ensures row.id == rowId && row.workoutId == workoutId
    ensures row.exerciseId == (if body.exerciseId.Given? then Some(body.exerciseId.value) else None)
    ensures body.sets.Absent? ==> row.sets == Some(3)
    ensures body.sets.Null? ==> row.sets == None
    ensures body.sets.Given? ==> row.sets == Some(body.sets.value)
    ensures body.reps.Absent? ==> row.reps == Some(10)
    ensures body.reps.Null? ==> row.reps == None
    ensures body.reps.Given? ==> row.reps == Some(body.reps.value)
    ensures body.restSeconds.Absent? ==> row.restSeconds == Some(60)
    ensures body.restSeconds.Null? ==> row.restSeconds == None
    ensures body.restSeconds.Given? ==> row.restSeconds == Some(body.restSeconds.value)
    ensures body.orderIndex.Absent? ==> row.orderIndex == Some(0)
    ensures body.orderIndex.Null? ==> row.orderIndex == None
    ensures body.orderIndex.Given? ==> row.orderIndex == Some(body.orderIndex.value)
  {
    WorkoutExerciseRow(rowId, workoutId, Get(body.exerciseId, None), Get(body.sets, Some(3)),
                       Get(body.reps, Some(10)), Get(body.restSeconds, Some(60)), Get(body.orderIndex, Some(0)))
  }

  /** `add_exercise_to_workout`: 401 without a user id; otherwise the row is appended and the row
      stored under the new id is returned with 201 (the workout's owner is not checked). */
  function AddExerciseToWorkout(userHeader: Option<string>, workoutId: string, body: ExerciseBody,
                                rowId: string, db: Db): (h: Handled)
    ensures h.reply.status == 401 <==> !Truthy(userHeader)
    ensures h.reply.status == 401 ==> h.db == db
    ensures h.reply.status != 401 ==>
      && h.reply.status == 201
      && h.db == db.(workoutExercises := db.workoutExercises + [NewWorkoutExerciseRow(rowId, workoutId, body)])
  {
    if !Truthy(userHeader) then Refuse(401, USER_ID_REQUIRED, db)
    else
      var rows := db.workoutExercises + [NewWorkoutExerciseRow(rowId, workoutId, body)];
      var stored := match FirstWhere(rows, (r: WorkoutExerciseRow) => r.id == rowId)
        case Some(i) => Some(rows[i])
        case None => None;
      Answer(201, OneWorkoutExercise(stored), db.(workoutExercises := rows))
  }

  /** The rows `DELETE FROM workouts WHERE id = %s AND user_id = %s` keeps. */
  function KeptWorkout(workoutId: string, userId: string): (p: WorkoutRow -> bool)
  {
    (w: WorkoutRow) => !(w.id == workoutId && w.userId == userId)
  }

  /** `delete_workout`: 401 without a user id; otherwise the rows with that id owned by the caller
      are deleted (possibly none) and the answer is 200 either way. */
  function DeleteWorkout(userHeader: Option<string>, workoutId: string, db: Db): (h: Handled)
    ensures h.reply.status == 401 <==> !Truthy(userHeader)
    ensures h.reply.status == 401 ==> h.db == db
    ensures h.reply.status != 401 ==>
      h.reply == Reply(200, Message("Workout deleted"))
      && h.db == db.(workouts := Filter(db.workouts, KeptWorkout(workoutId, userHeader.value)))
  {
    if !Truthy(userHeader) then Refuse(401, USER_ID_REQUIRED, db)
    else Answer(200, Message("Workout deleted"), db.(workouts := Filter(db.workouts, KeptWorkout(workoutId, userHeader.value))))
  }

  /** A row survives `delete_workout` iff it does not both carry that id and belong to the caller;
      the survivors keep their order, and every other user's rows are exactly as before. */
  lemma DeleteWorkoutSemantics(userId: string, workoutId: string, db: Db, w: WorkoutRow, other: string)
    requires userId != "" && other != userId
    ensures var after := DeleteWorkout(Some(userId), workoutId, db).db.workouts;
      && (w in after <==> w in db.workouts && !(w.id == workoutId && w.userId == userId))
      && IsSubsequence(after, db.workouts)
      && Filter(after, (r: WorkoutRow) => r.userId == other) == Filter(db.workouts, (r: WorkoutRow) => r.userId == other)
  {
    var keep := KeptWorkout(workoutId, userId);
    FilterMembership(db.workouts, keep, w);
    FilterIsSubsequence(db.workouts, keep);
    FilterOfFilter(db.workouts, keep, (r: WorkoutRow) => r.userId == other);
  }

  /** A workout created and then deleted by the same user, under an id no row had, leaves the
      workouts table as it was. */
  lemma DeleteUndoesCreate(userId: string, body: WorkoutBody, workoutId: string, db: Db)
    requires userId != ""
    requires forall i :: 0 <= i < |db.workouts| ==> db.workouts[i].id != workoutId
    ensures DeleteWorkout(Some(userId), workoutId, CreateWorkout(Some(userId), body, workoutId, db).db).db == db
  {
    var keep := KeptWorkout(workoutId, userId);
    var row := NewWorkoutRow(workoutId, userId, body);
    FilterAppend(db.workouts, row, keep);
    FilterKeepsAll(db.workouts, keep);
  }

  // ==================== FAVORITES ====================

  /** `get_favorites`: 401 without a user id; otherwise the caller's favorite rows whose video
      exists (the inner join with `videos`). */
  function GetFavorites(userHeader: Option<string>, db: Db): (h: Handled)
    ensures h.db == db
    ensures h.reply.status == 401 <==> !Truthy(userHeader)
    ensures h.reply.status != 401 ==>
      && h.reply.status == 200 && h.reply.payload.FavoriteList?
      && IsSubsequence(h.reply.payload.favorites, db.favorites)
      && (forall f :: f in h.reply.payload.favorites <==>
            f in db.favorites && f.userId == userHeader.value && VideoExists(db.videos, f.videoId))
  {
    if !Truthy(userHeader) then Refuse(401, USER_ID_REQUIRED, db)
    else
      var listed := Listed(userHeader.value, db.videos);
      var rows := Filter(db.favorites, listed);
      FilterIsSubsequence(db.favorites, listed);
      assert forall f :: f in rows <==> f in db.favorites && listed(f) by {
        forall f ensures f in rows <==> f in db.favorites && listed(f) {
          FilterMembership(db.favorites, listed, f);
        }
      }
      Answer(200, FavoriteList(rows), db)
  }

  /** `JOIN videos v ON vf.video_id = v.id`: the favorite's video is in the table. */
  predicate VideoExists(videos: seq<Video>, videoId: Option<string>)
  {
    exists i :: 0 <= i < |videos| && Some(videos[i].id) == videoId
  }

  /** The rows `get_favorites` selects for one user. */
  function Listed(userId: string, videos: seq<Video>): (p: FavoriteRow -> bool)
  {
    (f: FavoriteRow) => f.userId == userId && VideoExists(videos, f.videoId)
  }

  datatype FavoriteBody = FavoriteBody(videoId: Field<string>)

  /** `add_favorite`: 401 without a user id; otherwise one more row for the pair is appended,
      whether or not the pair was already a favorite. */
  function AddFavorite(userHeader: Option<string>, body: FavoriteBody, favoriteId: string, db: Db): (h: Handled)
    ensures h.reply.status == 401 <==> !Truthy(userHeader)
    ensures h.reply.status == 401 ==> h.db == db
    ensures h.reply.status != 401 ==>
      && h.reply.status == 201
      && h.db == db.(favorites := db.favorites + [FavoriteRow(favoriteId, userHeader.value, Get(body.videoId, None))])
  {
    if !Truthy(userHeader) then Refuse(401, USER_ID_REQUIRED, db)
    else
      var rows := db.favorites + [FavoriteRow(favoriteId, userHeader.value, Get(body.videoId, None))];
      var stored := match FirstWhere(rows, (f: FavoriteRow) => f.id == favoriteId)
        case Some(i) => Some(rows[i])
        case None => None;
      Answer(201, OneFavorite(stored), db.(favorites := rows))
  }

  /** The rows `DELETE FROM video_favorites WHERE user_id = %s AND video_id = %s` keeps. */
  function KeptFavorite(userId: string, videoId: string): (p: FavoriteRow -> bool)
  {
    (f: FavoriteRow) => !(f.userId == userId && f.videoId == Some(videoId))
  }

  /** `remove_favorite`: 401 without a user id; otherwise every row for the pair is deleted and the
      answer is 200 either way. */
  function RemoveFavorite(userHeader: Option<string>, videoId: string, db: Db): (h: Handled)
    ensures h.reply.status == 401 <==> !Truthy(userHeader)
    ensures h.reply.status == 401 ==> h.db == db
    ensures h.reply.status != 401 ==>
      h.reply == Reply(200, Message("Favorite removed"))
      && h.db == db.(favorites := Filter(db.favorites, KeptFavorite(userHeader.value, videoId)))
  {
    if !Truthy(userHeader) then Refuse(401, USER_ID_REQUIRED, db)
    else Answer(200, Message("Favorite removed"), db.(favorites := Filter(db.favorites, KeptFavorite(userHeader.value, videoId))))
  }

  /** After `remove_favorite` no row for the pair is left, every other row is kept in order. */
  lemma RemoveFavoriteSemantics(userId: string, videoId: string, db: Db, f: FavoriteRow)
    requires userId != ""
    ensures var after := RemoveFavorite(Some(userId), videoId, db).db.favorites;
      && (f in after <==> f in db.favorites && !(f.userId == userId && f.videoId == Some(videoId)))
      && IsSubsequence(after, db.favorites)
      && multiset(after)[f] == if f.userId == userId && f.videoId == Some(videoId) then 0 else multiset(db.favorites)[f]
  {
    var keep := KeptFavorite(userId, videoId);
    FilterMembership(db.favorites, keep, f);
    FilterIsSubsequence(db.favorites, keep);
    FilterMultiplicity(db.favorites, keep, f);
  }

  /** However many times a video was added, one removal clears the pair: adding and then removing
      leaves the table as removing alone would. */
  lemma RemoveUndoesAdd(userId: string, videoId: string, favoriteId: string, db: Db)
    requires userId != ""
    ensures var added := AddFavorite(Some(userId), FavoriteBody(Given(videoId)), favoriteId, db).db;
      RemoveFavorite(Some(userId), videoId, added).db == RemoveFavorite(Some(userId), videoId, db).db
  {
    FilterAppend(db.favorites, FavoriteRow(favoriteId, userId, Some(videoId)), KeptFavorite(userId, videoId));
  }

  // ==================== PROFILES ====================

  /** `get_profile`: the first profile with that id, or 404. */
  function GetProfile(userId: string, db: Db): (h: Handled)
    ensures h.db == db
    ensures h.reply.status == 404 <==> forall i :: 0 <= i < |db.profiles| ==> db.profiles[i].id != userId
    ensures h.reply.status != 404 ==>
      && h.reply.status == 200 && h.reply.payload.OneProfile?
      && h.reply.payload.profile.Some? && h.reply.payload.profile.value in db.profiles
      && h.reply.payload.profile.value.id == userId
  {
    match FirstWhere(db.profiles, (p: Profile) => p.id == userId)
    case Some(i) => Answer(200, OneProfile(Some(db.profiles[i])), db)
    case None => Answer(404, Error("Profile not found"), db)
  }

  datatype ProfileBody = ProfileBody(fullName: Field<string>, bio: Field<string>, avatarUrl: Field<string>)

  /** `UPDATE profiles SET full_name = %s, bio = %s, avatar_url = %s WHERE id = %s`: every row with
      that id gets the three new values (a missing key writes `NULL`); every other row is kept. */
  function UpdateProfiles(profiles: seq<Profile>, userId: string, body: ProfileBody): (r: seq<Profile>)
    ensures |r| == |profiles|
    ensures forall i :: 0 <= i < |profiles| && profiles[i].id != userId ==> r[i] == profiles[i]
    ensures forall i :: 0 <= i < |profiles| && profiles[i].id == userId ==>
      r[i] == Profile(userId, profiles[i].username, Get(body.fullName, None), Get(body.bio, None), Get(body.avatarUrl, None))
  {
    if profiles == [] then []
    else
      var p := profiles[0];
      var p' := if p.id == userId then p.(fullName := Get(body.fullName, None), bio := Get(body.bio, None),
                                          avatarUrl := Get(body.avatarUrl, None))
                else p;
      [p'] + UpdateProfiles(profiles[1..], userId, body)
  }

  /** `update_profile`: 403 unless the `X-User-ID` header is the profile's own id (a missing header
      is refused too); otherwise the update is applied and the stored profile, if any, returned. */
  function UpdateProfile(userHeader: Option<string>, userId: string, body: ProfileBody, db: Db): (h: Handled)
    ensures h.reply.status == 403 <==> userHeader != Some(userId)
    ensures h.reply.status == 403 ==> h.db == db
    ensures h.reply.status != 403 ==>
      h.reply.status == 200 && h.db == db.(profiles := UpdateProfiles(db.profiles, userId, body))
  {
    if userHeader != Some(userId) then Refuse(403, "Unauthorized", db)
    else
      var profiles := UpdateProfiles(db.profiles, userId, body);
      var stored := match FirstWhere(profiles, (p: Profile) => p.id == userId)
        case Some(i) => Some(profiles[i])
        case None => None;
      Answer(200, OneProfile(stored), db.(profiles := profiles))
  }

  // ==================== THE EARLY RETURNS AS DELIVERED ====================

  /** Every route that needs `X-User-ID` refuses a request without one with 401, before it
      touches a table. */
  lemma MissingUserIdRefused(userHeader: Option<string>, db: Db, workoutId: string, videoId: string, rowId: string,
                             workout: WorkoutBody, exercise: ExerciseBody, favorite: FavoriteBody)
    requires !Truthy(userHeader)
    ensures var hs := [GetUserWorkouts(userHeader, db), CreateWorkout(userHeader, workout, rowId, db),
                       AddExerciseToWorkout(userHeader, workoutId, exercise, rowId, db),
                       DeleteWorkout(userHeader, workoutId, db), GetFavorites(userHeader, db),
                       AddFavorite(userHeader, favorite, rowId, db), RemoveFavorite(userHeader, videoId, db)];
      forall i :: 0 <= i < |hs| ==> hs[i].reply == Reply(401, Error(USER_ID_REQUIRED)) && hs[i].db == db
  {
  }

  /** As written, those same requests are answered 500: each of those returns happens before
      `connection` is bound. */
  lemma MissingUserIdDeliveredAs500(userHeader: Option<string>, db: Db, workoutId: string, videoId: string, rowId: string,
                                    workout: WorkoutBody, exercise: ExerciseBody, favorite: FavoriteBody)
    requires !Truthy(userHeader)
    ensures var hs := [GetUserWorkouts(userHeader, db), CreateWorkout(userHeader, workout, rowId, db),
                       AddExerciseToWorkout(userHeader, workoutId, exercise, rowId, db),
                       DeleteWorkout(userHeader, workoutId, db), GetFavorites(userHeader, db),
                       AddFavorite(userHeader, favorite, rowId, db), RemoveFavorite(userHeader, videoId, db)];
      forall i :: 0 <= i < |hs| ==> Deliver(hs[i]).status == 500
  {
  }

  /** As written, the client receives exactly what a handler returns iff the request passed the
      handler's validation; every refused request reaches it as something else. */
  lemma DeliveredAsReturnedIffValid(body: SignupBody, login: LoginBody, userHeader: Option<string>,
                                                       userId: string, profile: ProfileBody, workout: WorkoutBody,
                                                       rowId: string, db: Db)
    ensures var h := Signup(body, rowId, db);
      Deliver(h) == h.reply <==> Filled(body.email) && Filled(body.password) && Filled(body.username)
    ensures var h := Login(login, db);
      Deliver(h) == h.reply <==> Filled(login.username)
    ensures var h := GetUserWorkouts(userHeader, db);
      Deliver(h) == h.reply <==> Truthy(userHeader)
    ensures var h := CreateWorkout(userHeader, workout, rowId, db);
      Deliver(h) == h.reply <==> Truthy(userHeader)
    ensures var h := UpdateProfile(userHeader, userId, profile, db);
      Deliver(h) == h.reply <==> userHeader == Some(userId)
  {
  }

  /** As written, a signup with a missing field is answered 500, not 400. */
  lemma SignupRefusalDeliveredAs500(body: SignupBody, newUserId: string, db: Db)
    requires !(Filled(body.email) && Filled(body.password) && Filled(body.username))
    ensures Signup(body, newUserId, db).reply.status == 400
    ensures Deliver(Signup(body, newUserId, db)).status == 500
  {
  }

  /** As written, a login without a username is answered 500, not 400; an unknown username still
      gets its 401, since that answer comes after the connection is opened. */
  lemma LoginRefusalDeliveredAs500(body: LoginBody, db: Db)
    ensures !Filled(body.username) ==> Deliver(Login(body, db)).status == 500
    ensures Filled(body.username) ==> Deliver(Login(body, db)) == Login(body, db).reply
  {
  }

  /** As written, an update of somebody else's profile is answered 500, not 403. */
  lemma UpdateProfileRefusalDeliveredAs500(userHeader: Option<string>, userId: string, body: ProfileBody, db: Db)
    requires userHeader != Some(userId)
    ensures UpdateProfile(userHeader, userId, body, db).reply.status == 403
    ensures Deliver(UpdateProfile(userHeader, userId, body, db)).status == 500
  {
  }
}
