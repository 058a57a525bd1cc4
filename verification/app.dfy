/** app.py: the rules the Flask handlers apply before they touch the
    database. The SQLAlchemy tables become three maps keyed by the
    auto-incremented ids; every handler is a method of `Database` that
    reports what it flashed as an `Outcome`. */
module App {
  import opened Common
  import opened Models

  /** `bool(request.form.get(field))`: a field is truthy when it was sent and
      is not empty. */
  predicate Truthy(field: Option<string>) {
    field.Some? && field.value != ""
  }

  // ---------------------------------------------------------------------
  // log_time: validation of the submitted form
  // ---------------------------------------------------------------------

  /** The five messages `log_time` can flash instead of saving. */
  datatype LogTimeError =
    | NoProjectSelected   // the project field is missing or empty
    | InvalidNumber       // int() or float() raised ValueError
    | MissingFields       // project id 0, hours <= 0, or no date
    | InvalidDateFormat   // strptime(date, '%Y-%m-%d') raised ValueError
    | UnknownProject      // no project with that id

  /** The submitted form. The text fields are what `request.form.get`
      returned; `projectId`, `hours` and `date` are what `int(...)`,
      `float(request.form.get('hours', 0))` and `strptime(...)` made of them,
      None standing for the ValueError they raised. */
  datatype LogTimeForm = LogTimeForm(
    projectIdField: Option<string>,
    projectId: Option<int>,
    hours: Option<real>,
    dateField: Option<string>,
    date: Option<Date>,
    notes: string)

  /** A form that passed every check. */
  datatype LoggedTime = LoggedTime(projectId: int, hours: real, date: Date, notes: string)

  /** The checks of `log_time`, in the order the handler makes them;
      `projectIds` are the ids `Project.query.get` can find. */
  function ValidateLogTime(form: LogTimeForm, projectIds: set<int>): (r: Result<LoggedTime, LogTimeError>)
    ensures r.Ok? <==>
      Truthy(form.projectIdField) && form.projectId.Some? && form.hours.Some?
      && form.projectId.value != 0 && form.hours.value > 0.0
      && Truthy(form.dateField) && form.date.Some?
      && form.projectId.value in projectIds
    ensures r.Ok? ==> r.value == LoggedTime(form.projectId.value, form.hours.value, form.date.value, form.notes)
    ensures r == Err(NoProjectSelected) <==> !Truthy(form.projectIdField)
    ensures r == Err(UnknownProject) ==> form.projectId.Some? && form.projectId.value !in projectIds
  {
    if !Truthy(form.projectIdField) then Err(NoProjectSelected)
    else if form.projectId.None? || form.hours.None? then Err(InvalidNumber)
    else if form.projectId.value == 0 || form.hours.value <= 0.0 || !Truthy(form.dateField) then Err(MissingFields)
    else if form.date.None? then Err(InvalidDateFormat)
    else if form.projectId.value !in projectIds then Err(UnknownProject)
    else Ok(LoggedTime(form.projectId.value, form.hours.value, form.date.value, form.notes))
  }

  // ---------------------------------------------------------------------
  // log_time: the row it inserts
  // ---------------------------------------------------------------------

  /** A `TimeEntry()` object before it is flushed: the columns the handler
      may leave unset are optional here. */
  datatype PendingEntry = PendingEntry(
    userId: int, projectId: int, hours: real,
    month: Option<int>, year: Option<int>, date: Option<Date>, notes: string)

  /** What the commit does with a pending row: `month` and `year` are NOT
      NULL columns without a default (models.py), so a row missing either
      is refused and the session rolled back. */
  function Stored(p: PendingEntry): (r: Option<TimeEntry>)
    ensures r.Some? <==> p.month.Some? && p.year.Some?
    ensures r.Some? ==>
      (r.value.userId == p.userId && r.value.projectId == p.projectId
       && r.value.hours == p.hours && r.value.date == p.date && r.value.notes == p.notes
       && r.value.month == p.month.value && r.value.year == p.year.value)
    ensures r.Some? ==> r.value.startDate.None? && r.value.endDate.None?
  {
    if p.month.Some? && p.year.Some? then
      Some(TimeEntry(p.userId, p.projectId, p.hours, p.month.value, p.year.value, None, None, p.date, p.notes))
    else None
  }

  /** The row `log_time` builds as written: user, project, hours, date and
      notes are set, `month` and `year` are not. */
  function LogTimeRowAsWritten(userId: int, t: LoggedTime): PendingEntry {
    PendingEntry(userId, t.projectId, t.hours, None, None, Some(t.date), t.notes)
  }

  /** As written, no valid form is ever stored: every commit of `log_time`
      violates the NOT NULL constraint on `month`. */
  lemma LogTimeAsWrittenNeverStored(userId: int, t: LoggedTime)
    ensures Stored(LogTimeRowAsWritten(userId, t)).None?
  {
  }

  /** One concrete submission that shows it: 2.5 hours on project 1 on
      14 March 2025 passes every check and is still refused. */
  lemma LogTimeAsWrittenExample()
    ensures var form := LogTimeForm(Some("1"), Some(1), Some(2.5), Some("2025-03-14"), Some(Date(2025, 3, 14)), "");
      var v := ValidateLogTime(form, {1});
      v.Ok? && Stored(LogTimeRowAsWritten(7, v.value)).None?
  {
  }

  /** The row as intended: `month` and `year` are taken from the logged
      date, which the display code prefers. */
  function LogTimeRow(userId: int, t: LoggedTime): PendingEntry {
    PendingEntry(userId, t.projectId, t.hours, Some(t.date.month), Some(t.date.year), Some(t.date), t.notes)
  }

  /** The intended row is stored, keeps what the user submitted, and is
      displayed as the month and year of its date. */
  lemma LogTimeRowStored(userId: int, t: LoggedTime)
    requires ValidDate(t.date)
    ensures Stored(LogTimeRow(userId, t)).Some?
    ensures var e := Stored(LogTimeRow(userId, t)).value;
      e.userId == userId && e.projectId == t.projectId && e.hours == t.hours
      && e.date == Some(t.date) && e.notes == t.notes
      && DatesValid(e) && DisplayDate(e) == DisplayMonth(t.date.month, t.date.year)
  {
  }

  /** The entry `log_time` (corrected) saves for `userId`. */
  function NewEntry(userId: int, t: LoggedTime): (e: TimeEntry)
    ensures e.userId == userId && e.projectId == t.projectId && e.hours == t.hours
    ensures e.month == t.date.month && e.year == t.date.year && e.date == Some(t.date)
    ensures e.notes == t.notes
    ensures e.startDate.None? && e.endDate.None?
  {
    Stored(LogTimeRow(userId, t)).value
  }

  // ---------------------------------------------------------------------
  // dashboard: hours per project for the current user
  // ---------------------------------------------------------------------

  /** `TimeEntry.query.filter_by(user_id=userId)`: the user's rows, in
      their order. Every row it returns is a stored row of the user, and
      every stored row of the user is returned. This is `Filter` with the
      user test written out, which keeps the dashboard's proofs within the
      solver's budget; RowsOfKeepsOrder shows the two agree. */
  function RowsOf(rows: seq<TimeEntry>, userId: int): (r: seq<TimeEntry>)
    ensures |r| <= |rows|
    ensures forall i :: 0 <= i < |r| ==> r[i] in rows && r[i].userId == userId
    ensures forall i :: 0 <= i < |rows| && rows[i].userId == userId ==> rows[i] in r
  {
    if rows == [] then []
    else
      var last := rows[|rows| - 1];
      var init := RowsOf(rows[..|rows| - 1], userId);
      assert forall i :: 0 <= i < |rows| - 1 ==> rows[i] == rows[..|rows| - 1][i];
      init + (if last.userId == userId then [last] else [])
  }

  /** The test of `filter_by(user_id=userId)`. */
  function OfUser(userId: int): TimeEntry -> bool {
    (e: TimeEntry) => e.userId == userId
  }

  /** The user's rows are the stored rows filtered by user, so they keep
      their stored order. */
  lemma {:induction false} RowsOfKeepsOrder(rows: seq<TimeEntry>, userId: int)
    ensures RowsOf(rows, userId) == Filter(rows, OfUser(userId))
    decreases |rows|
  {
    if rows != [] {
      var n := |rows| - 1;
      assert rows == rows[..n] + [rows[n]];
      RowsOfKeepsOrder(rows[..n], userId);
      FilterAppend(rows[..n], [rows[n]], OfUser(userId));
      assert [rows[n]][1..] == [];
    }
  }

  /** What one row adds to the hours of `userId` on `projectId`. */
  function Share(e: TimeEntry, userId: int, projectId: int): real {
    if e.userId == userId && e.projectId == projectId then e.hours else 0.0
  }

  /** The hours `userId` logged on `projectId` among `rows`. */
  function Total(rows: seq<TimeEntry>, userId: int, projectId: int): real {
    if rows == [] then 0.0
    else Total(rows[..|rows| - 1], userId, projectId) + Share(rows[|rows| - 1], userId, projectId)
  }

  /** Some row of `userId` is on `projectId`. */
  predicate Logged(rows: seq<TimeEntry>, userId: int, projectId: int) {
    exists i :: 0 <= i < |rows| && rows[i].userId == userId && rows[i].projectId == projectId
  }

  lemma {:induction false} TotalAppend(a: seq<TimeEntry>, b: seq<TimeEntry>, userId: int, projectId: int)
    ensures Total(a + b, userId, projectId) == Total(a, userId, projectId) + Total(b, userId, projectId)
    decreases |b|
  {
    if b == [] {
      assert a + b == a;
    } else {
      var n := |b| - 1;
      assert (a + b)[..|a + b| - 1] == a + b[..n];
      assert (a + b)[|a + b| - 1] == b[n];
      TotalAppend(a, b[..n], userId, projectId);
    }
  }

  /** Rows of other users, or on other projects, add nothing. */
  lemma {:induction false} TotalWithout(rows: seq<TimeEntry>, userId: int, projectId: int)
    requires !Logged(rows, userId, projectId)
    ensures Total(rows, userId, projectId) == 0.0
    decreases |rows|
  {
    if rows != [] {
      var n := |rows| - 1;
      assert !Logged(rows[..n], userId, projectId) by {
        forall i | 0 <= i < n
          ensures !(rows[..n][i].userId == userId && rows[..n][i].projectId == projectId)
        {
          assert rows[..n][i] == rows[i];
        }
      }
      TotalWithout(rows[..n], userId, projectId);
    }
  }

  /** The query order of the rows does not matter: any permutation of the
      rows gives the same totals. */
  lemma {:induction false} TotalPermutation(a: seq<TimeEntry>, b: seq<TimeEntry>, userId: int, projectId: int)
    requires multiset(a) == multiset(b)
    ensures Total(a, userId, projectId) == Total(b, userId, projectId)
    decreases |a|
  {
    if a == [] {
      assert b == [] by {
        assert |multiset(b)| == 0;
      }
    } else {
      var n := |a| - 1;
      var x := a[n];
      assert a == a[..n] + [x];
      assert x in multiset(b);
      var j :| 0 <= j < |b| && b[j] == x;
      var rest := b[..j] + b[j + 1..];
      assert b == b[..j] + [x] + b[j + 1..];
      assert multiset(a[..n]) == multiset(a) - multiset{x};
      assert multiset(rest) == multiset(b) - multiset{x};
      TotalPermutation(a[..n], rest, userId, projectId);
      TotalSnoc(a[..n], x, userId, projectId);
      TotalAppend(b[..j] + [x], b[j + 1..], userId, projectId);
      TotalSnoc(b[..j], x, userId, projectId);
      TotalAppend(b[..j], b[j + 1..], userId, projectId);
    }
  }

  /** When every logged duration is positive (as `log_time` ensures), every
      project shown on the dashboard has a positive total. */
  lemma {:induction false} TotalPositive(rows: seq<TimeEntry>, userId: int, projectId: int)
    requires forall i :: 0 <= i < |rows| ==> rows[i].hours > 0.0
    requires Logged(rows, userId, projectId)
    ensures Total(rows, userId, projectId) > 0.0
    decreases |rows|
  {
    var n := |rows| - 1;
    TotalNonNegative(rows[..n], userId, projectId);
    if !(rows[n].userId == userId && rows[n].projectId == projectId) {
      var i :| 0 <= i < |rows| && rows[i].userId == userId && rows[i].projectId == projectId;
      assert rows[..n][i] == rows[i];
      TotalPositive(rows[..n], userId, projectId);
    }
  }

  lemma {:induction false} TotalNonNegative(rows: seq<TimeEntry>, userId: int, projectId: int)
    requires forall i :: 0 <= i < |rows| ==> rows[i].hours > 0.0
    ensures Total(rows, userId, projectId) >= 0.0
    decreases |rows|
  {
    if rows != [] {
      TotalNonNegative(rows[..|rows| - 1], userId, projectId);
    }
  }

  /** The rows the dashboard reads are the entries stored under `ids`, and
      every stored entry has positive hours, so each project shown has a
      positive total. */
  lemma DashboardTotalsPositive(s: Snapshot, ids: seq<int>, rows: seq<TimeEntry>, userId: int, projectId: int)
    requires Consistent(s)
    requires |ids| == |rows|
    requires forall i :: 0 <= i < |rows| ==> ids[i] in s.entries && s.entries[ids[i]] == rows[i]
    requires Logged(rows, userId, projectId)
    ensures forall i :: 0 <= i < |rows| ==> rows[i].hours > 0.0
    ensures Total(rows, userId, projectId) > 0.0
  {
    forall i | 0 <= i < |rows| ensures rows[i].hours > 0.0 {
      var id := ids[i];
      assert id in s.entries && s.entries[id] == rows[i];
    }
    TotalPositive(rows, userId, projectId);
  }

  /** Restricting the rows to the user first changes no total. */
  lemma {:induction false} TotalOfUserRows(rows: seq<TimeEntry>, userId: int, projectId: int)
    ensures Total(RowsOf(rows, userId), userId, projectId) == Total(rows, userId, projectId)
    decreases |rows|
  {
    if rows != [] {
      var n := |rows| - 1;
      var mine := RowsOf(rows[..n], userId);
      TotalOfUserRows(rows[..n], userId, projectId);
      if rows[n].userId == userId {
        TotalSnoc(mine, rows[n], userId, projectId);
      } else {
        assert RowsOf(rows, userId) == mine + [];
        assert mine + [] == mine;
      }
    }
  }

  /** The user's rows are on a project exactly when some row of the user is. */
  lemma {:induction false} LoggedOfUserRows(rows: seq<TimeEntry>, userId: int, projectId: int)
    ensures Logged(RowsOf(rows, userId), userId, projectId) <==> Logged(rows, userId, projectId)
    decreases |rows|
  {
    if rows != [] {
      var n := |rows| - 1;
      var mine := RowsOf(rows[..n], userId);
      assert rows == rows[..n] + [rows[n]];
      LoggedOfUserRows(rows[..n], userId, projectId);
      LoggedSnoc(rows[..n], rows[n], userId, projectId);
      if rows[n].userId == userId {
        LoggedSnoc(mine, rows[n], userId, projectId);
      } else {
        assert RowsOf(rows, userId) == mine + [];
        assert mine + [] == mine;
      }
    }
  }

  lemma LoggedSnoc(rows: seq<TimeEntry>, e: TimeEntry, userId: int, projectId: int)
    ensures Logged(rows + [e], userId, projectId)
            <==> Logged(rows, userId, projectId) || (e.userId == userId && e.projectId == projectId)
  {
    if Logged(rows, userId, projectId) {
      var k :| 0 <= k < |rows| && rows[k].userId == userId && rows[k].projectId == projectId;
      assert (rows + [e])[k] == rows[k];
    }
    assert (rows + [e])[|rows|] == e;
  }

  lemma TotalSnoc(rows: seq<TimeEntry>, e: TimeEntry, userId: int, projectId: int)
    ensures Total(rows + [e], userId, projectId) == Total(rows, userId, projectId) + Share(e, userId, projectId)
  {
  }

  /** `m` holds, for `userId`, one key per project among `rows` with the
      total hours there. */
  ghost predicate Summarises(m: map<int, real>, rows: seq<TimeEntry>, userId: int) {
    (forall p :: p in m <==> Logged(rows, userId, p))
    && (forall p :: p in m ==> m[p] == Total(rows, userId, p))
  }

  /** One more row of the user: add its hours to its project's total,
      starting the total if the project is new. */
  lemma SummarisesStep(m: map<int, real>, rows: seq<TimeEntry>, e: TimeEntry, userId: int)
    requires Summarises(m, rows, userId) && e.userId == userId
    ensures Summarises(m[e.projectId := (if e.projectId in m then m[e.projectId] else 0.0) + e.hours], rows + [e], userId)
  {
    if e.projectId !in m {
      TotalWithout(rows, userId, e.projectId);
    }
    forall p ensures Logged(rows + [e], userId, p) <==> Logged(rows, userId, p) || p == e.projectId {
      LoggedSnoc(rows, e, userId, p);
    }
    forall p ensures Total(rows + [e], userId, p) == Total(rows, userId, p) + Share(e, userId, p) {
      TotalSnoc(rows, e, userId, p);
    }
  }

  /** Summarising only the user's rows summarises all rows for the user. */
  lemma SummarisesUserRows(m: map<int, real>, rows: seq<TimeEntry>, userId: int)
    requires Summarises(m, RowsOf(rows, userId), userId)
    ensures Summarises(m, rows, userId)
  {
    forall p ensures Logged(RowsOf(rows, userId), userId, p) <==> Logged(rows, userId, p) {
      LoggedOfUserRows(rows, userId, p);
    }
    forall p ensures Total(RowsOf(rows, userId), userId, p) == Total(rows, userId, p) {
      TotalOfUserRows(rows, userId, p);
    }
  }

  /** The rows grouped by project with their hours added up, taking the
      rows in order. */
  function GroupedHours(rows: seq<TimeEntry>): map<int, real> {
    if rows == [] then map[]
    else
      var m := GroupedHours(rows[..|rows| - 1]);
      var e := rows[|rows| - 1];
      m[e.projectId := (if e.projectId in m then m[e.projectId] else 0.0) + e.hours]
  }

  /** Grouping the rows of one user gives that user's projects and totals. */
  lemma {:induction false} GroupedHoursSummarises(rows: seq<TimeEntry>, userId: int)
    requires forall i :: 0 <= i < |rows| ==> rows[i].userId == userId
    ensures Summarises(GroupedHours(rows), rows, userId)
    decreases |rows|
  {
    if rows != [] {
      var n := |rows| - 1;
      assert rows == rows[..n] + [rows[n]];
      GroupedHoursSummarises(rows[..n], userId);
      SummarisesStep(GroupedHours(rows[..n]), rows[..n], rows[n], userId);
    }
  }

  /** `dashboard`'s `project_hours`: one key per project the user logged
      time on, holding the sum of the user's hours there. */
  method ProjectHours(rows: seq<TimeEntry>, userId: int) returns (projectHours: map<int, real>)
    ensures forall p :: p in projectHours <==> Logged(rows, userId, p)
    ensures forall p :: p in projectHours ==> projectHours[p] == Total(rows, userId, p)
  {
    var allUserEntries := RowsOf(rows, userId);
    projectHours := map[];
    var i := 0;
    while i < |allUserEntries|
      invariant 0 <= i <= |allUserEntries|
      invariant projectHours == GroupedHours(allUserEntries[..i])
    {
      var entry := allUserEntries[i];
      assert allUserEntries[..i + 1][..i] == allUserEntries[..i];
      var projectId := entry.projectId;
      var hours := entry.hours;
      if projectId in projectHours {
        projectHours := projectHours[projectId := projectHours[projectId] + hours];
      } else {
        projectHours := projectHours[projectId := hours];
      }
      i := i + 1;
    }
    assert allUserEntries[..i] == allUserEntries;
    GroupedHoursSummarises(allUserEntries, userId);
    SummarisesUserRows(projectHours, rows, userId);
  }

  // ---------------------------------------------------------------------
  // The database and the handlers that change it
  // ---------------------------------------------------------------------

  /** What a handler flashed. */
  datatype Outcome =
    | Done
    | AccessDenied        // the actor is not an administrator
    | NameRequired        // add_project: empty name
    | CredentialsRequired // add_user: empty username or password
    | UsernameRequired    // edit_user: empty username
    | UsernameTaken       // the username belongs to another user
    | UserNotFound
    | ProjectNotFound
    | CannotDeleteSelf
    | CommitFailed        // the commit raised and the session was rolled back
    | Rejected(reason: LogTimeError)

  /** `User.query.filter_by(username=username).first()` finds a user. */
  predicate Held(users: map<int, User>, username: string) {
    exists id | id in users :: users[id].username == username
  }

  /** ... and that user is not `self`. */
  predicate HeldByOther(users: map<int, User>, username: string, self: int) {
    exists id | id in users :: id != self && users[id].username == username
  }

  predicate UsernamesUnique(users: map<int, User>) {
    forall a, b :: a in users && b in users && a != b ==> users[a].username != users[b].username
  }

  /** Some project names `userId` as its creator. */
  predicate CreatedProjects(projects: map<int, Project>, userId: int) {
    exists id | id in projects :: projects[id].createdById == userId
  }

  /** The contents of the three tables and the next value of each primary
      key sequence. */
  datatype Snapshot = Snapshot(
    users: map<int, User>,
    projects: map<int, Project>,
    entries: map<int, TimeEntry>,
    nextUserId: int,
    nextProjectId: int,
    nextEntryId: int)

  /** The table constraints the handlers rely on: ids below the next id,
      unique usernames, every foreign key pointing at an existing row, and
      (since only `log_time` adds entries) positive hours. */
  predicate Consistent(s: Snapshot) {
    1 <= s.nextUserId && 1 <= s.nextProjectId && 1 <= s.nextEntryId
    && (forall id :: id in s.users ==> 1 <= id < s.nextUserId)
    && (forall id :: id in s.projects ==> 1 <= id < s.nextProjectId)
    && (forall id :: id in s.entries ==> 1 <= id < s.nextEntryId)
    && UsernamesUnique(s.users)
    && (forall id :: id in s.projects ==> s.projects[id].createdById in s.users)
    && (forall id :: id in s.entries ==> s.entries[id].userId in s.users && s.entries[id].projectId in s.projects)
    && (forall id :: id in s.entries ==> s.entries[id].hours > 0.0)
  }

  const SEED_ADMIN: User := User("fgillet", HashOf("fgillet"), true)
  const SEED_USER: User := User("htepa", HashOf("htepa"), false)

  /** The two default projects, both created by the administrator. */
  function SeedProjects(first: int, adminId: int): map<int, Project> {
    map[first := Project("Développement Site Web",
                         "Développement frontend et backend du site web de l'entreprise",
                         DEFAULT_PROJECT_COLOR, adminId),
        first + 1 := Project("Application Mobile",
                             "Développement de l'application mobile iOS et Android",
                             DEFAULT_PROJECT_COLOR, adminId)]
  }

  /** The inserts of `init_database`: the administrator and the regular
      user under the next two ids, then the two default projects under the
      next two project ids, both created by the administrator. Nothing else
      changes. */
  function Seeded(s: Snapshot): (r: Snapshot)
    ensures r.users.Keys == s.users.Keys + {s.nextUserId, s.nextUserId + 1}
    ensures r.users[s.nextUserId] == SEED_ADMIN && r.users[s.nextUserId].isAdmin
    ensures r.users[s.nextUserId + 1] == SEED_USER && !r.users[s.nextUserId + 1].isAdmin
    ensures forall id :: id in s.users && id != s.nextUserId && id != s.nextUserId + 1 ==> r.users[id] == s.users[id]
    ensures r.projects.Keys == s.projects.Keys + {s.nextProjectId, s.nextProjectId + 1}
    ensures r.projects[s.nextProjectId] == SeedProjects(s.nextProjectId, s.nextUserId)[s.nextProjectId]
    ensures r.projects[s.nextProjectId + 1] == SeedProjects(s.nextProjectId, s.nextUserId)[s.nextProjectId + 1]
    ensures r.projects[s.nextProjectId].createdById == s.nextUserId
      && r.projects[s.nextProjectId].color == DEFAULT_PROJECT_COLOR
    ensures r.projects[s.nextProjectId + 1].createdById == s.nextUserId
      && r.projects[s.nextProjectId + 1].color == DEFAULT_PROJECT_COLOR
    ensures forall id :: id in s.projects && id != s.nextProjectId && id != s.nextProjectId + 1 ==> r.projects[id] == s.projects[id]
    ensures r.entries == s.entries
    ensures r.nextUserId == s.nextUserId + 2 && r.nextProjectId == s.nextProjectId + 2
    ensures r.nextEntryId == s.nextEntryId
  {
    s.(users := s.users[s.nextUserId := SEED_ADMIN][s.nextUserId + 1 := SEED_USER],
       projects := s.projects + SeedProjects(s.nextProjectId, s.nextUserId),
       nextUserId := s.nextUserId + 2,
       nextProjectId := s.nextProjectId + 2)
  }

  /** With no user there can be no project (each has a creator) and no
      entry (each has a user). */
  lemma NoUsersNoRows(s: Snapshot)
    requires Consistent(s) && s.users == map[]
    ensures s.projects == map[] && s.entries == map[]
  {
    assert forall id :: id in s.projects ==> s.projects[id].createdById in s.users;
    assert s.projects.Keys == {};
    assert forall id :: id in s.entries ==> s.entries[id].userId in s.users;
    assert s.entries.Keys == {};
  }

  /** Seeding an empty user table yields exactly the default rows, and they
      are consistent. */
  lemma SeededConsistent(s: Snapshot)
    requires Consistent(s) && s.users == map[]
    ensures var r := Seeded(s);
      Consistent(r) && r.users != map[]
      && r.users == map[s.nextUserId := SEED_ADMIN, s.nextUserId + 1 := SEED_USER]
      && r.projects == SeedProjects(s.nextProjectId, s.nextUserId)
      && r.entries == map[]
  {
    NoUsersNoRows(s);
    var r := Seeded(s);
    var adminId := s.nextUserId;
    assert r.users == map[adminId := SEED_ADMIN, adminId + 1 := SEED_USER];
    assert adminId in r.users;
    assert |SEED_ADMIN.username| != |SEED_USER.username|;
    assert UsernamesUnique(r.users);
    assert r.projects == SeedProjects(s.nextProjectId, adminId);
  }

  /** `db.session.add(project)`. */
  function WithProject(s: Snapshot, p: Project): Snapshot {
    s.(projects := s.projects[s.nextProjectId := p], nextProjectId := s.nextProjectId + 1)
  }

  lemma AddProjectConsistent(s: Snapshot, p: Project)
    requires Consistent(s) && p.createdById in s.users
    ensures Consistent(WithProject(s, p))
    ensures s.nextProjectId !in s.projects && |WithProject(s, p).projects| == |s.projects| + 1
  {
  }

  /** `db.session.delete(project)` with the `delete-orphan` cascade on its
      time entries. */
  function WithoutProject(s: Snapshot, projectId: int): Snapshot {
    s.(projects := s.projects - {projectId},
       entries := map id | id in s.entries && s.entries[id].projectId != projectId :: s.entries[id])
  }

  /** Removing a project keeps the tables consistent, leaves no entry on it
      and keeps every entry on another project. */
  lemma RemoveProjectConsistent(s: Snapshot, projectId: int)
    requires Consistent(s)
    ensures var r := WithoutProject(s, projectId);
      Consistent(r)
      && (forall id :: id in r.entries ==> r.entries[id].projectId != projectId)
      && (forall id :: id in s.entries && s.entries[id].projectId != projectId ==> id in r.entries)
  {
  }

  /** `db.session.add(user)`. */
  function WithUser(s: Snapshot, u: User): Snapshot {
    s.(users := s.users[s.nextUserId := u], nextUserId := s.nextUserId + 1)
  }

  /** A user whose name nobody holds can be added: exactly one more user. */
  lemma AddUserConsistent(s: Snapshot, u: User)
    requires Consistent(s) && !Held(s.users, u.username)
    ensures Consistent(WithUser(s, u))
    ensures s.nextUserId !in s.users && |WithUser(s, u).users| == |s.users| + 1
  {
  }

  /** The field assignments of `edit_user` on the user `userId`. */
  function WithUserReplaced(s: Snapshot, userId: int, u: User): Snapshot {
    s.(users := s.users[userId := u])
  }

  /** A name held by nobody else may be given to `userId`. */
  lemma EditUserConsistent(s: Snapshot, userId: int, u: User)
    requires Consistent(s) && userId in s.users && !HeldByOther(s.users, u.username, userId)
    ensures Consistent(WithUserReplaced(s, userId, u))
    ensures WithUserReplaced(s, userId, u).users.Keys == s.users.Keys
  {
  }

  /** `db.session.delete(user)` with the `delete-orphan` cascade on the
      user's time entries. */
  function WithoutUser(s: Snapshot, userId: int): Snapshot {
    s.(users := s.users - {userId},
       entries := map id | id in s.entries && s.entries[id].userId != userId :: s.entries[id])
  }

  /** Deleting a user who created no project keeps the tables consistent
      and leaves none of the user's entries. */
  lemma DeleteUserConsistent(s: Snapshot, userId: int)
    requires Consistent(s) && !CreatedProjects(s.projects, userId)
    ensures var r := WithoutUser(s, userId);
      Consistent(r) && (forall id :: id in r.entries ==> r.entries[id].userId != userId)
  {
  }

  /** Why that commit fails: deleting a project's creator would leave the
      project's `created_by_id` pointing at no user. */
  lemma DeletingCreatorBreaksIntegrity(s: Snapshot, userId: int)
    requires Consistent(s) && CreatedProjects(s.projects, userId)
    ensures !Consistent(WithoutUser(s, userId))
  {
  }

  /** `db.session.add(time_entry)`. */
  function WithEntry(s: Snapshot, e: TimeEntry): Snapshot {
    s.(entries := s.entries[s.nextEntryId := e], nextEntryId := s.nextEntryId + 1)
  }

  lemma LogTimeConsistent(s: Snapshot, e: TimeEntry)
    requires Consistent(s) && e.userId in s.users && e.projectId in s.projects && e.hours > 0.0
    ensures Consistent(WithEntry(s, e))
    ensures s.nextEntryId !in s.entries && |WithEntry(s, e).entries| == |s.entries| + 1
  {
  }

  /** The three tables. The model hands out ids from one counter per table,
      in increasing order and never reused; that is the model's choice, since a
      database may reuse the largest id after a delete. */
  class Database {
    var users: map<int, User>
    var projects: map<int, Project>
    var entries: map<int, TimeEntry>
    var nextUserId: int
    var nextProjectId: int
    var nextEntryId: int

    function State(): Snapshot
      reads this
    {
      Snapshot(users, projects, entries, nextUserId, nextProjectId, nextEntryId)
    }

    ghost predicate Valid()
      reads this
    {
      Consistent(State())
    }

    /** `db.create_all()` on a fresh database. */
    constructor ()
      ensures Valid()
      ensures users == map[] && projects == map[] && entries == map[]
    {
      users := map[];
      projects := map[];
      entries := map[];
      nextUserId := 1;
      nextProjectId := 1;
      nextEntryId := 1;
    }

    /** `init_database`: the default rows are created only when there is no
        user at all. Afterwards there is a user, so a second start changes
        nothing. */
    method InitDatabase()
      requires Valid()
      modifies this
      ensures Valid()
      ensures users != map[]
      ensures old(users) != map[] ==> unchanged(this)
      ensures old(users) == map[] ==> State() == Seeded(old(State()))
    {
      if users == map[] {
        SeededConsistent(State());
        var adminId := nextUserId;
        users := users[adminId := SEED_ADMIN][adminId + 1 := SEED_USER];
        nextUserId := adminId + 2;
        projects := projects + SeedProjects(nextProjectId, adminId);
        nextProjectId := nextProjectId + 2;
      }
    }

    /** `add_project`. */
    method AddProject(actor: int, name: string, description: string) returns (outcome: Outcome)
      requires Valid() && actor in users
      modifies this
      ensures Valid()
      ensures !old(users[actor].isAdmin) ==> outcome == AccessDenied && unchanged(this)
      ensures old(users[actor].isAdmin) && Strip(name) == "" ==> outcome == NameRequired && unchanged(this)
      ensures old(users[actor].isAdmin) && Strip(name) != "" ==>
        outcome == Done
        && State() == WithProject(old(State()), Project(Strip(name), Strip(description), DEFAULT_PROJECT_COLOR, actor))
    {
      if !users[actor].isAdmin {
        return AccessDenied;
      }
      var projectName := Strip(name);
      var projectDescription := Strip(description);
      if projectName == "" {
        return NameRequired;
      }
      var project := Project(projectName, projectDescription, DEFAULT_PROJECT_COLOR, actor);
      ghost var before := State();
      AddProjectConsistent(before, project);
      projects := projects[nextProjectId := project];
      nextProjectId := nextProjectId + 1;
      assert State() == WithProject(before, project);
      outcome := Done;
    }

    /** `remove_project`: the project goes, and with it every time entry on
        it. */
    method RemoveProject(actor: int, projectId: int) returns (outcome: Outcome)
      requires Valid() && actor in users
      modifies this
      ensures Valid()
      ensures !old(users[actor].isAdmin) ==> outcome == AccessDenied && unchanged(this)
      ensures old(users[actor].isAdmin) && projectId !in old(projects) ==> outcome == ProjectNotFound && unchanged(this)
      ensures old(users[actor].isAdmin) && projectId in old(projects) ==>
        outcome == Done && State() == WithoutProject(old(State()), projectId)
    {
      if !users[actor].isAdmin {
        return AccessDenied;
      }
      if projectId !in projects {
        return ProjectNotFound;
      }
      RemoveProjectConsistent(State(), projectId);
      projects := projects - {projectId};
      entries := map id | id in entries && entries[id].projectId != projectId :: entries[id];
      outcome := Done;
    }

    /** `add_user`. */
    method AddUser(actor: int, username: string, password: string, isAdminField: Option<string>)
      returns (outcome: Outcome)
      requires Valid() && actor in users
      modifies this
      ensures Valid()
      ensures !old(users[actor].isAdmin) ==> outcome == AccessDenied && unchanged(this)
      ensures old(users[actor].isAdmin) && (Strip(username) == "" || Strip(password) == "") ==>
        outcome == CredentialsRequired && unchanged(this)
      ensures (old(users[actor].isAdmin) && Strip(username) != "" && Strip(password) != ""
               && Held(old(users), Strip(username))) ==>
        outcome == UsernameTaken && unchanged(this)
      ensures outcome == Done <==>
        old(users[actor].isAdmin) && Strip(username) != "" && Strip(password) != ""
        && !Held(old(users), Strip(username))
      ensures outcome == Done ==>
        State() == WithUser(old(State()), User(Strip(username), HashOf(Strip(password)), Truthy(isAdminField)))
    {
      if !users[actor].isAdmin {
        return AccessDenied;
      }
      var username := Strip(username);
      var password := Strip(password);
      var isAdmin := Truthy(isAdminField);
      if username == "" || password == "" {
        return CredentialsRequired;
      }
      if exists id | id in users :: users[id].username == username {
        return UsernameTaken;
      }
      var user := User(username, HashOf(password), isAdmin);
      AddUserConsistent(State(), user);
      users := users[nextUserId := user];
      nextUserId := nextUserId + 1;
      outcome := Done;
    }

    /** `edit_user`: a user may keep their own name; the password changes
        only when a non-blank one is given. */
    method EditUser(actor: int, userId: int, username: string, password: string, isAdminField: Option<string>)
      returns (outcome: Outcome)
      requires Valid() && actor in users
      modifies this
      ensures Valid()
      ensures !old(users[actor].isAdmin) ==> outcome == AccessDenied && unchanged(this)
      ensures old(users[actor].isAdmin) && userId !in old(users) ==> outcome == UserNotFound && unchanged(this)
      ensures old(users[actor].isAdmin) && userId in old(users) && Strip(username) == "" ==>
        outcome == UsernameRequired && unchanged(this)
      ensures (old(users[actor].isAdmin) && userId in old(users) && Strip(username) != ""
               && HeldByOther(old(users), Strip(username), userId)) ==>
        outcome == UsernameTaken && unchanged(this)
      ensures outcome == Done <==>
        old(users[actor].isAdmin) && userId in old(users) && Strip(username) != ""
        && !HeldByOther(old(users), Strip(username), userId)
      ensures outcome == Done ==>
        State() == WithUserReplaced(old(State()), userId, User(
          Strip(username),
          if Strip(password) != "" then HashOf(Strip(password)) else old(users[userId].passwordHash),
          Truthy(isAdminField)))
    {
      if !users[actor].isAdmin {
        return AccessDenied;
      }
      if userId !in users {
        return UserNotFound;
      }
      var user := users[userId];
      var username := Strip(username);
      var password := Strip(password);
      var isAdmin := Truthy(isAdminField);
      if username == "" {
        return UsernameRequired;
      }
      if exists id | id in users :: id != userId && users[id].username == username {
        return UsernameTaken;
      }
      user := user.(username := username, isAdmin := isAdmin);
      if password != "" {
        user := user.(passwordHash := HashOf(password));
      }
      EditUserConsistent(State(), userId, user);
      users := users[userId := user];
      outcome := Done;
    }

    /** `delete_user`: never the acting user; the user's time entries go
        with them. Their projects do not: deleting a user who created a
        project would null its NOT NULL `created_by_id`, so that commit
        fails and is rolled back. */
    method DeleteUser(actor: int, userId: int) returns (outcome: Outcome)
      requires Valid() && actor in users
      modifies this
      ensures Valid()
      ensures !old(users[actor].isAdmin) ==> outcome == AccessDenied && unchanged(this)
      ensures old(users[actor].isAdmin) && userId !in old(users) ==> outcome == UserNotFound && unchanged(this)
      ensures old(users[actor].isAdmin) && userId in old(users) && userId == actor ==>
        outcome == CannotDeleteSelf && unchanged(this)
      ensures (old(users[actor].isAdmin) && userId in old(users) && userId != actor
               && CreatedProjects(old(projects), userId)) ==>
        outcome == CommitFailed && unchanged(this)
      ensures outcome == Done <==>
        old(users[actor].isAdmin) && userId in old(users) && userId != actor
        && !CreatedProjects(old(projects), userId)
      ensures outcome == Done ==> State() == WithoutUser(old(State()), userId)
    {
      if !users[actor].isAdmin {
        return AccessDenied;
      }
      if userId !in users {
        return UserNotFound;
      }
      if userId == actor {
        return CannotDeleteSelf;
      }
      if exists id | id in projects :: projects[id].createdById == userId {
        return CommitFailed;
      }
      DeleteUserConsistent(State(), userId);
      users := users - {userId};
      entries := map id | id in entries && entries[id].userId != userId :: entries[id];
      outcome := Done;
    }

    /** `log_time` as written: the form is checked the same way, but the row
        it inserts leaves `month` and `year` unset, so the commit of every
        accepted form fails and is rolled back. */
    method LogTimeAsWritten(actor: int, form: LogTimeForm) returns (outcome: Outcome)
      requires Valid() && actor in users
      modifies this
      ensures Valid()
      ensures ValidateLogTime(form, old(projects).Keys).Err? ==>
        outcome == Rejected(ValidateLogTime(form, old(projects).Keys).error) && unchanged(this)
      ensures ValidateLogTime(form, old(projects).Keys).Ok? ==> outcome == CommitFailed && unchanged(this)
    {
      var checked := ValidateLogTime(form, projects.Keys);
      if checked.Err? {
        return Rejected(checked.error);
      }
      LogTimeAsWrittenNeverStored(actor, checked.value);
      outcome := CommitFailed;
    }

    /** `log_time` with `month` and `year` filled in from the date, the
        corrected insert: any signed-in user may log time; a rejected form
        changes nothing. */
    method LogTime(actor: int, form: LogTimeForm) returns (outcome: Outcome)
      requires Valid() && actor in users
      modifies this
      ensures Valid()
      ensures ValidateLogTime(form, old(projects).Keys).Err? ==>
        outcome == Rejected(ValidateLogTime(form, old(projects).Keys).error) && unchanged(this)
      ensures ValidateLogTime(form, old(projects).Keys).Ok? ==>
        outcome == Done
        && State() == WithEntry(old(State()), NewEntry(actor, ValidateLogTime(form, old(projects).Keys).value))
    {
      var checked := ValidateLogTime(form, projects.Keys);
      if checked.Err? {
        return Rejected(checked.error);
      }
      var timeEntry := NewEntry(actor, checked.value);
      LogTimeConsistent(State(), timeEntry);
      entries := entries[nextEntryId := timeEntry];
      nextEntryId := nextEntryId + 1;
      outcome := Done;
    }
  }
}
