# hour-track, modelled in Dafny

hour-track is a small Flask time-tracking application. Users sign in, log hours
against projects, and see their hours per project on a dashboard.
Administrators manage projects and user accounts. The application keeps its
data in a SQLAlchemy database (users, projects, time entries). The repository
also holds two modules that `app.py` does not import or call: `DataManager`, a
separate JSON-file store with its own projects, time entries and single-sign-on
users, and `SAMLAuth`, a helper that reads a SAML response from an identity
provider.

This project models the rules in those pieces and proves what they promise:

- `common.dfy` (module `Common`) holds the shared vocabulary:
  - `Option` and `Result`;
  - Python's `dict.get`;
  - list comprehensions with a filter;
  - the string operations the application relies on: `str.strip()`,
    `str.lower()` and the substring test `sub in s`.
- `models.dfy` (module `Models`) holds the records of `models.py` and the two
  display helpers of `TimeEntry`:
  - the French month label;
  - the fallback chain that picks which stored date to show.

  Each display string is paired with a reader. The proofs show that the
  display string determines which fields were shown, and their values.
- `saml_auth.dfy` (module `Saml`) holds the attribute classifier of
  `extract_user_attributes`, written as its nested loops and proved against a
  fold over the attributes. It also holds the acceptance decision of
  `process_response`.
- `data_manager.dfy` (module `DataStore`) holds `DataManager`: a class with one
  sequence per JSON file, and methods that append, filter and upsert.
- `app.dfy` (module `App`) holds the database as a class with three tables
  (maps keyed by the auto-incremented ids) and the id counters. It covers:
  - the start-up seeding;
  - the validation of the `log_time` form;
  - the dashboard's hours per project (the handler's loop);
  - the administrator handlers, each reporting what it flashed as an
    `Outcome`.

  Every handler keeps a table invariant: unique usernames, foreign keys that
  point at existing rows, and positive hours.

## Model

| member | source | states |
|---|---|---|
| Common.Get | data_manager.py:122 | `d.get(key)` is present exactly when the key is stored, and is then the stored value |
| Common.GetOr | data_manager.py:127-129 | `d.get(key, default)` is the stored value when the key is present, the default otherwise |
| Common.Filter | data_manager.py:89 | a comprehension keeps exactly the elements that pass its test, and never grows the list |
| Common.FilterAppend | data_manager.py:96 | filtering distributes over concatenation, so the kept elements stay in their relative order |
| Common.FilterShrinks | data_manager.py:88-91 | the filtered list is shorter exactly when some element fails the test (the `len(projects) < original_count` test) |
| Common.Strip | app.py:230-231 | `strip()` is no longer than its input and neither starts nor ends with whitespace |
| Common.TrimStartSpec | app.py:230 | left stripping drops only whitespace, keeps a suffix, and leaves no leading whitespace |
| Common.TrimEndSpec | app.py:230 | right stripping drops only whitespace, keeps a prefix, and leaves no trailing whitespace |
| Common.StripSpec | app.py:230-233 | `strip()` gives a substring with no whitespace at either end; it is empty exactly when the input is all whitespace (the `if not name` test) |
| Common.Lower | saml_auth.py:130 | lower-casing keeps the length and leaves no capital letter: every capital becomes its lower-case letter, and every other character is kept |
| Common.ContainsTransitive | saml_auth.py:134-141 | a substring of a substring of a name is a substring of the name |
| Models.DigitChar | models.py:72 | a digit character has the digit's value |
| Models.NatToString | models.py:72 | the decimal text of a natural number is a non-empty string of digits, one digit exactly below 10, with no leading zero |
| Models.ParseNatToString | models.py:72 | reading back the decimal text of a natural number gives the number |
| Models.IntToStringRoundTrip | models.py:72 | the year written into the label can be read back exactly, and contains no space |
| Models.Pad2 | models.py:80-83 | `%d` and `%m` give two digits that read back as the day or month |
| Models.FormatDate | models.py:80-83 | `strftime('%d/%m/%Y')` gives at least seven characters and no space |
| Models.FormatDateRoundTrip | models.py:80-83 | the formatted date reads back as the same date |
| Models.MonthNamesDistinct | models.py:66-70 | the lookup holds exactly the months 1 to 12; its twelve names are pairwise distinct, contain no space and differ from "Inconnu" |
| Models.MonthNumber | models.py:66-70 | the reverse lookup of a label finds the month that has that name, or reports that no month has it |
| Models.MonthLabelFacts | models.py:65-72 | a month in 1..12 gets its own name, which the reverse lookup maps back to it; any other month gets "Inconnu"; no label contains a space |
| Models.DisplayMonth | models.py:65-72 | `get_display_month` is the French name of a month in 1..12, or "Inconnu" for any other month, then a space and the year |
| Models.DisplayMonthRoundTrip | models.py:65-72 | `get_display_month` reads back as its year, and as its month when the month is in 1..12 |
| Models.DisplayMonthInjective | models.py:65-72 | equal month labels have equal years, and equal months when either month is in 1..12 |
| Models.DisplayDate | models.py:74-83 | the month/year form is used whenever both are non-zero; the result is empty exactly when neither month/year, nor a start date, nor a date is set |
| Models.IndexOf | models.py:72 | the index of the first occurrence of a character, or none when the character is absent |
| Models.IndexOfSplit | models.py:72 | in `a + [c] + b` with no `c` in `a`, the first `c` is at `|a|` |
| Models.ReadMonthForm | models.py:72 | "label year" splits at the space after the label |
| Models.ReadRange | models.py:80 | "start - end" reads back as the two dates |
| Models.ReadDay | models.py:82-83 | a single formatted date reads back as that date |
| Models.DisplayDateRoundTrip | models.py:74-83 | the display string of an entry reads back as the branch taken (month/year, range, start date, legacy date or nothing) and its stored values |
| Saml.KeyFor | saml_auth.py:134-141 | the if/elif chain only ever selects one of the four keys email, firstname, lastname, name |
| Saml.KeyForCoverage | saml_auth.py:134-141 | a name is filed under some key exactly when it contains "email" or "name", and any name containing "email" is filed as the e-mail |
| Saml.Assignment | saml_auth.py:130-141 | an attribute writes something only when its value element has non-empty text, and then writes that text under one of the four keys |
| Saml.WithFullName | saml_auth.py:144-145 | `name` is added as "firstname lastname" only when it is missing and both parts are present; no existing entry is replaced |
| Saml.Collected | saml_auth.py:128-141 | the loop writes only the four keys and only non-empty texts |
| Saml.UserAttributes | saml_auth.py:116-150 | the returned keys are a subset of {email, firstname, lastname, name} and no value is empty |
| Saml.CollectedHasKey | saml_auth.py:128-141 | a key is present exactly when some attribute is filed under it |
| Saml.CollectedLastWins | saml_auth.py:128-141 | when several attributes are filed under one key, the last one in document order wins |
| Saml.CollectedSnoc | saml_auth.py:128-141 | visiting one more attribute applies exactly its own assignment |
| Saml.TextlessIgnored | saml_auth.py:131-133 | dropping every attribute without text first gives the same record |
| Saml.ClassifierIgnoresCase | saml_auth.py:130 | two names that lower-case alike are filed alike |
| Saml.ClassifierExamples | saml_auth.py:134-141 | the test order decides overlaps: the Azure AD e-mail claim URI goes to email; "firstname" and "givenname" go to firstname, "surname" to lastname and "displayname" to name; "upn" is ignored |
| Saml.Missing | saml_auth.py:134-141 | a pattern does not occur in a name when one of its characters never lines up |
| Saml.ExtractUserAttributes | saml_auth.py:116-150 | the nested loops and the fix-up compute the fold over all attributes in document order, followed by the full-name rule |
| Saml.ProcessResponse | saml_auth.py:87-114 | an empty response gives None; a failed decode or parse gives the mock record; otherwise the record is returned exactly when some attribute supplied an e-mail, and every accepted record holds a non-empty e-mail |
| DataStore.FindUser | data_manager.py:123 | the index found holds the e-mail and no earlier record does; no index means no record holds it |
| DataStore.UserEntriesAfterAppend | data_manager.py:106-115 | after an append, a user's entries are the old ones in stored order followed by the new entry when it is theirs |
| DataStore.RecordFor | data_manager.py:125-131 | the saved record holds the e-mail when one was given, each name part or "" when it is missing, and the login time, without `created_at` |
| DataStore.Upserted | data_manager.py:117-139 | with a stored e-mail, the first such record is replaced in place, loses `created_at`, and the length and every other record are kept; otherwise one record with `created_at` is appended |
| DataStore.SavedUserIsFound | data_manager.py:117-139 | after saving, looking the e-mail up finds a record with the submitted names and the login time |
| DataStore.UpsertKeepsEmailsUnique | data_manager.py:123-137 | saving never creates a second record for an e-mail |
| DataStore.DataManager.constructor | data_manager.py:12-51 | each file that exists keeps its contents; a missing projects file gets the two default projects, and missing entry or user files are empty |
| DataStore.DataManager.AddProject | data_manager.py:79-83 | the project is appended at the end, and the other lists are unchanged |
| DataStore.DataManager.RemoveProject | data_manager.py:85-100 | returns true exactly when some project had the id. On true, both lists are filtered (order kept) and no project or entry of that id remains; on false, nothing changes |
| DataStore.DataManager.UserTimeEntries | data_manager.py:106-109 | every returned entry is a stored entry of that e-mail, and every stored entry of that e-mail is returned |
| DataStore.DataManager.AddTimeEntry | data_manager.py:111-115 | the entry is appended at the end, and the other lists are unchanged |
| DataStore.DataManager.SaveUser | data_manager.py:117-139 | the user list becomes the upsert of the submitted record, and the other lists are unchanged |
| App.ValidateLogTime | app.py:156-181 | a form is accepted exactly when the project field is set, the numbers parse, the project id is non-zero, hours are positive, the date is set and parses, and the project exists; an empty project field is the first error reported |
| App.Stored | models.py:56-57 | a pending row is stored exactly when month and year are set, and it keeps every submitted column, leaving the start and end dates unset |
| App.LogTimeAsWrittenNeverStored | app.py:184-192 | the row `log_time` builds is never stored, because month and year are unset |
| App.LogTimeAsWrittenExample | app.py:156-192 | 2.5 hours on project 1 on 2025-03-14 passes every check and is still refused |
| App.LogTimeRowStored | app.py:184-192 | the corrected row is stored, keeps what the user submitted, and displays as the month and year of its date |
| App.NewEntry | app.py:184-189 | the corrected insert (see Findings): the entry belongs to the user and project, carries the submitted hours and notes, leaves the start and end dates unset, and takes month and year from its date, which `log_time` as written does not set |
| App.RowsOf | app.py:137 | `filter_by(user_id=...)` returns only stored rows of that user, and every stored row of that user |
| App.RowsOfKeepsOrder | app.py:137 | the user's rows are the stored rows filtered by user, so they keep their stored order |
| App.TotalAppend | app.py:137-144 | the hours of two row lists add up |
| App.TotalWithout | app.py:137-144 | a project the user has no row on totals zero |
| App.TotalPermutation | app.py:136-144 | the order the query returns the rows in does not change any total |
| App.TotalPositive | app.py:137-144 | with positive hours, every project shown on the dashboard has a positive total |
| App.TotalNonNegative | app.py:137-144 | with positive hours, no total is negative |
| App.TotalOfUserRows | app.py:137 | restricting the rows to the user first changes no total |
| App.LoggedOfUserRows | app.py:137 | the user's rows reach a project exactly when the user has a row on it |
| App.LoggedSnoc | app.py:137-144 | one more row adds exactly its own project to those the user logged time on |
| App.TotalSnoc | app.py:137-144 | one more row adds exactly its hours to its own project's total |
| App.SummarisesStep | app.py:139-144 | one more row either starts its project's total or adds to it, and the map still holds exactly the user's projects with their totals |
| App.SummarisesUserRows | app.py:136-144 | a summary of the user's rows is a summary of all rows for that user |
| App.GroupedHoursSummarises | app.py:137-144 | grouping one user's rows by project gives exactly their projects, with each total |
| App.DashboardTotalsPositive | app.py:136-144 | the rows the dashboard reads are stored entries, so under the table invariant every hour is positive and every project shown has a positive total |
| App.ProjectHours | app.py:136-144 | the keys of `project_hours` are exactly the projects the user logged time on, and each value is the sum of the user's hours there |
| App.NoUsersNoRows | models.py:41-54 | with no user there can be no project and no entry, since each row has a NOT NULL key to a user |
| App.Seeded | app.py:46-72 | seeding adds the administrator and the regular user under the next two ids, and the two default projects (each its default record, created by the administrator, with the default colour) under the next two project ids; existing users, projects and entries are kept and the entry counter is unchanged |
| App.SeededConsistent | app.py:44-72 | seeding an empty user table adds exactly the two default users and the two default projects created by the administrator, and keeps the tables consistent |
| App.AddProjectConsistent | app.py:239-244 | adding a project created by an existing user keeps the tables consistent and adds exactly one row |
| App.RemoveProjectConsistent | app.py:262-266 | deleting a project cascades to exactly its entries and keeps the tables consistent |
| App.AddUserConsistent | app.py:303-317 | adding a user whose name nobody holds keeps usernames unique and adds exactly one row |
| App.EditUserConsistent | app.py:350-359 | renaming a user to a name held by nobody else keeps usernames unique and the user ids unchanged |
| App.DeleteUserConsistent | app.py:390-391 | deleting a user who created no project cascades to exactly their entries and keeps the tables consistent |
| App.DeletingCreatorBreaksIntegrity | app.py:390-391 | deleting the creator of a project would break the NOT NULL `created_by_id`, so that commit cannot succeed |
| App.LogTimeConsistent | app.py:184-192 | adding an entry of an existing user on an existing project, with positive hours, keeps the tables consistent and adds exactly one row |
| App.Database.constructor | app.py:41 | `create_all` gives empty, consistent tables |
| App.Database.InitDatabase | app.py:38-79 | the defaults are inserted only when there is no user; afterwards a user exists, so a second start changes nothing |
| App.Database.AddProject | app.py:221-251 | a non-administrator gets "access denied" and nothing changes; an empty stripped name is refused; otherwise exactly the stripped project, with the default colour and the actor as creator, is added |
| App.Database.RemoveProject | app.py:253-275 | a non-administrator gets "access denied" and nothing changes; an unknown id is reported and nothing changes; otherwise the project and its entries are deleted |
| App.Database.AddUser | app.py:288-325 | a non-administrator gets "access denied" and nothing changes; an empty stripped username or password, or a username already held, is refused with nothing changed; otherwise exactly one user is added with the stripped name and hashed password |
| App.Database.EditUser | app.py:327-369 | a non-administrator gets "access denied" and nothing changes; an unknown user, an empty name, or a name held by another user is refused with nothing changed. Otherwise only that user changes, and the password changes only when a non-blank one is given |
| App.Database.DeleteUser | app.py:371-399 | a non-administrator gets "access denied" and nothing changes; an unknown user or the actor themself is refused with nothing changed; deleting a project's creator fails and is rolled back; otherwise the user and their entries are deleted |
| App.Database.LogTimeAsWritten | app.py:151-202 | `log_time` as written: a rejected form reports its first failing check and changes nothing; an accepted form's commit fails on the unset month and year, and nothing changes |
| App.Database.LogTime | app.py:151-202 | the corrected `log_time` (see Findings): a rejected form reports its first failing check and changes nothing; an accepted one adds exactly one entry, with month and year taken from its date |

## Left out

- Reading and writing the JSON files, creating the `data` directory, and the
  error path of `load_json` are not modelled. The stored lists are fields of
  `DataManager`, and whether each file existed is a constructor argument.
- uuids and clock reads are parameters: project ids, `created_at` and
  `last_login`.
- Base64 decoding, XML parsing, settings from the environment and the
  login-URL template are not modelled. A response arrives as its parsed
  attribute statements, or as "parsing raised" (`None`).
- `extract_user_attributes` also catches exceptions of its own, which cannot
  arise on a parsed response here.
- Flask routing, redirects, templates and `flask_login` sessions are not
  modelled, and neither are the login, logout, index, admin and user-list
  pages, which only read.
- The acting user is a parameter that must be a stored user. Flash messages
  become the `Outcome` values.
- Password hashing is kept abstract (`HashOf`). `check_password` is not
  modelled.
- `int()`, `float()` and `strptime` are inputs to `ValidateLogTime`: their
  results, or `None` for the ValueError they raise.
- App.ValidateLogTime, App.TotalAppend, App.TotalPermutation, App.ProjectHours:
  hours are exact reals. The model therefore does not capture that
  `float("nan")` passes `hours <= 0`, nor IEEE rounding of sums; with floats,
  a total can depend on the order the rows are added in.
- The dashboard's list of the ten most recent entries is not modelled: it is
  ordering and `limit` inside the database library.
- Common.Lower: only ASCII letters are lower-cased. Python's full Unicode
  case mapping is not modelled.
- The length limits of the String(80), String(200) and String(7) columns are
  not modelled. On a database that enforces them, an over-long value makes
  the commit raise, and the handler rolls back with its generic error.
- The JSON records are typed, so every record has every key. The `KeyError`
  that `p['id']` and `entry['project_id']` raise on a record without that
  key is not modelled (data_manager.py:89, data_manager.py:96).
- `created_at` columns and the `__repr__` methods are not modelled.
- The only commit failures modelled are the NOT NULL ones analysed here.
  Other database errors are not modelled.
- App.Database.InitDatabase: the ids of every insert (the seeding flush and
  each handler's commit) are the next values of one counter per table, never
  reused. That is the model's choice: a database may reuse the largest id
  after a delete.
- Models.FormatDate: `%Y` is written as the year in decimal without padding.
  For years below 1000 Python's output depends on the platform and version,
  and the model does not follow it there.
- docker/health-check.py is not part of this model.

## Findings

| source | as written | input that shows it | evidently intended | confidence | as-written member | corrected member |
|---|---|---|---|---|---|---|
| app.py:184-192, models.py:56-57 | `log_time` sets user, project, hours, date and notes, but never `month` or `year`. Both are NOT NULL without a default, so every commit raises. The handler then rolls back and flashes the generic error | project "1", hours 2.5, date "2025-03-14", with project 1 existing: every check passes, and nothing is stored | `month` and `year` are taken from the logged date, which `get_display_date` then shows as the month label | high; not executed | App.LogTimeAsWrittenExample | App.LogTimeRowStored |
