/** data_manager.py: the JSON-backed store of projects, time entries and
    single-sign-on users. Each JSON file becomes a list field of the class;
    reading and writing the files is not modelled. */
module DataStore {
  import opened Common

  /** A dictionary of projects.json. */
  datatype ProjectRecord = ProjectRecord(
    id: string, name: string, description: string, createdAt: string, createdBy: string)

  /** A dictionary of time_entries.json. The store itself only looks at
      `project_id` and `user_email`; `user_email` may be missing. */
  datatype EntryRecord = EntryRecord(
    id: string, projectId: string, userEmail: Option<string>, hours: real, date: string, notes: string)

  /** A dictionary of users.json as save_user writes it. `email` is whatever
      `user_data.get('email')` gave (possibly None); `created_at` is only
      written when the record is first appended. */
  datatype UserRecord = UserRecord(
    email: Option<string>, firstname: string, lastname: string, name: string,
    lastLogin: string, createdAt: Option<string>)

  /** The two projects written when projects.json does not exist. `id1`,
      `id2` are the generated uuids and `time1`, `time2` the two clock reads. */
  function DefaultProjects(id1: string, id2: string, time1: string, time2: string): seq<ProjectRecord>
  {
    [ ProjectRecord(id1, "Website Development", "Frontend and backend development for company website", time1, "system"),
      ProjectRecord(id2, "Mobile App", "iOS and Android mobile application development", time2, "system") ]
  }

  /** The test of a comprehension that drops the project `projectId`. */
  function OtherProject(projectId: string): ProjectRecord -> bool {
    (p: ProjectRecord) => p.id != projectId
  }

  /** The test of a comprehension that drops the entries of `projectId`. */
  function NotOnProject(projectId: string): EntryRecord -> bool {
    (e: EntryRecord) => e.projectId != projectId
  }

  /** The test of get_user_time_entries. */
  function ByUser(email: Option<string>): EntryRecord -> bool {
    (e: EntryRecord) => e.userEmail == email
  }

  /** The generator `next((i for i, u in enumerate(users) if u.get('email')
      == email), None)`: the index of the first record with that e-mail. */
  function FindUser(users: seq<UserRecord>, email: Option<string>): (r: Option<nat>)
    ensures r.Some? ==> r.value < |users| && users[r.value].email == email
    ensures r.Some? ==> forall j :: 0 <= j < r.value ==> users[j].email != email
    ensures r.None? ==> forall j :: 0 <= j < |users| ==> users[j].email != email
  {
    if users == [] then None
    else if users[0].email == email then Some(0)
    else match FindUser(users[1..], email)
      case Some(i) => Some(i + 1)
      case None => None
  }

  /** The entries of a user keep their stored order: appending an entry
      extends that user's list by it at the end, and no other user's list
      changes. */
  lemma {:induction false} UserEntriesAfterAppend(entries: seq<EntryRecord>, entry: EntryRecord, email: Option<string>)
    ensures Filter(entries + [entry], ByUser(email))
         == Filter(entries, ByUser(email)) + (if entry.userEmail == email then [entry] else [])
  {
    FilterAppend(entries, [entry], ByUser(email));
    assert [entry][1..] == [];
  }

  /** The `user_record` save_user builds from the single-sign-on data,
      before `created_at` is considered: the e-mail if one was given, each
      name part or "" when it is missing, and the login time. */
  function RecordFor(userData: map<string, string>, loginTime: string): (r: UserRecord)
    ensures r.email.Some? <==> "email" in userData
    ensures "email" in userData ==> r.email.value == userData["email"]
    ensures "firstname" in userData ==> r.firstname == userData["firstname"]
    ensures "firstname" !in userData ==> r.firstname == ""
    ensures "lastname" in userData ==> r.lastname == userData["lastname"]
    ensures "lastname" !in userData ==> r.lastname == ""
    ensures "name" in userData ==> r.name == userData["name"]
    ensures "name" !in userData ==> r.name == ""
    ensures r.lastLogin == loginTime && r.createdAt.None?
  {
    UserRecord(
      Get(userData, "email"),
      GetOr(userData, "firstname", ""),
      GetOr(userData, "lastname", ""),
      GetOr(userData, "name", ""),
      loginTime,
      None)
  }

  /** The user list after save_user: the first record with the same e-mail
      is replaced in place (and so loses `created_at`), every other record
      is kept; with no such record, one new record is appended with
      `created_at`. */
  function Upserted(users: seq<UserRecord>, userData: map<string, string>, loginTime: string, createdTime: string)
    : (r: seq<UserRecord>)
    ensures FindUser(users, Get(userData, "email")).Some? ==>
      var i := FindUser(users, Get(userData, "email")).value;
      |r| == |users| && r[i] == RecordFor(userData, loginTime) && r[i].createdAt.None?
      && forall j :: 0 <= j < |users| && j != i ==> r[j] == users[j]
    ensures FindUser(users, Get(userData, "email")).None? ==>
      |r| == |users| + 1 && r[..|users|] == users
      && r[|users|] == RecordFor(userData, loginTime).(createdAt := Some(createdTime))
  {
    var record := RecordFor(userData, loginTime);
    match FindUser(users, record.email)
    case Some(i) => users[i := record]
    case None => users + [record.(createdAt := Some(createdTime))]
  }

  /** After saving, looking the same e-mail up finds the record just saved. */
  lemma SavedUserIsFound(users: seq<UserRecord>, userData: map<string, string>, loginTime: string, createdTime: string)
    ensures var r := Upserted(users, userData, loginTime, createdTime);
      var found := FindUser(r, Get(userData, "email"));
      found.Some? && r[found.value].email == Get(userData, "email")
      && r[found.value].firstname == GetOr(userData, "firstname", "")
      && r[found.value].lastname == GetOr(userData, "lastname", "")
      && r[found.value].name == GetOr(userData, "name", "")
      && r[found.value].lastLogin == loginTime
      && |r| >= |users|
  {
  }

  predicate EmailsUnique(users: seq<UserRecord>) {
    forall i, j :: 0 <= i < j < |users| ==> users[i].email != users[j].email
  }

  /** Saving never creates a second record for an e-mail. */
  lemma UpsertKeepsEmailsUnique(users: seq<UserRecord>, userData: map<string, string>, loginTime: string, createdTime: string)
    requires EmailsUnique(users)
    ensures EmailsUnique(Upserted(users, userData, loginTime, createdTime))
  {
  }

  /** The store of data_manager.py, one list per JSON file. */
  class DataManager {
    var projects: seq<ProjectRecord>
    var timeEntries: seq<EntryRecord>
    var users: seq<UserRecord>

    /** `__init__` followed by `initialize_files`: each file that exists
        keeps its contents (`stored…` is Some), a missing one is created with
        its default. So a second start, when every file exists, changes
        nothing. */
    constructor (
      storedProjects: Option<seq<ProjectRecord>>,
      storedEntries: Option<seq<EntryRecord>>,
      storedUsers: Option<seq<UserRecord>>,
      id1: string, id2: string, time1: string, time2: string)
      ensures storedProjects.Some? ==> projects == storedProjects.value
      ensures storedProjects.None? ==> projects == DefaultProjects(id1, id2, time1, time2)
      ensures storedEntries.Some? ==> timeEntries == storedEntries.value
      ensures storedEntries.None? ==> timeEntries == []
      ensures storedUsers.Some? ==> users == storedUsers.value
      ensures storedUsers.None? ==> users == []
    {
      if storedProjects.Some? {
        projects := storedProjects.value;
      } else {
        projects := DefaultProjects(id1, id2, time1, time2);
      }
      if storedEntries.Some? {
        timeEntries := storedEntries.value;
      } else {
        timeEntries := [];
      }
      if storedUsers.Some? {
        users := storedUsers.value;
      } else {
        users := [];
      }
    }

    /** `add_project`: append one project. */
    method AddProject(project: ProjectRecord)
      modifies this
      ensures projects == old(projects) + [project]
      ensures timeEntries == old(timeEntries) && users == old(users)
    {
      projects := projects + [project];
    }

    /** `remove_project`: drop every project with the id and, if there was
        one, every time entry of that project. Both lists are filtered, so
        what remains keeps its order. */
    method RemoveProject(projectId: string) returns (removed: bool)
      modifies this
      ensures removed <==> exists i :: 0 <= i < |old(projects)| && old(projects)[i].id == projectId
      ensures forall i :: 0 <= i < |projects| ==> projects[i].id != projectId
      ensures removed ==> projects == Filter(old(projects), OtherProject(projectId))
      ensures removed ==> timeEntries == Filter(old(timeEntries), NotOnProject(projectId))
      ensures removed ==> forall i :: 0 <= i < |timeEntries| ==> timeEntries[i].projectId != projectId
      ensures !removed ==> projects == old(projects) && timeEntries == old(timeEntries)
      ensures users == old(users)
    {
      var kept := Filter(projects, OtherProject(projectId));
      FilterShrinks(projects, OtherProject(projectId));
      if |kept| < |projects| {
        projects := kept;
        timeEntries := Filter(timeEntries, NotOnProject(projectId));
        removed := true;
      } else {
        removed := false;
      }
    }

    /** `get_user_time_entries`: the entries whose `user_email` equals the
        argument, in stored order. */
    function UserTimeEntries(email: Option<string>): (r: seq<EntryRecord>)
      reads this
      ensures forall i :: 0 <= i < |r| ==> r[i] in timeEntries && r[i].userEmail == email
      ensures forall i :: 0 <= i < |timeEntries| && timeEntries[i].userEmail == email ==> timeEntries[i] in r
    {
      Filter(timeEntries, ByUser(email))
    }

    /** `add_time_entry`: append one entry. */
    method AddTimeEntry(entry: EntryRecord)
      modifies this
      ensures timeEntries == old(timeEntries) + [entry]
      ensures projects == old(projects) && users == old(users)
    {
      timeEntries := timeEntries + [entry];
    }

    /** `save_user`: overwrite the first record with the same e-mail in
        place, or append a new one. `loginTime` and `createdTime` are the two
        clock reads. */
    method SaveUser(userData: map<string, string>, loginTime: string, createdTime: string)
      modifies this
      ensures users == Upserted(old(users), userData, loginTime, createdTime)
      ensures projects == old(projects) && timeEntries == old(timeEntries)
    {
      var userEmail := Get(userData, "email");
      var existingUserIndex := FindUser(users, userEmail);
      var userRecord := RecordFor(userData, loginTime);
      if existingUserIndex.Some? {
        users := users[existingUserIndex.value := userRecord];
      } else {
        users := users + [userRecord.(createdAt := Some(createdTime))];
      }
    }
  }
}
