/** The session and progress store (src/context/AuthContext.tsx): the list
    of registered users, the optional current user, and the two browser
    storage keys the store mirrors them into. React state setters are
    modelled as immediate assignments and the `async` operations as
    ordinary calls; storage holds values, not their JSON text. */
module AuthContext {
  import opened Prelude
  import opened Types
  import opened SampleData

  const UsersKey: string := "fited-users"
  const CurrentUserKey: string := "fited-current-user"

  /** What a storage key holds: the whole user list, or one user record. */
  datatype Blob = UserList(list: seq<User>) | UserRecord(record: User)

  predicate HasCredentials(u: User, email: string, password: string) {
    u.email == email && u.password == password
  }

  /** `users.find(u => u.email === email && u.password === password)`:
      the first user whose email and password are both exactly equal. */
  function FindByCredentials(users: seq<User>, email: string, password: string): (r: Option<User>)
    ensures r.Some? <==> exists i :: 0 <= i < |users| && HasCredentials(users[i], email, password)
    ensures r.Some? ==> exists i :: 0 <= i < |users| && users[i] == r.value
                          && HasCredentials(r.value, email, password)
                          && forall j :: 0 <= j < i ==> !HasCredentials(users[j], email, password)
  {
    FindFirst(users, (u: User) => HasCredentials(u, email, password))
  }

  /** `users.find(u => u.id === id)`: the first user with the given id.
      Written out rather than through `FindFirst`, because the mount effect
      applies it to the constant seed list, where the verifier unfolds a
      direct recursion much more cheaply than a function argument. */
  function FindById(users: seq<User>, id: string): (r: Option<User>)
    ensures r.Some? <==> exists i :: 0 <= i < |users| && users[i].id == id
    ensures r.Some? ==> exists i :: 0 <= i < |users| && users[i] == r.value && r.value.id == id
                          && forall j :: 0 <= j < i ==> users[j].id != id
  {
    if users == [] then None else if users[0].id == id then Some(users[0]) else
      var r := FindById(users[1..], id);
      assert forall i :: 1 <= i < |users| ==> users[i] == users[1..][i - 1]; r
  }

  /** Some stored user already has this exact email. */
  predicate EmailTaken(users: seq<User>, email: string) {
    exists i :: 0 <= i < |users| && users[i].email == email
  }

  /** An email is taken exactly when some password logs in with it, so
      `signup` refuses precisely the emails `login` accepts. */
  lemma EmailTakenIffLoginPossible(users: seq<User>, email: string)
    ensures EmailTaken(users, email) <==> exists password :: FindByCredentials(users, email, password).Some?
  {
    if EmailTaken(users, email) {
      var i :| 0 <= i < |users| && users[i].email == email;
      assert HasCredentials(users[i], email, users[i].password);
      assert FindByCredentials(users, email, users[i].password).Some?;
    }
  }

  /** The record `signup` builds: the given profile, the given id and
      timestamp, no completed exercises, zero streak and zero calories. */
  function NewUser(profile: Profile, id: string, createdAt: string): (u: User)
    ensures ProfileOf(u) == profile && u.id == id && u.createdAt == createdAt
    ensures u.completedExercises == [] && u.streakDays == 0 && u.totalCaloriesBurned == 0
  {
    User(id, profile.email, profile.password, profile.name, profile.age, profile.weight,
         profile.height, profile.fitnessLevel, [], 0, 0, createdAt)
  }

  /** The record `updateUserProgress` builds from the current user. The id
      is appended only when absent and the streak grows only then, but the
      calories are always added. */
  function Progressed(u: User, exerciseId: string, calories: int): (r: User)
    ensures ProfileOf(r) == ProfileOf(u) && r.id == u.id && r.createdAt == u.createdAt
    ensures |r.completedExercises| == |u.completedExercises| + (if exerciseId in u.completedExercises then 0 else 1)
    ensures r.completedExercises[..|u.completedExercises|] == u.completedExercises
    ensures forall x :: x in r.completedExercises <==> x in u.completedExercises || x == exerciseId
    ensures r.streakDays == u.streakDays + (|r.completedExercises| - |u.completedExercises|)
    ensures r.totalCaloriesBurned == u.totalCaloriesBurned + calories
    ensures NoDuplicates(u.completedExercises) ==> NoDuplicates(r.completedExercises)
  {
    var done := exerciseId in u.completedExercises;
    u.(completedExercises := if done then u.completedExercises else u.completedExercises + [exerciseId],
       totalCaloriesBurned := u.totalCaloriesBurned + calories,
       streakDays := u.streakDays + if done then 0 else 1)
  }

  /** `users.map(u => u.id === id ? updated : u)`. */
  function ReplaceById(users: seq<User>, id: string, updated: User): (r: seq<User>)
    ensures |r| == |users|
    ensures forall i :: 0 <= i < |users| ==> r[i] == if users[i].id == id then updated else users[i]
  {
    if users == [] then []
    else [if users[0].id == id then updated else users[0]] + ReplaceById(users[1..], id, updated)
  }

  /** Every user in the list lists each completed exercise once. */
  predicate AllProgressWellFormed(users: seq<User>) {
    forall i :: 0 <= i < |users| ==> NoDuplicates(users[i].completedExercises)
  }

  predicate EmailsDistinct(users: seq<User>) {
    forall i, j :: 0 <= i < j < |users| ==> users[i].email != users[j].email
  }

  /** The list the store starts with: the stored one if the key holds a list,
      otherwise the seed list. */
  function LoadedUsers(persisted: map<string, Blob>): seq<User> {
    if UsersKey in persisted && persisted[UsersKey].UserList? then persisted[UsersKey].list
    else SampleUsers
  }

  /** The session the store resumes: the stored current user's id, looked up
      in the seed list (the list the effect's closure captured). */
  function RestoredSession(persisted: map<string, Blob>): (r: Option<User>)
    ensures r.Some? ==> r.value in SampleUsers && CurrentUserKey in persisted && persisted[CurrentUserKey].UserRecord?
                        && r.value.id == persisted[CurrentUserKey].record.id
    ensures (CurrentUserKey in persisted && persisted[CurrentUserKey].UserRecord?
             && exists i :: 0 <= i < |SampleUsers| && SampleUsers[i].id == persisted[CurrentUserKey].record.id) ==> r.Some?
  {
    if CurrentUserKey in persisted && persisted[CurrentUserKey].UserRecord? then
      FindById(SampleUsers, persisted[CurrentUserKey].record.id)
    else None
  }

  class AuthProvider {
    var users: seq<User>
    var user: Option<User>
    var storage: map<string, Blob>

    /** No user record lists an exercise twice. */
    ghost predicate ProgressWellFormed()
      reads this
    {
      AllProgressWellFormed(users) && (user.Some? ==> NoDuplicates(user.value.completedExercises))
    }

    /** The stored user list is the live one. */
    ghost predicate UsersPersisted()
      reads this
    {
      UsersKey in storage && storage[UsersKey] == UserList(users)
    }

    /** A live session is stored under the current-user key. */
    ghost predicate SessionPersisted()
      reads this
    {
      user.Some? ==> CurrentUserKey in storage && storage[CurrentUserKey] == UserRecord(user.value)
    }

    /** The mount effect: load or seed the user list, then resume the stored session. */
    constructor (persisted: map<string, Blob>)
      ensures users == LoadedUsers(persisted)
      ensures storage == if UsersKey in persisted then persisted
                         else persisted[UsersKey := UserList(SampleUsers)]
      ensures user == RestoredSession(persisted)
      ensures user.Some? ==> user.value in SampleUsers
      ensures (UsersKey !in persisted || persisted[UsersKey].UserList?) ==> UsersPersisted()
      ensures AllProgressWellFormed(users) ==> ProgressWellFormed()
    {
      users := SampleUsers;
      user := None;
      storage := persisted;
      new;
      // the mount effect
      if UsersKey in storage {
        if storage[UsersKey].UserList? {
          users := storage[UsersKey].list;
        }
      } else {
        storage := storage[UsersKey := UserList(SampleUsers)];
      }
      if CurrentUserKey in storage && storage[CurrentUserKey].UserRecord? {
        var current := FindById(SampleUsers, storage[CurrentUserKey].record.id);
        if current.Some? {
          assert NoDuplicates(current.value.completedExercises) by {
            SampleProgressWellFormed();
            var i :| 0 <= i < |SampleUsers| && SampleUsers[i] == current.value;
          }
          user := current;
        }
      }
    }

    method Login(email: string, password: string) returns (ok: bool)
      modifies this
      ensures users == old(users)
      ensures ok <==> exists i :: 0 <= i < |users| && HasCredentials(users[i], email, password)
      ensures ok ==> user == FindByCredentials(users, email, password)
                     && storage == old(storage)[CurrentUserKey := UserRecord(user.value)]
      ensures !ok ==> user == old(user) && storage == old(storage)
      ensures old(UsersPersisted()) ==> UsersPersisted()
      ensures old(SessionPersisted()) ==> SessionPersisted()
      ensures old(ProgressWellFormed()) ==> ProgressWellFormed()
    {
      var found := FindByCredentials(users, email, password);
      if found.Some? {
        user := found;
        storage := storage[CurrentUserKey := UserRecord(found.value)];
        return true;
      }
      return false;
    }

    /** Sign a new user up. `id` and `createdAt` stand for the clock readings
        the application uses; nothing checks that `id` is unused. */
    method Signup(profile: Profile, id: string, createdAt: string) returns (ok: bool)
      modifies this
      ensures ok <==> !EmailTaken(old(users), profile.email)
      ensures !ok ==> users == old(users) && user == old(user) && storage == old(storage)
      ensures ok ==> users == old(users) + [NewUser(profile, id, createdAt)]
                     && user == Some(NewUser(profile, id, createdAt))
                     && storage == old(storage)[UsersKey := UserList(users)][CurrentUserKey := UserRecord(user.value)]
      ensures UsersPersisted() || (!ok && !old(UsersPersisted()))
      ensures old(SessionPersisted()) ==> SessionPersisted()
      ensures old(ProgressWellFormed()) ==> ProgressWellFormed()
      ensures old(EmailsDistinct(users)) ==> EmailsDistinct(users)
    {
      if EmailTaken(users, profile.email) {
        return false;
      }
      var newUser := NewUser(profile, id, createdAt);
      var updatedUsers := users + [newUser];
      users := updatedUsers;
      storage := storage[UsersKey := UserList(updatedUsers)];
      user := Some(newUser);
      storage := storage[CurrentUserKey := UserRecord(newUser)];
      if EmailsDistinct(old(users)) {
        SignupKeepsEmailsDistinct(old(users), profile, id, createdAt);
      }
      return true;
    }

    method Logout()
      modifies this
      ensures user == None && users == old(users)
      ensures storage == old(storage) - {CurrentUserKey}
      ensures old(UsersPersisted()) ==> UsersPersisted()
      ensures old(ProgressWellFormed()) ==> ProgressWellFormed()
    {
      user := None;
      storage := storage - {CurrentUserKey};
    }

    method UpdateUserProgress(exerciseId: string, caloriesBurned: int)
      modifies this
      ensures old(user).None? ==> users == old(users) && user == old(user) && storage == old(storage)
      ensures old(user).Some? ==>
        && user == Some(Progressed(old(user).value, exerciseId, caloriesBurned))
        && users == ReplaceById(old(users), old(user).value.id, user.value)
        && storage == old(storage)[UsersKey := UserList(users)][CurrentUserKey := UserRecord(user.value)]
      ensures old(user).Some? ==> UsersPersisted() && SessionPersisted()
      ensures old(UsersPersisted()) ==> UsersPersisted()
      ensures old(SessionPersisted()) ==> SessionPersisted()
      ensures old(ProgressWellFormed()) ==> ProgressWellFormed()
      ensures old(user).Some? && old(user).value in old(users) ==> user.value in users
    {
      if user.None? {
        return;
      }
      var current := user.value;
      var updatedUser := Progressed(current, exerciseId, caloriesBurned);
      var updatedUsers := ReplaceById(users, current.id, updatedUser);
      users := updatedUsers;
      user := Some(updatedUser);
      storage := storage[UsersKey := UserList(updatedUsers)];
      storage := storage[CurrentUserKey := UserRecord(updatedUser)];
      if current in old(users) {
        ReplaceKeepsMember(old(users), current, updatedUser);
      }
    }
  }

  /** A signup that passed the duplicate-email check keeps emails distinct. */
  lemma SignupKeepsEmailsDistinct(users: seq<User>, profile: Profile, id: string, createdAt: string)
    requires EmailsDistinct(users) && !EmailTaken(users, profile.email)
    ensures EmailsDistinct(users + [NewUser(profile, id, createdAt)])
  {
  }

  /** When the current user is in the list, the record that replaces it is too. */
  lemma ReplaceKeepsMember(users: seq<User>, current: User, updated: User)
    requires current in users
    ensures updated in ReplaceById(users, current.id, updated)
  {
    var i :| 0 <= i < |users| && users[i] == current;
    assert ReplaceById(users, current.id, updated)[i] == updated;
  }

  /** Completing the same exercise twice through the store lists it once and
      counts one streak day, but adds the calories twice: the store itself
      does not guard the calorie total. */
  lemma ProgressTwice(u: User, exerciseId: string, calories: int)
    ensures var once := Progressed(u, exerciseId, calories);
            var twice := Progressed(once, exerciseId, calories);
            && twice.completedExercises == once.completedExercises
            && twice.streakDays == once.streakDays
            && twice.totalCaloriesBurned == u.totalCaloriesBurned + 2 * calories
  {
  }

  /** A new user carries exactly the signup profile: projecting a record to
      its profile and rebuilding it gives the record back exactly when its
      progress is still zero. */
  lemma NewUserRoundTrip(u: User)
    ensures NewUser(ProfileOf(u), u.id, u.createdAt) == u
            <==> u.completedExercises == [] && u.streakDays == 0 && u.totalCaloriesBurned == 0
  {
  }

  /** The first demonstration account logs in with its own credentials and
      is resumed by its id. */
  lemma FirstSeedAccount()
    ensures FindByCredentials(SampleUsers, "john.doe@student.edu", "password123") == Some(SampleUsers[0])
    ensures FindById(SampleUsers, "1") == Some(SampleUsers[0])
  {
    SampleUsersDistinct();
    assert HasCredentials(SampleUsers[0], "john.doe@student.edu", "password123");
  }

  /** Crediting exercise "2" (30 calories) or "4" (48 calories) to the first
      demonstration account appends the id and adds the calories. */
  lemma FirstSeedProgress()
    ensures Progressed(SampleUsers[0], "2", 30).completedExercises == ["1", "3", "5", "2"]
    ensures Progressed(SampleUsers[0], "4", 48).completedExercises == ["1", "3", "5", "4"]
    ensures Progressed(SampleUsers[0], "4", 48).totalCaloriesBurned == 498
  {
    var done := SampleUsers[0].completedExercises;
    assert done == ["1", "3", "5"];
    assert "2" !in done && "4" !in done;
  }

  /** A reload gives back the saved user list: every store operation keeps
      `fited-users` equal to the live list, and the mount effect adopts it. */
  method ReloadKeepsUsers(p: AuthProvider) returns (q: AuthProvider)
    requires p.UsersPersisted()
    ensures q.users == p.users && q.storage == p.storage
    ensures q.user == RestoredSession(p.storage)
  {
    q := new AuthProvider(p.storage);
  }

  /** The first demonstration account after crediting exercise "2". */
  function FirstSeedAfterSquats(): User {
    Progressed(SampleUsers[0], "2", 30)
  }

  /** What the browser holds after the first account logs in on a fresh
      storage and completes exercise "2". */
  predicate SavedFirstVisit(saved: map<string, Blob>) {
    && UsersKey in saved && saved[UsersKey] == UserList(ReplaceById(SampleUsers, "1", FirstSeedAfterSquats()))
    && CurrentUserKey in saved && saved[CurrentUserKey] == UserRecord(FirstSeedAfterSquats())
  }

  /** First visit: log in as the first account and complete exercise "2". */
  method FirstVisit() returns (saved: map<string, Blob>, completed: seq<string>)
    ensures SavedFirstVisit(saved)
    ensures completed == ["1", "3", "5", "2"]
  {
    FirstSeedAccount();
    FirstSeedProgress();
    var store := new AuthProvider(map[]);
    var ok := store.Login("john.doe@student.edu", "password123");
    assert store.user == Some(SampleUsers[0]) && SampleUsers[0].id == "1";
    store.UpdateUserProgress("2", 30);
    saved := store.storage;
    completed := store.user.value.completedExercises;
  }

  /** Second visit: the reload resumes the seed record, without exercise "2";
      completing exercise "4" then overwrites the entry saved under
      `fited-users`, whose first account then lists `afterUpdate`. */
  method SecondVisit(saved: map<string, Blob>) returns (resumed: seq<string>, afterUpdate: seq<string>, total: int)
    requires SavedFirstVisit(saved)
    ensures resumed == ["1", "3", "5"] && "2" !in resumed
    ensures afterUpdate == ["1", "3", "5", "4"] && total == 498
  {
    FirstSeedAccount();
    FirstSeedProgress();
    var john := SampleUsers[0];
    assert FirstSeedAfterSquats().id == "1" && john.id == "1";
    var reloaded := new AuthProvider(saved);
    assert reloaded.user == Some(john);
    assert reloaded.users[0] == FirstSeedAfterSquats();
    resumed := reloaded.user.value.completedExercises;
    reloaded.UpdateUserProgress("4", 48);
    assert reloaded.users[0] == Progressed(john, "4", 48);
    // read back what is now saved under `fited-users`
    var savedUsers := reloaded.storage[UsersKey].list;
    assert savedUsers == reloaded.users;
    afterUpdate := savedUsers[0].completedExercises;
    total := savedUsers[0].totalCaloriesBurned;
  }

  /** Progress made before a reload is lost: the resumed user lacks exercise
      "2", so a card would credit it again, and the next update drops it and
      its 30 calories from the saved list. */
  method ProgressLostOnReload() returns (beforeReload: seq<string>, resumed: seq<string>,
                                         afterUpdate: seq<string>, total: int)
    ensures beforeReload == ["1", "3", "5", "2"]
    ensures resumed == ["1", "3", "5"] && "2" !in resumed
    ensures afterUpdate == ["1", "3", "5", "4"] && total == 498
  {
    var saved;
    saved, beforeReload := FirstVisit();
    resumed, afterUpdate, total := SecondVisit(saved);
  }

  /** An account created by `signup` is not resumed after a reload: the
      mount effect looks the stored id up in the seed list, which does not
      hold the new account, so the reloaded store has no current user. */
  method SignupNotResumed() returns (signedUp: bool, resumed: Option<User>)
    ensures signedUp && resumed == None
  {
    SampleUsersDistinct();
    var store := new AuthProvider(map[]);
    var profile := Profile("new.student@student.edu", "secret", "New Student", 20, 60.0, 170.0, Beginner);
    assert !EmailTaken(SampleUsers, profile.email) by {
      forall i | 0 <= i < |SampleUsers| ensures SampleUsers[i].email != profile.email {
        assert SampleUsers[i].email[0] != 'n';
      }
    }
    signedUp := store.Signup(profile, "999", "t");
    var reloaded := new AuthProvider(store.storage);
    assert store.storage[CurrentUserKey].record.id == "999";
    resumed := reloaded.user;
  }
}
