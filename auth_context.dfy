/** The user directory and current-user slot of the authentication provider
    (src/contexts/AuthContext.tsx). */
module AuthContext {
  import opened Wrappers
  import opened Seqs
  import opened Text

  /** The three roles; `RegularUser` is the role the application spells 'user'. */
  datatype UserRole = Admin | Verifier | RegularUser

  datatype User = User(id: string, name: string, email: string, role: UserRole)

  /** Why an authentication operation throws. */
  datatype AuthError =
    | InvalidCredentials   // 'Invalid email or password'
    | EmailInUse           // 'Email already in use'
    | Unauthorized         // 'Unauthorized: Only admins can ...'
    | CannotRemoveSelf     // 'You cannot remove yourself as admin'
    | AdminNotFound        // 'Admin not found'

  /** The three demonstration accounts the directory starts with. */
  const MockUsers: seq<User> := [
    User("1", "Admin User", "admin@example.com", Admin),
    User("2", "John Okoh", "verifier@example.com", Verifier),
    User("3", "Regular User", "user@example.com", RegularUser)
  ]

  /** The key under which emails are compared: lower-cased. */
  function EmailKey(u: User): string
  {
    ToLower(u.email)
  }

  predicate SameEmail(u: User, email: string)
  {
    ToLower(u.email) == ToLower(email)
  }

  /** No two users share an email, ignoring case. */
  ghost predicate EmailsDistinct(users: seq<User>)
  {
    DistinctBy(users, EmailKey)
  }

  /** `users.find(u => u.email.toLowerCase() === email.toLowerCase())`. */
  function FindByEmail(users: seq<User>, email: string): (r: Option<User>)
    ensures r.None? <==> forall k :: 0 <= k < |users| ==> !SameEmail(users[k], email)
    ensures r.Some? <==> exists k :: 0 <= k < |users| && SameEmail(users[k], email)
    ensures r.Some? ==> exists k :: 0 <= k < |users| && users[k] == r.value && SameEmail(r.value, email)
                          && forall j :: 0 <= j < k ==> !SameEmail(users[j], email)
  {
    var p := (u: User) => SameEmail(u, email);
    var r := Find(users, p);
    assert r.Some? ==> users[FirstIndex(users, p)] == r.value;
    r
  }

  /** `users.some(u => u.email.toLowerCase() === email.toLowerCase())`. */
  predicate EmailTaken(users: seq<User>, email: string)
  {
    FindByEmail(users, email).Some?
  }

  /** The account created by `register` or `addAdmin` when the directory holds `count` users:
      its id is `count + 1` written in decimal. */
  function NewUser(count: nat, name: string, email: string, role: UserRole): User
  {
    User(ToDecimal(count + 1), name, email, role)
  }

  predicate IsAdmin(current: Option<User>)
  {
    current.Some? && current.value.role == Admin
  }

  /** `users.find(u => u.id === id && u.role === 'admin')` finds someone. */
  predicate AdminExists(users: seq<User>, id: string)
  {
    Find(users, (u: User) => u.id == id && u.role == Admin).Some?
  }

  /** `users.filter(u => u.id !== id)`: every user with that id goes, the others stay in order. */
  function WithoutId(users: seq<User>, id: string): (r: seq<User>)
    ensures IsSubseq(r, users)
    ensures forall k :: 0 <= k < |r| ==> r[k].id != id
    ensures forall k :: 0 <= k < |users| && users[k].id != id ==> users[k] in r
  {
    FilterSpec(users, (u: User) => u.id != id);
    Filter(users, (u: User) => u.id != id)
  }

  /** When exactly one user carries the id, the filter deletes just that user. */
  lemma WithoutIdDropsOne(users: seq<User>, id: string, k: nat)
    requires k < |users| && users[k].id == id
    requires forall j :: 0 <= j < |users| && j != k ==> users[j].id != id
    ensures WithoutId(users, id) == users[..k] + users[k + 1..]
  {
    FilterDropsOne(users, (u: User) => u.id != id, k);
  }

  /** The filter keeps, in order and with every copy, exactly the users with another id. */
  lemma WithoutIdSpec(users: seq<User>, id: string)
    ensures var r := WithoutId(users, id);
            && IsSubseq(r, users)
            && (forall k :: 0 <= k < |r| ==> r[k].id != id)
            && (forall k :: 0 <= k < |users| && users[k].id != id ==> users[k] in r)
            && (forall u :: multiset(r)[u] == if u.id != id then multiset(users)[u] else 0)
  {
    FilterSpec(users, (u: User) => u.id != id);
  }

  /** Appending an account whose email is not taken keeps emails distinct. */
  lemma AppendKeepsEmailsDistinct(users: seq<User>, u: User)
    requires EmailsDistinct(users)
    requires !EmailTaken(users, u.email)
    ensures EmailsDistinct(users + [u])
  {
    var r := users + [u];
    forall i, j | 0 <= i < j < |r| ensures EmailKey(r[i]) != EmailKey(r[j]) {
      if j == |users| {
        assert !SameEmail(users[i], u.email);
      }
    }
  }

  /** An admin stored under `id` is found by `removeAdmin`'s lookup. */
  lemma AdminExistsAt(users: seq<User>, k: nat)
    requires k < |users| && users[k].role == Admin
    ensures AdminExists(users, users[k].id)
  {
  }

  /** `some` on the emails: an email is taken iff a stored email equals it, ignoring case. */
  lemma EmailTakenIff(users: seq<User>, email: string)
    ensures EmailTaken(users, email) <==> exists k :: 0 <= k < |users| && SameEmail(users[k], email)
  {
  }

  /** The removal lookup succeeds iff some stored user is an admin with that id. */
  lemma AdminExistsIff(users: seq<User>, id: string)
    ensures AdminExists(users, id) <==> exists k :: 0 <= k < |users| && users[k].id == id && users[k].role == Admin
  {
    var p := (u: User) => u.id == id && u.role == Admin;
    if AdminExists(users, id) {
      var k := FirstIndex(users, p);
      assert users[k].id == id && users[k].role == Admin;
    }
  }

  /** Accounts created at different directory sizes get different ids. */
  lemma NewUserIdsDiffer(m: nat, n: nat, name: string, email: string, role: UserRole,
                         name': string, email': string, role': UserRole)
    requires m != n
    ensures NewUser(m, name, email, role).id != NewUser(n, name', email', role').id
    ensures NewUser(m, name, email, role).role == role && NewUser(m, name, email, role).email == email
  {
    if ToDecimal(m + 1) == ToDecimal(n + 1) {
      ToDecimalInjective(m + 1, n + 1);
    }
  }

  /** An email whose length differs from every stored email cannot be taken. */
  lemma FreshLengthNotTaken(users: seq<User>, email: string)
    requires forall k :: 0 <= k < |users| ==> |users[k].email| != |email|
    ensures !EmailTaken(users, email)
  {
    forall k | 0 <= k < |users| ensures !SameEmail(users[k], email) {
      assert |ToLower(users[k].email)| != |ToLower(email)|;
    }
  }

  /** Removing users keeps emails distinct. */
  lemma WithoutIdKeepsEmailsDistinct(users: seq<User>, id: string)
    requires EmailsDistinct(users)
    ensures EmailsDistinct(WithoutId(users, id))
  {
    FilterKeepsDistinct(users, (u: User) => u.id != id, EmailKey);
  }

  /** The provider's state: the user list and the signed-in user. */
  class AuthProvider {
    var users: seq<User>
    var currentUser: Option<User>

    ghost predicate Valid()
      reads this
    {
      EmailsDistinct(users)
    }

    /** Starts from the demonstration accounts; `savedUser` is whatever was
        restored from local storage (the empty slot when nothing was saved). */
    constructor (savedUser: Option<User>)
      ensures Valid()
      ensures users == MockUsers && currentUser == savedUser
    {
      users := MockUsers;
      currentUser := savedUser;
    }

    /** Signs in the first user whose email matches case-insensitively; the password is not checked. */
    method Login(email: string, password: string) returns (r: Outcome<AuthError>)
      requires Valid()
      modifies this
      ensures Valid() && users == old(users)
      ensures r.Fail? <==> !EmailTaken(users, email)
      ensures r.Fail? ==> r.error == InvalidCredentials && currentUser == old(currentUser)
      ensures r.Pass? ==> currentUser == FindByEmail(users, email)
    {
      var found := FindByEmail(users, email);
      if found.None? {
        return Fail(InvalidCredentials);
      }
      currentUser := found;
      r := Pass;
    }

    method Logout()
      requires Valid()
      modifies this
      ensures Valid() && users == old(users) && currentUser == None
    {
      currentUser := None;
    }

    /** Creates an account with the next id and signs it in, unless the email is taken. */
    method Register(name: string, email: string, password: string, role: UserRole := RegularUser)
      returns (r: Outcome<AuthError>)
      requires Valid()
      modifies this
      ensures Valid()
      ensures r.Fail? <==> EmailTaken(old(users), email)
      ensures r.Fail? ==> r.error == EmailInUse && users == old(users) && currentUser == old(currentUser)
      ensures r.Pass? ==> var u := NewUser(|old(users)|, name, email, role);
                          users == old(users) + [u] && currentUser == Some(u)
    {
      if EmailTaken(users, email) {
        return Fail(EmailInUse);
      }
      var u := NewUser(|users|, name, email, role);
      AppendKeepsEmailsDistinct(users, u);
      users := users + [u];
      currentUser := Some(u);
      r := Pass;
    }

    /** An admin creates another admin account; the signed-in user does not change. */
    method AddAdmin(name: string, email: string, password: string) returns (r: Outcome<AuthError>)
      requires Valid()
      modifies this
      ensures Valid() && currentUser == old(currentUser)
      ensures r == (if !IsAdmin(currentUser) then Fail(Unauthorized)
                    else if EmailTaken(old(users), email) then Fail(EmailInUse)
                    else Pass)
      ensures r.Fail? ==> users == old(users)
      ensures r.Pass? ==> users == old(users) + [NewUser(|old(users)|, name, email, Admin)]
    {
      if !IsAdmin(currentUser) {
        return Fail(Unauthorized);
      }
      if EmailTaken(users, email) {
        return Fail(EmailInUse);
      }
      var u := NewUser(|users|, name, email, Admin);
      AppendKeepsEmailsDistinct(users, u);
      users := users + [u];
      r := Pass;
    }

    /** An admin removes another admin: every user carrying that id is dropped. */
    method RemoveAdmin(id: string) returns (r: Outcome<AuthError>)
      requires Valid()
      modifies this
      ensures Valid() && currentUser == old(currentUser)
      ensures r == (if !IsAdmin(currentUser) then Fail(Unauthorized)
                    else if id == currentUser.value.id then Fail(CannotRemoveSelf)
                    else if !AdminExists(old(users), id) then Fail(AdminNotFound)
                    else Pass)
      ensures r.Fail? ==> users == old(users)
      ensures r.Pass? ==> users == WithoutId(old(users), id)
      ensures r.Pass? && currentUser.value in old(users) ==> currentUser.value in users
    {
      if !IsAdmin(currentUser) {
        return Fail(Unauthorized);
      }
      if id == currentUser.value.id {
        return Fail(CannotRemoveSelf);
      }
      if !AdminExists(users, id) {
        return Fail(AdminNotFound);
      }
      WithoutIdKeepsEmailsDistinct(users, id);
      users := WithoutId(users, id);
      r := Pass;
    }
  }
}

/** How a user id comes to be issued twice, and what `removeAdmin` then does. */
module AuthScenarios {
  import opened Wrappers
  import opened Text
  import opened AuthContext

  /** Ids are `length + 1` and `removeAdmin` shortens the list, so an id can be
      issued twice: the admin adds admins "4" and "5" and removes "4", and the
      next account registered is "5" again. Removing admin "5" then also removes
      that regular account. */
  method ReissuedId() returns (admin: User, member: User, remaining: seq<User>)
    ensures admin.id == member.id == "5"
    ensures admin.role == Admin && member.role == RegularUser
    ensures member !in remaining && admin !in remaining
  {
    var auth := new AuthProvider(Some(MockUsers[0]));
    admin := AddTwoRemoveFirst(auth);
    member := RegisterAndRemove(auth, admin);
    remaining := auth.users;
  }

  /** The first admin adds admins "4" and "5" and removes "4". */
  method AddTwoRemoveFirst(auth: AuthProvider) returns (admin: User)
    requires auth.Valid() && auth.users == MockUsers && auth.currentUser == Some(MockUsers[0])
    modifies auth
    ensures auth.Valid() && auth.currentUser == Some(MockUsers[0])
    ensures auth.users == MockUsers + [admin]
    ensures admin == User("5", "Bea", "bea@example.co", Admin)
  {
    var first := User("4", "Ada", "ada@example.com", Admin);
    admin := User("5", "Bea", "bea@example.co", Admin);
    AddTwoAdmins(auth, first, admin);
    AdminExistsAt(auth.users, 3);
    RemoveFourth(first, admin);
    var r := auth.RemoveAdmin("4");
  }

  lemma RemoveFourth(first: User, admin: User)
    requires first.id == "4" && admin.id == "5"
    ensures WithoutId(MockUsers + [first, admin], "4") == MockUsers + [admin]
  {
    var five := MockUsers + [first, admin];
    forall j | 0 <= j < |five| && j != 3 ensures five[j].id != "4" {
      assert five[j] in MockUsers || five[j] == admin;
    }
    WithoutIdDropsOne(five, "4", 3);
    assert five[..3] == MockUsers && five[4..] == [admin];
  }

  /** The signed-in first admin adds an admin whose email is new. */
  method AddFreshAdmin(auth: AuthProvider, admin: User)
    requires auth.Valid() && auth.currentUser == Some(MockUsers[0])
    requires admin == NewUser(|auth.users|, admin.name, admin.email, Admin)
    requires forall k :: 0 <= k < |auth.users| ==> |auth.users[k].email| != |admin.email|
    modifies auth
    ensures auth.Valid() && auth.currentUser == Some(MockUsers[0])
    ensures auth.users == old(auth.users) + [admin]
  {
    FreshLengthNotTaken(auth.users, admin.email);
    var r := auth.AddAdmin(admin.name, admin.email, "secret");
  }

  method AddTwoAdmins(auth: AuthProvider, first: User, second: User)
    requires auth.Valid() && auth.users == MockUsers && auth.currentUser == Some(MockUsers[0])
    requires first == User("4", "Ada", "ada@example.com", Admin)
    requires second == User("5", "Bea", "bea@example.co", Admin)
    modifies auth
    ensures auth.Valid() && auth.currentUser == Some(MockUsers[0])
    ensures auth.users == MockUsers + [first, second]
  {
    assert ToDecimal(4) == "4";
    AddFreshAdmin(auth, first);
    assert ToDecimal(5) == "5";
    AddFreshAdmin(auth, second);
    assert MockUsers + [first] + [second] == MockUsers + [first, second];
  }

  /** A new account is registered, which reuses id "5"; the first admin signs in
      again and removes admin "5". */
  method RegisterAndRemove(auth: AuthProvider, admin: User) returns (member: User)
    requires auth.Valid() && auth.users == MockUsers + [admin]
    requires admin == User("5", "Bea", "bea@example.co", Admin)
    modifies auth
    ensures member.id == "5" && member.role == RegularUser
    ensures member !in auth.users && admin !in auth.users
  {
    var four := auth.users;
    FreshLengthNotTaken(four, "cy@example.io");
    var r := auth.Register("Cy", "cy@example.io", "secret");
    assert ToDecimal(5) == "5";
    member := NewUser(4, "Cy", "cy@example.io", RegularUser);
    assert auth.users == four + [member];
    assert SameEmail(auth.users[0], "admin@example.com");
    r := auth.Login("admin@example.com", "anything");
    assert auth.currentUser == Some(MockUsers[0]);
    AdminExistsAt(auth.users, 3);
    r := auth.RemoveAdmin("5");
    assert r == Pass;
  }
}
