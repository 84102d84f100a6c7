/**
 * UserController (api/User): the admin's user ledger. Usernames and
 * e-mail addresses are unique among live users (`UniqueLive`); every
 * action keeps that, an admin cannot delete their own account, and the
 * listing never shows a password.
 */
module UserController {
  import opened Wrappers
  import opened Clr
  import opened Linq
  import opened Entities
  import opened Responses
  import opened Data

  // ---------------------------------------------------------------- uniqueness

  /** A live user already has this username. */
  predicate UsernameInUse(users: map<int, Account>, username: string) {
    exists k | k in users :: users[k].username == username && users[k].IsLive()
  }

  /** A live user other than `except` already has this e-mail. */
  predicate EmailInUse(users: map<int, Account>, email: string, except: Option<int>) {
    exists k | k in users :: users[k].email == email && (except.None? || users[k].id != except.value) && users[k].IsLive()
  }

  /** Among live users, usernames are pairwise distinct and so are e-mail addresses. */
  ghost predicate UniqueLive(users: map<int, Account>) {
    forall i, j :: i in users && j in users && i != j && users[i].IsLive() && users[j].IsLive() ==>
      users[i].username != users[j].username && users[i].email != users[j].email
  }

  // ---------------------------------------------------------------- CreateUser

  /** The row CreateUser inserts; `hash` stands for BCrypt's password hashing. */
  function NewAccount(id: int, req: CreateUserRequest, hash: string -> string, now: Instant): Account {
    Account(id, req.username, req.email, hash(req.password), req.fullName, req.phoneNumber, req.role, now, None, None)
  }

  method CreateUser(db: Db, req: CreateUserRequest, hash: string -> string, now: Instant) returns (r: Outcome)
    requires db.Valid()
    modifies db`users, db`nextUserId
    ensures db.Valid()
    ensures UsernameInUse(old(db.users), req.username) ==> r == BadRequest(UsernameTaken)
    ensures !UsernameInUse(old(db.users), req.username) && EmailInUse(old(db.users), req.email, None)
            ==> r == BadRequest(EmailTaken)
    ensures r.Created? <==> !UsernameInUse(old(db.users), req.username) && !EmailInUse(old(db.users), req.email, None)
    ensures r.Created? ==>
      && r.id == old(db.nextUserId) && r.id !in old(db.users)
      && db.users == old(db.users)[r.id := NewAccount(r.id, req, hash, now)]
      && db.users[r.id].password == hash(req.password)
      && db.nextUserId == r.id + 1
    ensures !r.Created? ==> db.users == old(db.users) && db.nextUserId == old(db.nextUserId)
    ensures UniqueLive(old(db.users)) ==> UniqueLive(db.users)
  {
    if UsernameInUse(db.users, req.username) {
      return BadRequest(UsernameTaken);
    }
    if EmailInUse(db.users, req.email, None) {
      return BadRequest(EmailTaken);
    }
    var id := db.nextUserId;
    var hashedPassword := hash(req.password);
    var user := Account(id, req.username, req.email, hashedPassword, req.fullName, req.phoneNumber, req.role, now, None, None);
    db.users := db.users[id := user];
    db.nextUserId := id + 1;
    r := Created(id);
  }

  /**
   * The checks look only at live users, so a soft-deleted user's username
   * and e-mail can be taken again.
   */
  lemma DeletedNamesAreFree(users: map<int, Account>, req: CreateUserRequest)
    requires forall k :: k in users && (users[k].username == req.username || users[k].email == req.email)
                         ==> !users[k].IsLive()
    ensures !UsernameInUse(users, req.username) && !EmailInUse(users, req.email, None)
  {
  }

  // ---------------------------------------------------------------- UpdateUser

  /** UpdateUser's effect: Email, FullName, PhoneNumber and UpdatedAt; username, password and role stay. */
  function Edited(u: Account, req: UpdateUserRequest, now: Instant): (r: Account)
    ensures r.id == u.id && r.username == u.username && r.password == u.password && r.role == u.role
    ensures r.createdAt == u.createdAt && r.deletedAt == u.deletedAt
    ensures r.email == req.email && r.fullName == req.fullName && r.phoneNumber == req.phoneNumber
    ensures r.updatedAt == Some(now)
  {
    u.(email := req.email, fullName := req.fullName, phoneNumber := req.phoneNumber, updatedAt := Some(now))
  }

  method UpdateUser(db: Db, id: int, req: UpdateUserRequest, now: Instant) returns (r: Outcome)
    requires db.Valid()
    modifies db`users
    ensures db.Valid()
    ensures !AccountIsLive(old(db.users), id) ==> r == NotFound
    ensures AccountIsLive(old(db.users), id) && EmailInUse(old(db.users), req.email, Some(id)) ==> r == BadRequest(EmailTaken)
    ensures r == Ok <==> AccountIsLive(old(db.users), id) && !EmailInUse(old(db.users), req.email, Some(id))
    ensures r == Ok ==> db.users == old(db.users)[id := Edited(old(db.users)[id], req, now)]
    ensures r != Ok ==> db.users == old(db.users)
    ensures UniqueLive(old(db.users)) ==> UniqueLive(db.users)
  {
    if !(id in db.users && db.users[id].IsLive()) {
      return NotFound;
    }
    if EmailInUse(db.users, req.email, Some(id)) {
      return BadRequest(EmailTaken);
    }
    var user := db.users[id];
    user := user.(email := req.email);
    user := user.(fullName := req.fullName);
    user := user.(phoneNumber := req.phoneNumber);
    user := user.(updatedAt := Some(now));
    db.users := db.users[id := user];
    r := Ok;
  }

  /** A user may keep their own e-mail: the check skips their own row. */
  lemma OwnEmailIsNotTaken(users: map<int, Account>, id: int)
    requires forall k :: k in users ==> users[k].id == k
    requires UniqueLive(users) && AccountIsLive(users, id)
    ensures !EmailInUse(users, users[id].email, Some(id))
  {
  }

  // ---------------------------------------------------------------- DeleteUser

  /**
   * `currentUserId` is the caller's NameIdentifier claim as an integer (0
   * when the claim is missing).
   */
  method DeleteUser(db: Db, id: int, currentUserId: int, now: Instant) returns (r: Outcome)
    requires db.Valid()
    modifies db`users
    ensures db.Valid()
    ensures !AccountIsLive(old(db.users), id) ==> r == NotFound
    ensures AccountIsLive(old(db.users), id) && id == currentUserId ==> r == BadRequest(SelfDelete)
    ensures r == Ok <==> AccountIsLive(old(db.users), id) && id != currentUserId
    ensures r == Ok ==> db.users == old(db.users)[id := old(db.users)[id].(deletedAt := Some(now))]
    ensures r != Ok ==> db.users == old(db.users)
    ensures AccountIsLive(old(db.users), currentUserId) ==> AccountIsLive(db.users, currentUserId)
    ensures UniqueLive(old(db.users)) ==> UniqueLive(db.users)
  {
    if !(id in db.users && db.users[id].IsLive()) {
      return NotFound;
    }
    var user := db.users[id];
    if user.id == currentUserId {
      return BadRequest(SelfDelete);
    }
    db.users := db.users[id := user.(deletedAt := Some(now))];
    r := Ok;
  }

  // ---------------------------------------------------------------- reading

  /** The `UserResponse` projection: every column but the password and DeletedAt. */
  function ToResponse(u: Account): UserResponse {
    UserResponse(u.id, u.username, u.email, u.fullName, u.phoneNumber, u.role.Name(), u.createdAt, u.updatedAt)
  }

  /** The projection does not depend on the password at all. */
  lemma ResponseHidesPassword(u: Account, password: string)
    ensures ToResponse(u.(password := password)) == ToResponse(u)
    ensures ToResponse(u).role == u.role.Name()
  {
  }

  /** `Enum.TryParse<UserRole>(role, ignoreCase: true, ...)` for the role names. */
  function ParseRole(s: string): (r: Option<UserRole>)
    ensures r.Some? ==> EqualsIgnoreCase(Trim(s), r.value.Name())
    ensures r.None? ==> !EqualsIgnoreCase(Trim(s), "Admin") && !EqualsIgnoreCase(Trim(s), "User")
  {
    var t := Trim(s);
    if EqualsIgnoreCase(t, "Admin") then Some(Admin)
    else if EqualsIgnoreCase(t, "User") then Some(User)
    else None
  }

  /** A role's own name parses back to it, in any ASCII casing. */
  lemma ParseRoleName(role: UserRole, s: string)
    requires s == role.Name() || s == LowerAscii(role.Name())
    ensures ParseRole(s) == Some(role)
  {
    assert Trim(s) == s by {
      assert !IsWhiteSpace(s[0]) && !IsWhiteSpace(s[|s| - 1]);
    }
  }

  function LowerAscii(s: string): (r: string)
    ensures |r| == |s|
  {
    seq(|s|, i requires 0 <= i < |s| => if 'A' <= s[i] <= 'Z' then (s[i] as int + 32) as char else s[i])
  }

  /** The role filter applies only when the text is present and names a role. */
  function RoleFilter(role: Option<string>): Option<UserRole> {
    if IsNullOrWhiteSpace(role) then None else ParseRole(role.value)
  }

  /** The filters of GetAllUsers: live, search over username, e-mail and full name, and the parsed role. */
  predicate UserMatches(u: Account, search: Option<string>, role: Option<string>) {
    && u.IsLive()
    && (IsNullOrWhiteSpace(search)
        || Contains(u.username, search.value)
        || Contains(u.email, search.value)
        || Contains(u.fullName, search.value))
    && (RoleFilter(role).None? || u.role == RoleFilter(role).value)
  }

  function UserFilter(search: Option<string>, role: Option<string>): Account -> bool {
    (u: Account) => UserMatches(u, search, role)
  }

  function UsernameOf(u: Account): string {
    u.username
  }

  /** The whole GetAllUsers result before paging and projection, in ordinal username order. */
  function MatchingUsers(users: map<int, Account>, search: Option<string>, role: Option<string>): (r: seq<Account>)
    ensures forall u :: u in r <==> u in users.Values && UserMatches(u, search, role)
    ensures forall i, j :: 0 <= i < j < |r| ==> OrdinalLe(r[i].username, r[j].username)
    ensures |r| == |set k | k in users && UserMatches(users[k], search, role)|
  {
    var keep := UserFilter(search, role);
    AscendingTextIsTotalPreorder(UsernameOf);
    var r := Query(users, keep, AscendingText(UsernameOf));
    SortedAscendingText(r, UsernameOf);
    assert KeysWhere(users, keep) == set k | k in users && UserMatches(users[k], search, role);
    r
  }

  /** GET api/User: one page of the matching users, projected, counted before paging. */
  function GetAllUsers(users: map<int, Account>, search: Option<string>, role: Option<string>,
                       page: int, pageSize: int): (r: Paged<UserResponse>)
    ensures forall x :: x in r.items ==> exists u :: u in users.Values && UserMatches(u, search, role) && x == ToResponse(u)
    ensures forall i, j :: 0 <= i < j < |r.items| ==> OrdinalLe(r.items[i].username, r.items[j].username)
    ensures r.totalCount == |MatchingUsers(users, search, role)|
    ensures SensiblePaging(page, pageSize) ==>
      (page - 1) * pageSize >= 0 &&
      r.items == Select(Window(MatchingUsers(users, search, role), (page - 1) * pageSize, pageSize), ToResponse)
  {
    var keep := UserFilter(search, role);
    var le := AscendingText(UsernameOf);
    assert MatchingUsers(users, search, role) == Query(users, keep, le);
    var p := PagedQuery(users, keep, le, page, pageSize);
    AscendingTextIsTotalPreorder(UsernameOf);
    SortedAscendingText(p.items, UsernameOf);
    var items := Select(p.items, ToResponse);
    assert forall i :: 0 <= i < |items| ==>
      p.items[i] in users.Values && UserMatches(p.items[i], search, role) && items[i] == ToResponse(p.items[i]) by {
      forall i | 0 <= i < |items|
        ensures p.items[i] in users.Values && keep(p.items[i])
      {
        assert p.items[i] in p.items;
      }
    }
    Paged(items, p.totalCount)
  }

  /** GET api/User/{id}: the projection of a live user. */
  function GetUser(users: map<int, Account>, id: int): (r: Option<UserResponse>)
    requires forall k :: k in users ==> users[k].id == k
    ensures r.Some? <==> AccountIsLive(users, id)
    ensures r.Some? ==> r.value == ToResponse(users[id])
  {
    var hits := Where(Rows(users), (u: Account) => u.id == id && u.IsLive());
    assert AccountIsLive(users, id) ==> users[id] in hits;
    if hits == [] then None
    else
      assert hits[0] in users.Values;
      Some(ToResponse(hits[0]))
  }

  // ---------------------------------------------------------------- scenarios

  function Request(username: string, email: string): CreateUserRequest {
    CreateUserRequest(username, email, "rahasia", "Pengguna", None, User)
  }

  /** A second "budi" is refused, and so is a new username with budi's e-mail. */
  method DuplicateSignups(hash: string -> string, now: Instant) returns (outcomes: seq<Outcome>)
    ensures outcomes == [Created(1), BadRequest(UsernameTaken), BadRequest(EmailTaken), Created(2)]
  {
    var db := new Db();
    var first := CreateUser(db, Request("budi", "budi@pens.ac.id"), hash, now);
    assert db.users[1].username == "budi" && db.users[1].IsLive();
    var sameName := CreateUser(db, Request("budi", "lain@pens.ac.id"), hash, now);
    var sameEmail := CreateUser(db, Request("budi2", "budi@pens.ac.id"), hash, now);
    assert db.users.Keys == {1};
    var other := CreateUser(db, Request("siti", "siti@pens.ac.id"), hash, now);
    outcomes := [first, sameName, sameEmail, other];
  }

  /** An admin cannot delete their own account; once another admin deletes it, the name is free again. */
  method DeleteAndReuse(hash: string -> string, now: Instant) returns (outcomes: seq<Outcome>)
    ensures outcomes == [BadRequest(SelfDelete), Ok, Created(2)]
  {
    var db := new Db();
    db.users := map[1 := NewAccount(1, Request("budi", "budi@pens.ac.id"), hash, now)];
    db.nextUserId := 2;
    var self := DeleteUser(db, 1, 1, now);
    var byOther := DeleteUser(db, 1, 7, now);
    assert db.users.Keys == {1} && !db.users[1].IsLive();
    var again := CreateUser(db, Request("budi", "budi@pens.ac.id"), hash, now);
    outcomes := [self, byOther, again];
  }
}
