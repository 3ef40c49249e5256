/**
 * The demo Users API: an in-memory store of users keyed by id, with a counter for the next id,
 * and the handlers that create, read, update, delete, list and search users. Each handler gives
 * a status code and a JSON body; routing and serialisation are not modelled. A request body is
 * the decoded JSON object, or `None` when the request has no JSON body.
 */
module DemoApp {

  import opened Wrappers
  import opened Text
  import opened PyValues
  import opened Picking

  /** A stored user; `name`, `email` and `role` are whatever JSON values the request carried. */
  datatype User = User(id: int, name: Json, email: Json, role: Json)

  function UserJson(u: User): Json
  {
    JDict([("id", JInt(u.id)), ("name", u.name), ("email", u.email), ("role", u.role)])
  }

  function UsersJson(users: seq<User>): (r: seq<Json>)
    ensures |r| == |users| && forall i :: 0 <= i < |users| ==> r[i] == UserJson(users[i])
  {
    seq(|users|, i requires 0 <= i < |users| => UserJson(users[i]))
  }

  /** A handler's answer: status code and JSON body. */
  datatype Reply = Reply(status: int, body: Json)

  function ErrorReply(status: int, message: string): Reply
  {
    Reply(status, JDict([("error", JStr(message))]))
  }

  const NotFound: Reply := ErrorReply(404, "User not found")
  const BodyRequired: Reply := ErrorReply(400, "Request body is required")

  /** `users_db` as its values in insertion order (each stored under its own id), and `next_id`. */
  datatype Store = Store(users: seq<User>, nextId: int)

  const EmptyStore: Store := Store([], 1)

  /** Ids are distinct, positive and below the counter. */
  predicate Valid(s: Store)
  {
    1 <= s.nextId
    && (forall i :: 0 <= i < |s.users| ==> 1 <= s.users[i].id < s.nextId)
    && (forall i, j :: 0 <= i < j < |s.users| ==> s.users[i].id != s.users[j].id)
  }

  /** `users_db.get(user_id)`, as the position of the user stored under `id`. */
  function Lookup(users: seq<User>, id: int): (r: Option<nat>)
    ensures r.Some? ==> r.value < |users| && users[r.value].id == id
    ensures r.None? <==> forall i :: 0 <= i < |users| ==> users[i].id != id
    decreases |users|
  {
    if users == [] then None
    else if users[0].id == id then Some(0)
    else
      var rest := Lookup(users[1..], id);
      assert rest.None? ==> forall i :: 1 <= i < |users| ==> users[i].id == users[1..][i - 1].id;
      if rest.Some? then Some(rest.value + 1) else None
  }

  /** Some stored user already has this email. */
  predicate EmailTaken(users: seq<User>, email: Json)
  {
    exists i :: 0 <= i < |users| && users[i].email == email
  }

  // ---------------------------------------------------------------- handlers on a store value

  /** `create_user` */
  function CreateUser(s: Store, data: Option<Dict<Json>>): (Store, Reply)
  {
    if data.None? || data.value == [] then (s, BodyRequired)
    else if !HasKey(data.value, "name") then (s, ErrorReply(400, "Name is required"))
    else if !HasKey(data.value, "email") then (s, ErrorReply(400, "Email is required"))
    else
      var email := Get(data.value, "email").value;
      if EmailTaken(s.users, email) then (s, ErrorReply(409, "Email already exists"))
      else
        var user := User(s.nextId, Get(data.value, "name").value, email, Get(data.value, "role").GetOr(JStr("user")));
        (Store(s.users + [user], s.nextId + 1), Reply(201, UserJson(user)))
  }

  /** `get_user` */
  function GetUser(s: Store, id: int): Reply
  {
    match Lookup(s.users, id)
    case None => NotFound
    case Some(i) => Reply(200, UserJson(s.users[i]))
  }

  /** The user with the name, email and role keys of `data` that are present copied over it. */
  function Patched(u: User, data: Dict<Json>): User
  {
    u.(name := Get(data, "name").GetOr(u.name),
       email := Get(data, "email").GetOr(u.email),
       role := Get(data, "role").GetOr(u.role))
  }

  /** `update_user` as written: the user must exist, then a falsy body, `{}` included, is refused. */
  function UpdateUser(s: Store, id: int, data: Option<Dict<Json>>): (Store, Reply)
  {
    match Lookup(s.users, id)
    case None => (s, NotFound)
    case Some(i) =>
      if data.None? || data.value == [] then (s, BodyRequired)
      else
        var u := Patched(s.users[i], data.value);
        (s.(users := s.users[i := u]), Reply(200, UserJson(u)))
  }

  /** `update_user` as its golden test expects it: only a missing body is refused; `{}` changes nothing. */
  function UpdateUserIntended(s: Store, id: int, data: Option<Dict<Json>>): (Store, Reply)
  {
    match Lookup(s.users, id)
    case None => (s, NotFound)
    case Some(i) =>
      if data.None? then (s, BodyRequired)
      else
        var u := Patched(s.users[i], data.value);
        (s.(users := s.users[i := u]), Reply(200, UserJson(u)))
  }

  const Deleted: Reply := Reply(200, JDict([("message", JStr("User deleted"))]))

  /** `delete_user`: `users_db.pop(user_id, None)` */
  function DeleteUser(s: Store, id: int): (Store, Reply)
  {
    match Lookup(s.users, id)
    case None => (s, NotFound)
    case Some(i) => (s.(users := s.users[..i] + s.users[i + 1..]), Deleted)
  }

  /** The `{"users": [...], "total": n}` body. */
  function UserListReply(users: seq<User>): Reply
  {
    Reply(200, JDict([("users", JList(UsersJson(users))), ("total", JInt(|users|))]))
  }

  /** `list_users` */
  function ListUsers(s: Store): Reply
  {
    UserListReply(s.users)
  }

  /**
   * Whether the lower-cased name, then the lower-cased email, contains `q`. `Failure` is the
   * `AttributeError` raised when the field it reaches is not a string.
   */
  function HitOf(u: User, q: string): Result<bool>
  {
    match u.name
    case JStr(n) =>
      if Contains(Lower(n), q) then Success(true)
      else (match u.email
            case JStr(e) => Success(Contains(Lower(e), q))
            case _ => Failure("AttributeError"))
    case _ => Failure("AttributeError")
  }

  /** The search comprehension over the users in store order; the first raising user ends it. */
  function SearchHits(users: seq<User>, q: string): Result<seq<User>>
    decreases |users|
  {
    if users == [] then Success([])
    else
      var n := |users| - 1;
      match SearchHits(users[..n], q)
      case Failure(e) => Failure(e)
      case Success(hits) =>
        match HitOf(users[n], q)
        case Failure(e) => Failure(e)
        case Success(hit) => Success(if hit then hits + [users[n]] else hits)
  }

  /** `search_users`, `q` being the query argument if any; `Failure` is an exception Flask turns into 500. */
  function SearchUsers(s: Store, q: Option<string>): Result<Reply>
  {
    var query := q.GetOr("");
    if query == [] then Success(ErrorReply(400, "Query parameter 'q' is required"))
    else
      match SearchHits(s.users, Lower(query))
      case Failure(e) => Failure(e)
      case Success(hits) => Success(UserListReply(hits))
  }

  // ---------------------------------------------------------------- the module-level store

  /** `users_db` and `next_id`, which the handlers update in place. */
  class UserStore {
    var users: seq<User>
    var nextId: int

    constructor()
      ensures State() == EmptyStore
    {
      users := [];
      nextId := 1;
    }

    function State(): Store
      reads this
    {
      Store(users, nextId)
    }

    /** `create_user`, with its loop over the stored users looking for the email. */
    method Create(data: Option<Dict<Json>>) returns (reply: Reply)
      modifies this
      ensures (State(), reply) == CreateUser(old(State()), data)
    {
      if data.None? || data.value == [] {
        return BodyRequired;
      }
      var body := data.value;
      if !HasKey(body, "name") {
        return ErrorReply(400, "Name is required");
      }
      if !HasKey(body, "email") {
        return ErrorReply(400, "Email is required");
      }
      var email := Get(body, "email").value;
      for i := 0 to |users|
        invariant forall j :: 0 <= j < i ==> users[j].email != email
      {
        if users[i].email == email {
          return ErrorReply(409, "Email already exists");
        }
      }
      var user := User(nextId, Get(body, "name").value, email, Get(body, "role").GetOr(JStr("user")));
      users := users + [user];
      nextId := nextId + 1;
      reply := Reply(201, UserJson(user));
    }

    /** `update_user` as written. */
    method Update(id: int, data: Option<Dict<Json>>) returns (reply: Reply)
      modifies this
      ensures (State(), reply) == UpdateUser(old(State()), id, data)
    {
      var found := Lookup(users, id);
      if found.None? {
        return NotFound;
      }
      if data.None? || data.value == [] {
        return BodyRequired;
      }
      var user := Patched(users[found.value], data.value);
      users := users[found.value := user];
      reply := Reply(200, UserJson(user));
    }

    /** `update_user` with an empty object accepted as a change of nothing. */
    method UpdateIntended(id: int, data: Option<Dict<Json>>) returns (reply: Reply)
      modifies this
      ensures (State(), reply) == UpdateUserIntended(old(State()), id, data)
    {
      var found := Lookup(users, id);
      if found.None? {
        return NotFound;
      }
      if data.None? {
        return BodyRequired;
      }
      var user := Patched(users[found.value], data.value);
      users := users[found.value := user];
      reply := Reply(200, UserJson(user));
    }

    /** `delete_user` */
    method Delete(id: int) returns (reply: Reply)
      modifies this
      ensures (State(), reply) == DeleteUser(old(State()), id)
    {
      var found := Lookup(users, id);
      if found.None? {
        return NotFound;
      }
      users := users[..found.value] + users[found.value + 1..];
      reply := Deleted;
    }
  }

  // ---------------------------------------------------------------- properties

  /** An empty store is valid, and creating a user keeps a store valid. */
  lemma CreateKeepsValid(s: Store, data: Option<Dict<Json>>)
    requires Valid(s)
    ensures Valid(EmptyStore)
    ensures Valid(CreateUser(s, data).0)
  {
  }

  /** Updating a user keeps a store valid: the id is never patched. */
  lemma UpdateKeepsValid(s: Store, id: int, data: Option<Dict<Json>>)
    requires Valid(s)
    ensures Valid(UpdateUser(s, id, data).0)
    ensures Valid(UpdateUserIntended(s, id, data).0)
  {
  }

  /** Deleting a user keeps a store valid. */
  lemma DeleteKeepsValid(s: Store, id: int)
    requires Valid(s)
    ensures Valid(DeleteUser(s, id).0)
  {
    var found := Lookup(s.users, id);
    if found.Some? {
      var i := found.value;
      var rest := s.users[..i] + s.users[i + 1..];
      forall k | 0 <= k < |rest|
        ensures 1 <= rest[k].id < s.nextId
      {
        assert rest[k] == s.users[if k < i then k else k + 1];
      }
      forall a, b | 0 <= a < b < |rest|
        ensures rest[a].id != rest[b].id
      {
        assert rest[a] == s.users[if a < i then a else a + 1];
        assert rest[b] == s.users[if b < i then b else b + 1];
      }
    }
  }

  /**
   * Create refuses, in this order, a missing or empty body, a missing name and a missing email
   * (400), then an email already stored (409); a refusal leaves the store as it was.
   */
  lemma CreateRefusals(s: Store, data: Option<Dict<Json>>)
    ensures var (after, reply) := CreateUser(s, data);
      (reply.status == 400 <==>
         data.None? || data.value == [] || !HasKey(data.value, "name") || !HasKey(data.value, "email"))
      && (reply.status == 409 <==>
         data.Some? && data.value != [] && HasKey(data.value, "name") && HasKey(data.value, "email")
         && EmailTaken(s.users, Get(data.value, "email").value))
      && (reply.status != 201 ==> after == s)
      && reply.status in {201, 400, 409}
  {
  }

  /**
   * A successful create appends a user whose id is the counter, defaults its role to "user",
   * advances the counter by one, and the new user can then be read back.
   */
  lemma CreateStores(s: Store, data: Option<Dict<Json>>)
    requires Valid(s)
    requires CreateUser(s, data).1.status == 201
    ensures var (after, reply) := CreateUser(s, data);
      var d := data.value;
      var u := after.users[|s.users|];
      after.users == s.users + [u] && after.nextId == s.nextId + 1
      && u.id == s.nextId && Some(u.name) == Get(d, "name") && Some(u.email) == Get(d, "email")
      && (!HasKey(d, "role") ==> u.role == JStr("user"))
      && reply.body == UserJson(u)
      && GetUser(after, s.nextId) == Reply(200, UserJson(u))
  {
    var (after, reply) := CreateUser(s, data);
    var u := after.users[|s.users|];
    assert Lookup(after.users, s.nextId) == Some(|s.users|);
  }

  /** The counter never goes back: no handler lowers it, so a deleted id is never handed out again. */
  lemma CounterNeverDecreases(s: Store, id: int, data: Option<Dict<Json>>)
    ensures CreateUser(s, data).0.nextId >= s.nextId
    ensures UpdateUser(s, id, data).0.nextId == s.nextId
    ensures UpdateUserIntended(s, id, data).0.nextId == s.nextId
    ensures DeleteUser(s, id).0.nextId == s.nextId
  {
  }

  /** After a delete, creating a user never gives it the deleted id. */
  lemma DeletedIdNotReused(s: Store, id: int, data: Option<Dict<Json>>)
    requires Valid(s)
    requires DeleteUser(s, id).1 == Deleted
    ensures var afterDelete := DeleteUser(s, id).0;
      var (afterCreate, reply) := CreateUser(afterDelete, data);
      reply.status == 201 ==> afterCreate.users[|afterDelete.users|].id != id
  {
    var i := Lookup(s.users, id).value;
    assert s.users[i].id == id;
  }

  /** Reading, updating and deleting an id that is not stored all give 404 and change nothing; update looks the id up before it looks at the body. */
  lemma AbsentIsNotFound(s: Store, id: int, data: Option<Dict<Json>>)
    requires forall i :: 0 <= i < |s.users| ==> s.users[i].id != id
    ensures GetUser(s, id) == NotFound
    ensures UpdateUser(s, id, data) == (s, NotFound)
    ensures UpdateUserIntended(s, id, data) == (s, NotFound)
    ensures DeleteUser(s, id) == (s, NotFound)
  {
  }

  /** Once deleted, a user is gone: reading or deleting it again gives 404. */
  lemma DeleteIsFinal(s: Store, id: int)
    requires Valid(s)
    requires DeleteUser(s, id).1 == Deleted
    ensures GetUser(DeleteUser(s, id).0, id) == NotFound
    ensures DeleteUser(DeleteUser(s, id).0, id).1 == NotFound
  {
    var i := Lookup(s.users, id).value;
    var rest := s.users[..i] + s.users[i + 1..];
    assert forall k :: 0 <= k < |rest| ==> rest[k] == if k < i then s.users[k] else s.users[k + 1];
    assert forall k :: 0 <= k < |rest| ==> rest[k].id != id;
  }

  /**
   * An accepted update changes only the name, email and role keys the body carries, on that user
   * alone, and does not look at other users' emails.
   */
  lemma UpdateChangesOnlyGivenKeys(s: Store, id: int, d: Dict<Json>)
    requires Lookup(s.users, id).Some? && d != []
    ensures var i := Lookup(s.users, id).value;
      var (after, reply) := UpdateUser(s, id, Some(d));
      var u := after.users[i];
      reply == Reply(200, UserJson(u))
      && |after.users| == |s.users| && after.nextId == s.nextId
      && (forall k :: 0 <= k < |s.users| && k != i ==> after.users[k] == s.users[k])
      && u.id == id
      && u.name == (if HasKey(d, "name") then Get(d, "name").value else s.users[i].name)
      && u.email == (if HasKey(d, "email") then Get(d, "email").value else s.users[i].email)
      && u.role == (if HasKey(d, "role") then Get(d, "role").value else s.users[i].role)
  {
  }

  /** As written, updating a stored user with `{}` is refused with 400; its golden test expects 200. */
  lemma EmptyUpdateRefused(s: Store, id: int)
    requires Lookup(s.users, id).Some?
    ensures UpdateUser(s, id, Some([])) == (s, BodyRequired)
  {
  }

  /** As intended, updating a stored user with `{}` succeeds and changes nothing. */
  lemma EmptyUpdateChangesNothing(s: Store, id: int)
    requires Lookup(s.users, id).Some?
    ensures UpdateUserIntended(s, id, Some([])) == (s, Reply(200, UserJson(s.users[Lookup(s.users, id).value])))
  {
    var i := Lookup(s.users, id).value;
    assert s.users[i := s.users[i]] == s.users;
  }

  /** The two versions of update differ only on the empty object. */
  lemma UpdateVersionsAgree(s: Store, id: int, data: Option<Dict<Json>>)
    requires data != Some([])
    ensures UpdateUser(s, id, data) == UpdateUserIntended(s, id, data)
  {
  }

  /** `list_users` reports every stored user, in store order, and their number. */
  lemma ListReportsAll(s: Store)
    ensures ListUsers(s).status == 200
    ensures ListUsers(s).body == JDict([("users", JList(UsersJson(s.users))), ("total", JInt(|s.users|))])
    ensures |UsersJson(s.users)| == |s.users|
  {
  }

  /** The users the search keeps when every name and email is a string. */
  function Hit(q: string): User -> Option<User>
  {
    (u: User) => if u.name.JStr? && u.email.JStr? && (Contains(Lower(u.name.s), q) || Contains(Lower(u.email.s), q))
         then Some(u) else None
  }

  /**
   * When every stored name and email is a string the search cannot raise, and it keeps, in store
   * order, exactly the users whose lower-cased name or email contains the query.
   */
  lemma {:induction false} SearchKeepsMatches(users: seq<User>, q: string)
    requires forall i :: 0 <= i < |users| ==> users[i].name.JStr? && users[i].email.JStr?
    ensures SearchHits(users, q) == Success(Pick(users, Hit(q)))
    decreases |users|
  {
    if users != [] {
      var n := |users| - 1;
      var prefix := users[..n];
      assert forall i :: 0 <= i < |prefix| ==> prefix[i] == users[i];
      SearchKeepsMatches(prefix, q);
      assert HitOf(users[n], q) == Success(Hit(q)(users[n]).Some?);
      assert Pick(prefix, Hit(q)) + [] == Pick(prefix, Hit(q));
    }
  }

  /** The search is case-insensitive in the query, and an empty or missing query is refused with 400. */
  lemma SearchQueryRules(s: Store, q: string)
    ensures SearchUsers(s, Some(q)) == SearchUsers(s, Some(Lower(q)))
    ensures SearchUsers(s, None) == Success(ErrorReply(400, "Query parameter 'q' is required"))
    ensures SearchUsers(s, Some("")) == SearchUsers(s, None)
  {
    LowerIdempotent(q);
    assert (Lower(q) == []) == (q == []);
  }

  /** A search that answers reports the users it kept and their number. */
  lemma SearchTotal(s: Store, q: string)
    requires q != [] && SearchHits(s.users, Lower(q)).Success?
    ensures var hits := SearchHits(s.users, Lower(q)).value;
      SearchUsers(s, Some(q)) == Success(UserListReply(hits))
      && UserListReply(hits).body == JDict([("users", JList(UsersJson(hits))), ("total", JInt(|hits|))])
  {
  }
}
