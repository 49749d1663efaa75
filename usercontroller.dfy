/** The user request handlers of the server: `login` (find or create by username) and
    `getUsers`, over an abstract user store keyed by user id. */
module UserController {
  import opened Wrappers
  import opened SeqUtil

  /** A stored user; the `User` model file is not part of this model, so only the id and the
      username are kept. */
  datatype User = User(id: string, username: string)

  /** The JSON body of a response: a `{ message }` object, the login answer (which exposes the
      id and the username and nothing else), or the list of users. */
  datatype Body = Info(message: string) | LoginUser(id: string, username: string) | UserList(users: seq<User>)

  datatype Response = Response(status: int, body: Body)

  /** Whether some stored user has this username. */
  predicate Registered(users: map<string, User>, name: string) {
    exists id :: id in users && users[id].username == name
  }

  /** Every user is stored under its own id, and no two users share a username. */
  predicate StoreOk(users: map<string, User>) {
    && (forall id :: id in users ==> users[id].id == id)
    && (forall a, b :: a in users && b in users && users[a].username == users[b].username ==> a == b)
  }

  class UserStore {
    var users: map<string, User>

    ghost predicate Valid()
      reads this
    {
      StoreOk(users)
    }

    constructor ()
      ensures Valid() && users == map[]
    {
      users := map[];
    }

    /** `login`: a missing username is refused; a known one returns its user and changes
        nothing; an unknown one is stored under `newId`, the id the store assigns (a clash
        makes the insert fail). */
    method Login(username: Option<string>, newId: string) returns (r: Response)
      requires Valid()
      modifies this`users
      ensures Valid()
      ensures !Truthy(username) ==> r == Response(400, Info("Username is required")) && users == old(users)
      ensures Truthy(username) && Registered(old(users), username.value) ==>
        && users == old(users)
        && r.status == 200 && r.body.LoginUser? && r.body.username == username.value
        && r.body.id in users && users[r.body.id].username == username.value
      ensures Truthy(username) && !Registered(old(users), username.value) && newId !in old(users) ==>
        && users == old(users)[newId := User(newId, username.value)]
        && r == Response(200, LoginUser(newId, username.value))
      ensures Truthy(username) && !Registered(old(users), username.value) && newId in old(users) ==>
        r == Response(500, Info("Server error")) && users == old(users)
      ensures r.status == 200 ==> r.body.LoginUser? && r.body.username == username.value
      ensures r.status == 200 ==> forall id :: id in users && users[id].username == username.value ==> id == r.body.id
    {
      if !Truthy(username) {
        return Response(400, Info("Username is required"));
      }
      var name := username.value;
      var user: User;
      if Registered(users, name) {
        var id :| id in users && users[id].username == name;
        user := users[id];
      } else {
        if newId in users {
          return Response(500, Info("Server error"));
        }
        user := User(newId, name);
        users := users[newId := user];
      }
      r := Response(200, LoginUser(user.id, user.username));
    }

    /** `getUsers`: every stored user, each once. */
    method GetUsers() returns (r: Response)
      requires Valid()
      ensures r.status == 200 && r.body.UserList?
      ensures forall id :: id in users ==> users[id] in r.body.users
      ensures forall u :: u in r.body.users ==> u.id in users && users[u.id] == u
      ensures NoDup(r.body.users)
    {
      var pending := users.Keys;
      var found: seq<User> := [];
      while pending != {}
        invariant pending <= users.Keys
        invariant NoDup(found)
        invariant forall i :: 0 <= i < |found| ==>
          found[i].id in users && users[found[i].id] == found[i] && found[i].id !in pending
        invariant forall id :: id in users && id !in pending ==> users[id] in found
        decreases pending
      {
        var id :| id in pending;
        found := found + [users[id]];
        pending := pending - {id};
      }
      r := Response(200, UserList(found));
    }
  }

  /** Logging in twice under the same name gives the same answer and stores one user. */
  method LoginTwice(store: UserStore, name: string, newId1: string, newId2: string) returns (r1: Response, r2: Response)
    requires store.Valid() && name != "" && newId1 !in store.users
    modifies store
    ensures store.Valid()
    ensures r1.status == 200 && r1.body.LoginUser? && r1 == r2
    ensures store.users.Keys == old(store.users).Keys + {r1.body.id}
  {
    r1 := store.Login(Some(name), newId1);
    assert r1.body.id in store.users && store.users[r1.body.id].username == name;
    r2 := store.Login(Some(name), newId2);
  }
}
