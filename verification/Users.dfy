/** The user table: its unique keys, the statements of the gate server, and the lookups of the chat server. */
module Users {
  import opened Wrappers

  datatype UserInfo = UserInfo(id: int, name: string, email: string, pwd: string)

  /** Rows by primary key. */
  type Table = map<int, UserInfo>

  ghost predicate TableInv(users: Table) {
    && (forall id :: id in users ==> users[id].id == id)
    && (forall a, b :: a in users && b in users && users[a].name == users[b].name ==> a == b)
    && (forall a, b :: a in users && b in users && users[a].email == users[b].email ==> a == b)
  }

  predicate Taken(users: Table, name: string, email: string) {
    exists id :: id in users && (users[id].name == name || users[id].email == email)
  }

  /** INSERT INTO user; None is the duplicate-key error. */
  function Insert(users: Table, id: int, name: string, email: string, pwd: string): Option<Table>
    requires id !in users
  {
    if Taken(users, name, email) then None else Some(users[id := UserInfo(id, name, email, pwd)])
  }

  /** UPDATE user SET pwd = ... WHERE name = ... AND email = .... */
  function SetPassword(users: Table, name: string, email: string, pwd: string): Table {
    map id | id in users ::
      if users[id].name == name && users[id].email == email then users[id].(pwd := pwd) else users[id]
  }

  datatype Key = ById(id: int) | ByName(name: string)

  predicate Matches(key: Key, u: UserInfo) {
    match key
    case ById(id) => u.id == id
    case ByName(name) => u.name == name
  }

  /** The two get_user_info lookups: `r` is what the SELECT may return. */
  ghost predicate Selects(users: Table, key: Key, r: Option<UserInfo>) {
    match r
    case Some(u) => u.id in users && users[u.id] == u && Matches(key, u)
    case None => forall id :: id in users ==> !Matches(key, users[id])
  }

  lemma InsertKeepsInv(users: Table, id: int, name: string, email: string, pwd: string)
    requires TableInv(users) && id !in users
    ensures Insert(users, id, name, email, pwd).Some? ==> TableInv(Insert(users, id, name, email, pwd).value)
  {
  }

  lemma SetPasswordKeepsInv(users: Table, name: string, email: string, pwd: string)
    requires TableInv(users)
    ensures TableInv(SetPassword(users, name, email, pwd))
  {
    assert forall id :: id in SetPassword(users, name, email, pwd) <==> id in users;
  }

  /** The unique keys make each lookup's answer unique. */
  lemma SelectIsUnique(users: Table, key: Key, r: Option<UserInfo>, q: Option<UserInfo>)
    requires TableInv(users) && Selects(users, key, r) && Selects(users, key, q)
    ensures r == q
    ensures match key
            case ById(id) => r == if id in users then Some(users[id]) else None
            case ByName(name) =>
              && (r.Some? ==> r.value.name == name && r.value in users.Values)
              && (r.None? ==> forall id :: id in users ==> users[id].name != name)
  {
    if r.Some? && q.Some? {
      assert users[r.value.id].name == r.value.name && users[q.value.id].name == q.value.name;
    }
  }

  /** The repository as the gate server uses it. */
  class UserRepo {
    var users: Table
    var nextId: int

    ghost predicate Valid()
      reads this
    {
      TableInv(users) && forall id :: id in users ==> id < nextId
    }

    constructor ()
      ensures Valid() && users == map[]
    {
      users, nextId := map[], 1;
    }

    method CreateUser(name: string, email: string, pwd: string) returns (id: Option<int>)
      requires Valid()
      modifies this
      ensures Valid()
      ensures id.None? <==> exists k :: k in old(users) && (old(users)[k].name == name || old(users)[k].email == email)
      ensures id.None? ==> users == old(users)
      ensures id.Some? ==> id.value !in old(users) && users == old(users)[id.value := UserInfo(id.value, name, email, pwd)]
    {
      var inserted := Insert(users, nextId, name, email, pwd);
      if inserted.None? {
        return None;
      }
      InsertKeepsInv(users, nextId, name, email, pwd);
      users := inserted.value;
      id := Some(nextId);
      nextId := nextId + 1;
    }

    /** At most one row is affected; whether a row that already had the password counts is up to the database. */
    method ResetPassword(name: string, email: string, pwd: string) returns (affected: nat)
      requires Valid()
      modifies this
      ensures Valid()
      ensures users.Keys == old(users).Keys
      ensures forall id :: id in users ==>
                users[id] == if old(users)[id].name == name && old(users)[id].email == email
                             then old(users)[id].(pwd := pwd) else old(users)[id]
      ensures affected <= 1
      ensures users != old(users) ==> affected == 1
      ensures affected == 1 ==> exists id :: id in users && users[id].name == name && users[id].email == email
    {
      var matches := exists id :: id in users && users[id].name == name && users[id].email == email;
      var changed := SetPassword(users, name, email, pwd);
      var countsUnchanged: bool := *;
      affected := if changed != users || (matches && countsUnchanged) then 1 else 0;
      SetPasswordKeepsInv(users, name, email, pwd);
      if !matches {
        assert forall id :: id in users ==> !(users[id].name == name && users[id].email == email);
        assert changed == users;
      }
      if matches {
        ghost var k :| k in users && users[k].name == name && users[k].email == email;
        assert changed[k].name == name && changed[k].email == email;
      }
      users := changed;
    }

    /** check_password: the id of the user with this name and password. */
    method CheckPassword(name: string, pwd: string) returns (id: Option<int>)
      requires Valid()
      ensures id.Some? ==> id.value in users && users[id.value].name == name && users[id.value].pwd == pwd
      ensures id.None? ==> forall k :: k in users ==> users[k].name != name || users[k].pwd != pwd
    {
      if k: int :| k in users && users[k].name == name && users[k].pwd == pwd {
        id := Some(k);
      } else {
        id := None;
      }
    }
  }
}
