/** The cache-aside user lookup over Redis, interleaved at its commands with other lookups, registrations and password
    resets. */
module UserCache {
  import opened Wrappers
  import opened Users

  /** Where one lookup stands.  `existed` records whether the table had a matching row when the lookup began. */
  datatype Lookup =
    | GetCache(key: Key, existed: bool)                       // GET sent
    | ReadRow(key: Key, existed: bool)                        // SELECT sent
    | WriteCache(key: Key, info: UserInfo)                    // SET sent
    | Done(key: Key, result: Option<UserInfo>, existed: bool)

  datatype State = State(
    users: Table,
    cache: map<Key, UserInfo>,            // user_uid_info_ and user_name_info_
    lookups: seq<Lookup>,
    passwords: map<int, set<string>>)     // record of every password a user had

  const INIT := State(map[], map[], [], map[])

  datatype Action =
    | Begin(key: Key)
    | GetReply(lookup: nat, fault: bool)
    | RowReply(lookup: nat, row: Option<UserInfo>)
    | SetReply(lookup: nat, fault: bool)
    | Register(id: int, name: string, email: string, pwd: string)
    | Reset(name: string, email: string, pwd: string)

  ghost predicate Exists(users: Table, key: Key) {
    exists id :: id in users && Matches(key, users[id])
  }

  ghost predicate Enabled(st: State, a: Action) {
    match a
    case Begin(_) => true
    case GetReply(i, _) => i < |st.lookups| && st.lookups[i].GetCache?
    case RowReply(i, row) => i < |st.lookups| && st.lookups[i].ReadRow? && Selects(st.users, st.lookups[i].key, row)
    case SetReply(i, _) => i < |st.lookups| && st.lookups[i].WriteCache?
    case Register(id, name, email, _) => id !in st.users && !Taken(st.users, name, email)
    case Reset(_, _, _) => true
  }

  ghost function Step(st: State, a: Action): State
    requires Enabled(st, a)
  {
    match a
    case Begin(key) => st.(lookups := st.lookups + [GetCache(key, Exists(st.users, key))])
    case GetReply(i, fault) =>
      var GetCache(key, existed) := st.lookups[i];
      var next := if !fault && key in st.cache then Done(key, Some(st.cache[key]), existed) else ReadRow(key, existed);
      st.(lookups := st.lookups[i := next])
    case RowReply(i, row) =>
      var ReadRow(key, existed) := st.lookups[i];
      st.(lookups := st.lookups[i := if row.None? then Done(key, None, existed) else WriteCache(key, row.value)])
    case SetReply(i, fault) =>
      var WriteCache(key, info) := st.lookups[i];
      st.(lookups := st.lookups[i := Done(key, Some(info), true)],
          cache := if fault then st.cache else st.cache[key := info])
    case Register(id, name, email, pwd) =>
      st.(users := Insert(st.users, id, name, email, pwd).value, passwords := st.passwords[id := {pwd}])
    case Reset(name, email, pwd) =>
      st.(users := SetPassword(st.users, name, email, pwd),
          passwords := map id | id in st.passwords ::
            if id in st.users && st.users[id].name == name && st.users[id].email == email then st.passwords[id] + {pwd}
            else st.passwords[id])
  }

  ghost predicate Legal(run: seq<Action>)
    decreases |run|, 0
  {
    run == [] || (Legal(run[..|run| - 1]) && Enabled(After(run[..|run| - 1]), run[|run| - 1]))
  }

  ghost function After(run: seq<Action>): State
    requires Legal(run)
    decreases |run|, 1
  {
    if run == [] then INIT else Step(After(run[..|run| - 1]), run[|run| - 1])
  }

  /** A cached or returned user agrees with the table on id, name and email, carries a past or present password, and is
      the one its key asks for. */
  ghost predicate Agrees(users: Table, passwords: map<int, set<string>>, key: Key, info: UserInfo) {
    && info.id in users && info.id in passwords
    && info.name == users[info.id].name
    && info.email == users[info.id].email
    && info.pwd in passwords[info.id]
    && Matches(key, info)
  }

  ghost predicate Inv(st: State) {
    && TableInv(st.users)
    && st.users.Keys == st.passwords.Keys
    && (forall id :: id in st.users ==> st.users[id].pwd in st.passwords[id])
    && (forall key :: key in st.cache ==> Agrees(st.users, st.passwords, key, st.cache[key]))
    && (forall i :: 0 <= i < |st.lookups| ==> LookupOk(st, st.lookups[i]))
  }

  ghost predicate LookupOk(st: State, l: Lookup) {
    match l
    case GetCache(key, existed) => existed ==> Exists(st.users, key)
    case ReadRow(key, existed) => existed ==> Exists(st.users, key)
    case WriteCache(key, info) => Agrees(st.users, st.passwords, key, info)
    case Done(key, Some(info), _) => Agrees(st.users, st.passwords, key, info)
    case Done(key, None, existed) => !existed
  }

  /** Rows keep their id, name and email, and passwords are only added to the record. */
  ghost predicate Extends(st: State, r: State) {
    && (forall id :: id in st.users ==> id in r.users && r.users[id] == st.users[id].(pwd := r.users[id].pwd))
    && (forall id :: id in st.passwords ==> id in r.passwords && st.passwords[id] <= r.passwords[id])
  }

  lemma ExtendsKeepsLookup(st: State, r: State, l: Lookup)
    requires Extends(st, r) && LookupOk(st, l)
    ensures LookupOk(r, l)
  {
    if (l.GetCache? || l.ReadRow?) && l.existed {
      var id :| id in st.users && Matches(l.key, st.users[id]);
      assert Matches(l.key, r.users[id]);
    }
  }

  lemma ExtendsKeepsInv(st: State, r: State)
    requires Inv(st) && Extends(st, r)
    requires r.cache == st.cache && r.lookups == st.lookups
    requires TableInv(r.users) && r.users.Keys == r.passwords.Keys
    requires forall id :: id in r.users ==> r.users[id].pwd in r.passwords[id]
    ensures Inv(r)
  {
    forall i | 0 <= i < |r.lookups| ensures LookupOk(r, r.lookups[i]) {
      ExtendsKeepsLookup(st, r, r.lookups[i]);
    }
  }

  lemma StepKeepsInv(st: State, a: Action)
    requires Inv(st) && Enabled(st, a)
    ensures Inv(Step(st, a))
  {
    var r := Step(st, a);
    match a
    case Begin(key) => assert forall i :: 0 <= i < |st.lookups| ==> r.lookups[i] == st.lookups[i];
    case GetReply(i, fault) => LookupStepKeepsInv(st, r, i);
    case RowReply(i, row) =>
      assert row.None? && st.lookups[i].existed ==> !Exists(st.users, st.lookups[i].key);
      LookupStepKeepsInv(st, r, i);
    case SetReply(i, fault) => LookupStepKeepsInv(st, r, i);
    case Register(id, name, email, pwd) =>
      InsertKeepsInv(st.users, id, name, email, pwd);
      ExtendsKeepsInv(st, r);
    case Reset(name, email, pwd) =>
      SetPasswordKeepsInv(st.users, name, email, pwd);
      assert r.users.Keys == st.users.Keys && r.passwords.Keys == st.passwords.Keys;
      ExtendsKeepsInv(st, r);
  }

  lemma LookupStepKeepsInv(st: State, r: State, i: nat)
    requires Inv(st) && i < |st.lookups| && |r.lookups| == |st.lookups|
    requires r.users == st.users && r.passwords == st.passwords
    requires forall key :: key in r.cache ==> Agrees(st.users, st.passwords, key, r.cache[key])
    requires r.lookups == st.lookups[i := r.lookups[i]] && LookupOk(st, r.lookups[i])
    ensures Inv(r)
  {
    forall k | 0 <= k < |r.lookups| ensures LookupOk(r, r.lookups[k]) {
      assert LookupOk(st, r.lookups[k]);
      ExtendsKeepsLookup(st, r, r.lookups[k]);
    }
  }

  lemma {:induction false} RunKeepsInv(run: seq<Action>)
    requires Legal(run)
    ensures Inv(After(run))
  {
    if run != [] {
      RunKeepsInv(run[..|run| - 1]);
      StepKeepsInv(After(run[..|run| - 1]), run[|run| - 1]);
    }
  }

  // ---------- When a cached user is its row ----------

  /** The cached user is exactly its row. */
  ghost predicate Exact(st: State, key: Key) {
    key in st.cache && st.cache[key].id in st.users && st.users[st.cache[key].id] == st.cache[key]
  }

  /** reset_password does not touch the cache: afterwards an entry of the user it resets is exact exactly when the new
      password is the cached one, and every other entry is exact exactly when it was. */
  lemma ResetAndCache(st: State, name: string, email: string, pwd: string, key: Key)
    requires Inv(st) && key in st.cache
    ensures var info := st.cache[key];
            Exact(Step(st, Reset(name, email, pwd)), key) <==>
              if info.name == name && info.email == email then info.pwd == pwd else Exact(st, key)
  {
    assert Agrees(st.users, st.passwords, key, st.cache[key]);
  }

  lemma OneMore(run: seq<Action>, a: Action)
    requires Legal(run) && Enabled(After(run), a)
    ensures Legal(run + [a]) && After(run + [a]) == Step(After(run), a)
  {
    assert (run + [a])[..|run|] == run;
  }

  /** The password that the last reset of this user gave it. */
  function LastReset(acts: seq<Action>, name: string, email: string): Option<string> {
    if acts == [] then None
    else
      var a := acts[|acts| - 1];
      if a.Reset? && a.name == name && a.email == email then Some(a.pwd) else LastReset(acts[..|acts| - 1], name, email)
  }

  /** Step k of the run was lookup i's SELECT for `key`, and it found the row `info`. */
  ghost predicate Found(run: seq<Action>, k: nat, i: nat, key: Key, info: UserInfo) {
    && k < |run| && run[k] == RowReply(i, Some(info)) && Legal(run[..k])
    && i < |After(run[..k]).lookups| && After(run[..k]).lookups[i].ReadRow? && After(run[..k]).lookups[i].key == key
    && info.id in After(run[..k]).users && After(run[..k]).users[info.id] == info
  }

  ghost predicate WasFound(run: seq<Action>, key: Key, info: UserInfo) {
    exists k: nat, i: nat :: Found(run, k, i, key, info)
  }

  lemma FoundStays(run: seq<Action>, a: Action, key: Key, info: UserInfo)
    requires WasFound(run, key, info)
    ensures WasFound(run + [a], key, info)
  {
    hide Legal, After;
    var k: nat, i: nat :| Found(run, k, i, key, info);
    assert (run + [a])[..k] == run[..k];
    assert Found(run + [a], k, i, key, info);
  }

  /** Whatever is cached or returned was found in the table. */
  ghost predicate Founded(run: seq<Action>, st: State) {
    && (forall key :: key in st.cache ==> WasFound(run, key, st.cache[key]))
    && (forall i :: 0 <= i < |st.lookups| && Returns(st.lookups[i]).Some? ==>
          WasFound(run, st.lookups[i].key, Returns(st.lookups[i]).value))
  }

  /** What the lookup has found so far. */
  function Returns(l: Lookup): Option<UserInfo> {
    match l
    case WriteCache(_, info) => Some(info)
    case Done(_, result, _) => result
    case _ => None
  }

  lemma NewlyFound(run: seq<Action>, a: Action)
    requires Legal(run) && Enabled(After(run), a) && a.RowReply? && a.row.Some?
    ensures WasFound(run + [a], After(run).lookups[a.lookup].key, a.row.value)
  {
    hide Legal, After;
    assert (run + [a])[..|run|] == run;
    assert Found(run + [a], |run|, a.lookup, After(run).lookups[a.lookup].key, a.row.value);
  }

  lemma StepIsFounded(run: seq<Action>, a: Action)
    requires Legal(run) && Enabled(After(run), a) && Founded(run, After(run))
    ensures Founded(run + [a], Step(After(run), a))
  {
    hide WasFound, Legal, After;
    var st, t := After(run), Step(After(run), a);
    if a.RowReply? && a.row.Some? {
      NewlyFound(run, a);
    }
    forall key | key in t.cache ensures WasFound(run + [a], key, t.cache[key]) {
      if key in st.cache && t.cache[key] == st.cache[key] {
        FoundStays(run, a, key, st.cache[key]);
      } else {
        FoundStays(run, a, key, st.lookups[a.lookup].info);
      }
    }
    forall i | 0 <= i < |t.lookups| && Returns(t.lookups[i]).Some?
      ensures WasFound(run + [a], t.lookups[i].key, Returns(t.lookups[i]).value)
    {
      if i < |st.lookups| && Returns(t.lookups[i]) == Returns(st.lookups[i]) {
        FoundStays(run, a, st.lookups[i].key, Returns(st.lookups[i]).value);
      } else if a.GetReply? {
        FoundStays(run, a, st.lookups[i].key, st.cache[st.lookups[i].key]);
      }
    }
  }

  lemma {:induction false} RunIsFounded(run: seq<Action>)
    requires Legal(run)
    ensures Founded(run, After(run))
  {
    hide Enabled, Step, WasFound;
    if run != [] {
      var init, a := run[..|run| - 1], run[|run| - 1];
      assert run == init + [a];
      RunIsFounded(init);
      StepIsFounded(init, a);
    }
  }

  /** The row after these resets. */
  function Since(row: UserInfo, acts: seq<Action>): UserInfo {
    match LastReset(acts, row.name, row.email)
    case None => row
    case Some(pwd) => row.(pwd := pwd)
  }

  lemma RowStep(st: State, a: Action, id: int)
    requires Enabled(st, a) && id in st.users
    ensures id in Step(st, a).users
    ensures var row := st.users[id];
            Step(st, a).users[id] == if a.Reset? && a.name == row.name && a.email == row.email then row.(pwd := a.pwd) else row
  {
  }

  /** From any moment of a run on, a row changes only its password, to that of the last reset. */
  lemma {:induction false} RowSince(run: seq<Action>, k: nat, id: int)
    requires Legal(run) && k <= |run| && Legal(run[..k]) && id in After(run[..k]).users
    ensures id in After(run).users && After(run).users[id] == Since(After(run[..k]).users[id], run[k..])
  {
    hide Enabled, Step;
    if k == |run| {
      assert run[..k] == run;
    } else {
      var init := run[..|run| - 1];
      assert init[..k] == run[..k];
      RowSince(init, k, id);
      RowStep(After(init), run[|run| - 1], id);
      assert run[k..][..|run[k..]| - 1] == init[k..];
    }
  }

  /** The last of these resets of this user, if any, gave it the password it had. */
  predicate LeavesPassword(info: UserInfo, acts: seq<Action>) {
    match LastReset(acts, info.name, info.email)
    case None => true
    case Some(pwd) => pwd == info.pwd
  }

  lemma ExactSince(run: seq<Action>, key: Key, k: nat, i: nat)
    requires Legal(run) && key in After(run).cache && Found(run, k, i, key, After(run).cache[key])
    ensures Exact(After(run), key) <==> LeavesPassword(After(run).cache[key], run[k..])
  {
    hide Legal, After, LastReset;
    RowSince(run, k, After(run).cache[key].id);
  }

  /** A cached user was found in the table by some lookup of its key, and is exactly its row now if and only if the last
      reset of that user since then, if any, gave it the password that was found; a reset while the entry was still on its
      way to the cache counts like any other. */
  lemma CachedIsExactIff(run: seq<Action>, key: Key)
    requires Legal(run) && key in After(run).cache
    ensures var info := After(run).cache[key];
            && WasFound(run, key, info)
            && forall k: nat, i: nat :: Found(run, k, i, key, info) ==>
                 (Exact(After(run), key) <==> LeavesPassword(info, run[k..]))
  {
    hide Enabled, Step, Legal, After, LeavesPassword, Exact;
    RunIsFounded(run);
    forall k: nat, i: nat | Found(run, k, i, key, After(run).cache[key])
      ensures Exact(After(run), key) <==> LeavesPassword(After(run).cache[key], run[k..])
    {
      ExactSince(run, key, k, i);
    }
  }

  // ---------- What it means for a lookup ----------

  /** Step k of the run began lookup i. */
  ghost predicate Began(run: seq<Action>, k: nat, i: nat) {
    k < |run| && run[k].Begin? && Legal(run[..k]) && |After(run[..k]).lookups| == i
  }

  lemma LookupStep(st: State, a: Action, i: nat)
    requires Enabled(st, a) && i < |st.lookups|
    ensures i < |Step(st, a).lookups| && Step(st, a).lookups[i].key == st.lookups[i].key
    ensures !st.lookups[i].WriteCache? && !Step(st, a).lookups[i].WriteCache? ==>
              Step(st, a).lookups[i].existed == st.lookups[i].existed
    ensures st.lookups[i].WriteCache? ==> Step(st, a).lookups[i].WriteCache? || Step(st, a).lookups[i].existed
  {
  }

  /** A lookup keeps its key, and knows whether its user existed when it began. */
  lemma {:induction false} LookupSince(run: seq<Action>, k: nat, i: nat)
    requires Legal(run) && Began(run, k, i)
    ensures i < |After(run).lookups|
    ensures var l := After(run).lookups[i];
            && l.key == run[k].key
            && (l.WriteCache? || (Exists(After(run[..k]).users, l.key) ==> l.existed))
  {
    hide Exists;
    var init, a := run[..|run| - 1], run[|run| - 1];
    assert init[..k] == run[..k];
    if k < |init| {
      assert Began(init, k, i);
      LookupSince(init, k, i);
      hide Step, Enabled;
      LookupStep(After(init), a, i);
    } else {
      assert run[..k] == init;
    }
  }

  /** The user was this row of the table at some moment of the run. */
  ghost predicate WasRow(run: seq<Action>, info: UserInfo) {
    exists k: nat :: k <= |run| && Legal(run[..k]) && info.id in After(run[..k]).users && After(run[..k]).users[info.id] == info
  }

  lemma FoundWasRow(run: seq<Action>, key: Key, info: UserInfo)
    requires WasFound(run, key, info)
    ensures WasRow(run, info)
  {
    hide Legal, After;
    var k: nat, i: nat :| Found(run, k, i, key, info);
  }

  /** Cache agreement: under every interleaving, each cached user is the one the slow lookup by its key finds, but for the
      password, which is one the user has or had; so absence is never cached. */
  lemma CacheAgreesWithTable(run: seq<Action>, key: Key, row: Option<UserInfo>)
    requires Legal(run) && key in After(run).cache && Selects(After(run).users, key, row)
    ensures var st := After(run);
            var info := st.cache[key];
            row.Some? && info == row.value.(pwd := info.pwd) && WasRow(run, info)
  {
    RunKeepsInv(run);
    RunIsFounded(run);
    hide Legal, After, WasRow, WasFound;
    FoundWasRow(run, key, After(run).cache[key]);
    AgreementIsSelection(After(run).users, After(run).passwords, key, After(run).cache[key], row);
  }

  lemma AgreementIsSelection(users: Table, passwords: map<int, set<string>>, key: Key, info: UserInfo, row: Option<UserInfo>)
    requires TableInv(users) && Agrees(users, passwords, key, info) && Selects(users, key, row)
    ensures row.Some? && info == row.value.(pwd := info.pwd)
  {
    SelectIsUnique(users, key, row, Some(users[info.id]));
  }

  /** A completed lookup returns what the slow lookup finds at the end of the run, again but for the password, and it finds
      every user that was registered when it began. */
  lemma LookupAgreesWithTable(run: seq<Action>, i: nat, row: Option<UserInfo>)
    requires Legal(run) && i < |After(run).lookups| && After(run).lookups[i].Done?
    requires Selects(After(run).users, After(run).lookups[i].key, row)
    ensures var Done(key, result, _) := After(run).lookups[i];
            && (forall k: nat :: Began(run, k, i) && Exists(After(run[..k]).users, key) ==> result.Some?)
            && (result.Some? ==> row.Some? && result.value == row.value.(pwd := result.value.pwd) && WasRow(run, result.value))
  {
    RunKeepsInv(run);
    RunIsFounded(run);
    hide Legal, After, WasRow, WasFound, Exists;
    var st := After(run);
    assert LookupOk(st, st.lookups[i]);
    var Done(key, result, existed) := st.lookups[i];
    if result.Some? {
      FoundWasRow(run, key, Returns(st.lookups[i]).value);
      AgreementIsSelection(st.users, st.passwords, key, result.value, row);
    } else {
      forall k: nat | Began(run, k, i) ensures !Exists(After(run[..k]).users, key) {
        LookupSince(run, k, i);
      }
    }
  }

  // ---------- Two ways to a stale password ----------

  /** A user registers and is looked up once, up to the cache write. */
  lemma RowIsRead() returns (run: seq<Action>)
    ensures Legal(run) && |After(run).lookups| == 1
    ensures var st, info := After(run), UserInfo(1, "a", "e", "old");
            st.lookups[0] == WriteCache(ById(1), info) && st.cache == map[] && st.users == map[1 := info]
  {
    var info := UserInfo(1, "a", "e", "old");
    OneMore([], Register(1, "a", "e", "old"));
    var r1 := [] + [Register(1, "a", "e", "old")];
    OneMore(r1, Begin(ById(1)));
    var r2 := r1 + [Begin(ById(1))];
    OneMore(r2, GetReply(0, false));
    var r3 := r2 + [GetReply(0, false)];
    assert After(r3).lookups[0].ReadRow? && After(r3).users == map[1 := info];
    OneMore(r3, RowReply(0, Some(info)));
    run := r3 + [RowReply(0, Some(info))];
  }

  /** The lookup caches the user, whose password is then reset. */
  lemma CacheIsStale() returns (run: seq<Action>)
    ensures Legal(run) && run != [] && run[|run| - 1] == Reset("a", "e", "new") && |After(run).lookups| == 1
    ensures After(run).users == map[1 := UserInfo(1, "a", "e", "new")]
    ensures After(run).cache == map[ById(1) := UserInfo(1, "a", "e", "old")]
  {
    hide Legal, After;
    var read := RowIsRead();
    OneMore(read, SetReply(0, false));
    var cached := read + [SetReply(0, false)];
    assert After(cached).cache == map[ById(1) := UserInfo(1, "a", "e", "old")];
    assert After(cached).users == map[1 := UserInfo(1, "a", "e", "old")] && |After(cached).lookups| == 1;
    ResetOfOne();
    hide SetPassword;
    OneMore(cached, Reset("a", "e", "new"));
    run := cached + [Reset("a", "e", "new")];
  }

  lemma ResetOfOne()
    ensures SetPassword(map[1 := UserInfo(1, "a", "e", "old")], "a", "e", "new") == map[1 := UserInfo(1, "a", "e", "new")]
  {
  }

  /** So a reachable cache can hold a password that is no longer the user's: the user was cached before the reset. */
  lemma CachedPasswordMayBeStale()
    ensures exists run: seq<Action> :: Legal(run) && ById(1) in After(run).cache && !Exact(After(run), ById(1))
  {
    hide Legal, After;
    var run := CacheIsStale();
    assert Legal(run);
  }

  /** Lookup 1 began right after step k, a reset, and has returned the password from before it. */
  ghost predicate ReturnsStale(run: seq<Action>, k: nat) {
    && Legal(run) && k < |run| && run[k] == Reset("a", "e", "new") && Began(run, k + 1, 1)
    && |After(run).lookups| == 2 && After(run).users == map[1 := UserInfo(1, "a", "e", "new")]
    && After(run).lookups[1] == Done(ById(1), Some(UserInfo(1, "a", "e", "old")), true)
  }

  /** And a lookup that begins after the reset still returns the old password. */
  lemma StalePasswordIsReturned()
    ensures exists run: seq<Action>, k: nat :: ReturnsStale(run, k)
  {
    hide Legal, After;
    var reset := CacheIsStale();
    OneMore(reset, Begin(ById(1)));
    var asked := reset + [Begin(ById(1))];
    assert Matches(ById(1), After(reset).users[1]);
    assert After(asked).lookups[1] == GetCache(ById(1), true);
    OneMore(asked, GetReply(1, false));
    var end := asked + [GetReply(1, false)];
    assert end[..|reset|] == reset;
    assert ReturnsStale(end, |reset| - 1);
  }

  /** Or a lookup that had read the row before the reset caches it afterwards. */
  lemma StalePasswordMayBeCached()
    ensures exists run: seq<Action> :: Legal(run) && ById(1) in After(run).cache && !Exact(After(run), ById(1))
                                       && run[|run| - 1].SetReply?
  {
    hide Legal, After;
    var run := RowIsRead();
    OneMore(run, Reset("a", "e", "new"));
    var reset := run + [Reset("a", "e", "new")];
    OneMore(reset, SetReply(0, false));
    assert Legal(reset + [SetReply(0, false)]);
  }
}
