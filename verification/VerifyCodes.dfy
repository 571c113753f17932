/** Verification codes in Redis with a time to live, and the account requests that present them. */
module VerifyCodes {
  import opened Wrappers
  import opened Users

  type Code = nat
  const TTL: nat := 600

  /** What the store holds under an email, and until when. */
  datatype Entry = Entry(code: Code, expires: nat)

  datatype Account = Account(user: string, email: string, passwd: string, code: Code)

  /** Where one request of the verify server or of the gate server stands. */
  datatype Request =
    | CodeGet(email: string)                               // GET sent
    | CodeSet(email: string, code: Code)                   // SETEX sent
    | CodeDone(email: string, answer: Option<Code>)
    | RegisterGet(account: Account)
    | RegisterInsert(account: Account)
    | ResetGet(account: Account)
    | ResetUpdate(account: Account)
    | Refused(account: Account)
    | Accepted(account: Account)

  /** The record of what was stored, read and done. */
  datatype Event =
    | Stored(request: nat, email: string, code: Code, time: nat)
    | Read(request: nat, email: string, code: Code, time: nat)
    | Created(request: nat, account: Account)
    | Changed(request: nat, account: Account)

  datatype State = State(
    clock: nat,
    store: map<string, Entry>,
    made: map<Code, string>,            // record of every generated code and the email it was made for
    users: Table,
    requests: seq<Request>,
    events: seq<Event>)

  const INIT := State(0, map[], map[], map[], [], [])

  /** GET: a stored value that has not expired. */
  function Live(st: State, email: string): Option<Code> {
    if email in st.store && st.clock < st.store[email].expires then Some(st.store[email].code) else None
  }

  datatype Action =
    | Tick
    | Ask(email: string)
    | Register(account: Account)
    | Reset(account: Account)
    | GetCode(request: nat, fault: bool, newCode: Code)    // the GET of get_verify_code; newCode is the UUID it would make
    | SetCode(request: nat, fault: bool)
    | CheckCode(request: nat)                              // the GET of user_register or reset_password
    | InsertUser(request: nat, id: int)
    | UpdateUser(request: nat, countsUnchanged: bool)      // whether the database counts a row that had the password

  ghost predicate Enabled(st: State, a: Action) {
    match a
    case Tick => true
    case Ask(_) => true
    case Register(_) => true
    case Reset(_) => true
    case GetCode(r, _, newCode) => r < |st.requests| && st.requests[r].CodeGet? && newCode !in st.made
    case SetCode(r, _) => r < |st.requests| && st.requests[r].CodeSet?
    case CheckCode(r) => r < |st.requests| && (st.requests[r].RegisterGet? || st.requests[r].ResetGet?)
    case InsertUser(r, id) => r < |st.requests| && st.requests[r].RegisterInsert? && id !in st.users
    case UpdateUser(r, _) => r < |st.requests| && st.requests[r].ResetUpdate?
  }

  ghost function Step(st: State, a: Action): State
    requires Enabled(st, a)
  {
    match a
    case Tick => st.(clock := st.clock + 1)
    case Ask(email) => st.(requests := st.requests + [CodeGet(email)])
    case Register(account) => st.(requests := st.requests + [RegisterGet(account)])
    case Reset(account) => st.(requests := st.requests + [ResetGet(account)])
    case GetCode(r, fault, newCode) =>
      var email := st.requests[r].email;
      var live := if fault then None else Live(st, email);
      if live.Some? then st.(requests := st.requests[r := CodeDone(email, live)])
      else st.(requests := st.requests[r := CodeSet(email, newCode)], made := st.made[newCode := email])
    case SetCode(r, fault) =>
      var CodeSet(email, code) := st.requests[r];
      if fault then st.(requests := st.requests[r := CodeDone(email, None)])
      else st.(requests := st.requests[r := CodeDone(email, Some(code))],
               store := st.store[email := Entry(code, st.clock + TTL)],
               events := st.events + [Stored(r, email, code, st.clock)])
    case CheckCode(r) =>
      var account := st.requests[r].account;
      if Live(st, account.email) != Some(account.code) then st.(requests := st.requests[r := Refused(account)])
      else
        st.(requests := st.requests[r := if st.requests[r].RegisterGet? then RegisterInsert(account) else ResetUpdate(account)],
            events := st.events + [Read(r, account.email, account.code, st.clock)])
    case InsertUser(r, id) =>
      var account := st.requests[r].account;
      var inserted := Insert(st.users, id, account.user, account.email, account.passwd);
      if inserted.None? then st.(requests := st.requests[r := Refused(account)])
      else st.(requests := st.requests[r := Accepted(account)], users := inserted.value,
               events := st.events + [Created(r, account)])
    case UpdateUser(r, countsUnchanged) =>
      var account := st.requests[r].account;
      var changed := SetPassword(st.users, account.user, account.email, account.passwd);
      if !HasRow(st.users, account) || (changed == st.users && !countsUnchanged)
      then st.(requests := st.requests[r := Refused(account)])
      else st.(requests := st.requests[r := Accepted(account)], users := changed,
               events := st.events + [Changed(r, account)])
  }

  ghost predicate HasRow(users: Table, account: Account) {
    exists id :: id in users && users[id].name == account.user && users[id].email == account.email
  }

  ghost predicate Legal(run: seq<Action>)
    decreases |run|, 0
  {
    run == [] || (Legal(run[..|run| - 1]) && Enabled(After(run[..|run| - 1]), run[|run| - 1]))
  }

  ghost function After(run: seq<Action>): State
    requires Legal(run)
    decreases |run|, 1
  {
    if run == [] then INIT else Step(After(run[..|run| - 1]), run[|run| - 1])
  }

  // ---------- What every run keeps ----------

  /** The code was made for this email. */
  predicate MadeFor(st: State, code: Code, email: string) {
    code in st.made && st.made[code] == email
  }

  /** The code stored last for the email, and when. */
  function LastStored(events: seq<Event>, email: string): Option<(Code, nat)> {
    if events == [] then None
    else
      var e := events[|events| - 1];
      if e.Stored? && e.email == email then Some((e.code, e.time)) else LastStored(events[..|events| - 1], email)
  }

  /** Event number j is request r's read of the code that it presents for its own email. */
  predicate ReadsOwnCode(events: seq<Event>, j: nat, r: nat, account: Account) {
    j < |events| && events[j].Read? && events[j].request == r && events[j].email == account.email
    && events[j].code == account.code
  }

  ghost predicate HasRead(events: seq<Event>, bound: nat, r: nat, account: Account) {
    exists j: nat :: j < bound && ReadsOwnCode(events, j, r, account)
  }

  ghost predicate RequestOk(st: State, r: nat, q: Request) {
    match q
    case CodeSet(email, code) => MadeFor(st, code, email)
    case CodeDone(email, Some(code)) => MadeFor(st, code, email)
    case RegisterInsert(account) => HasRead(st.events, |st.events|, r, account)
    case ResetUpdate(account) => HasRead(st.events, |st.events|, r, account)
    case _ => true
  }

  /** A code that was read was the one stored last for its email, less than 600 seconds before, and had been made for that
      email; what is done to an account follows such a read, by the same request, of the code that it presents. */
  ghost predicate EventOk(st: State, k: nat)
    requires k < |st.events|
  {
    match st.events[k]
    case Stored(_, email, code, _) => MadeFor(st, code, email)
    case Read(_, email, code, time) => MadeFor(st, code, email) && IsLive(st.events[..k], email, code, time)
    case Created(r, account) => HasRead(st.events, k, r, account)
    case Changed(r, account) => HasRead(st.events, k, r, account)
  }

  predicate IsLive(events: seq<Event>, email: string, code: Code, time: nat) {
    var last := LastStored(events, email);
    last.Some? && last.value.0 == code && last.value.1 <= time < last.value.1 + 600
  }

  ghost predicate StoreOk(st: State) {
    forall email :: match LastStored(st.events, email)
                    case None => email !in st.store
                    case Some(last) => email in st.store && st.store[email] == Entry(last.0, last.1 + TTL) && last.1 <= st.clock
  }

  /** Codes about to be stored are stored nowhere yet, and no two of them are the same. */
  ghost predicate PendingOk(requests: seq<Request>, store: map<string, Entry>) {
    && (forall r, email :: 0 <= r < |requests| && requests[r].CodeSet? && email in store ==> store[email].code != requests[r].code)
    && (forall r, q :: 0 <= r < q < |requests| && requests[r].CodeSet? && requests[q].CodeSet? ==> requests[r].code != requests[q].code)
  }

  /** The event put this row's password where it is. */
  predicate Wrote(e: Event, row: UserInfo) {
    (e.Created? || e.Changed?) && e.account.user == row.name && e.account.email == row.email && e.account.passwd == row.pwd
  }

  ghost predicate RowsOk(users: Table, events: seq<Event>) {
    forall id :: id in users ==> exists k :: 0 <= k < |events| && Wrote(events[k], users[id])
  }

  ghost predicate Inv(st: State) {
    && TableInv(st.users)
    && StoreOk(st)
    && (forall email :: email in st.store ==> MadeFor(st, st.store[email].code, email))
    && PendingOk(st.requests, st.store)
    && (forall r :: 0 <= r < |st.requests| ==> RequestOk(st, r, st.requests[r]))
    && (forall k :: 0 <= k < |st.events| ==> EventOk(st, k))
    && RowsOk(st.users, st.events)
  }

  /** Codes stay made for their email, and events stay recorded. */
  ghost predicate Extends(st: State, t: State) {
    && (forall code :: code in st.made ==> code in t.made && t.made[code] == st.made[code])
    && st.events <= t.events
  }

  lemma HasReadStays(events: seq<Event>, more: seq<Event>, bound: nat, later: nat, r: nat, account: Account)
    requires HasRead(events, bound, r, account) && events <= more && bound <= later
    ensures HasRead(more, later, r, account)
  {
    var j: nat :| j < bound && ReadsOwnCode(events, j, r, account);
    assert ReadsOwnCode(more, j, r, account);
  }

  lemma ExtendsKeepsRequest(st: State, t: State, r: nat, q: Request)
    requires Extends(st, t) && RequestOk(st, r, q)
    ensures RequestOk(t, r, q)
  {
    hide HasRead;
    if q.RegisterInsert? || q.ResetUpdate? {
      HasReadStays(st.events, t.events, |st.events|, |t.events|, r, q.account);
    }
  }

  lemma ExtendsKeepsEvent(st: State, t: State, k: nat)
    requires Extends(st, t) && k < |st.events| && EventOk(st, k)
    ensures EventOk(t, k)
  {
    hide HasRead, IsLive;
    var e := st.events[k];
    assert t.events[k] == e && t.events[..k] == st.events[..k];
    if e.Created? || e.Changed? {
      HasReadStays(st.events, t.events, k, k, e.request, e.account);
    }
  }

  /** A step that changes at most request r and adds at most one event. */
  lemma RecordsStayOk(st: State, t: State, r: nat)
    requires Inv(st) && Extends(st, t)
    requires |st.requests| <= |t.requests| <= |st.requests| + 1
    requires forall k :: 0 <= k < |st.requests| && k != r ==> t.requests[k] == st.requests[k]
    requires r < |t.requests| && RequestOk(t, r, t.requests[r])
    requires |t.requests| > |st.requests| ==> r == |st.requests|
    requires |t.events| <= |st.events| + 1
    requires |t.events| == |st.events| + 1 ==> EventOk(t, |st.events|)
    ensures forall k :: 0 <= k < |t.requests| ==> RequestOk(t, k, t.requests[k])
    ensures forall k :: 0 <= k < |t.events| ==> EventOk(t, k)
  {
    hide RequestOk, EventOk, StoreOk, PendingOk, RowsOk;
    forall k | 0 <= k < |t.requests| ensures RequestOk(t, k, t.requests[k]) {
      if k != r {
        ExtendsKeepsRequest(st, t, k, st.requests[k]);
      }
    }
    forall k | 0 <= k < |t.events| ensures EventOk(t, k) {
      if k < |st.events| {
        ExtendsKeepsEvent(st, t, k);
      }
    }
  }

  lemma OneMoreEvent(events: seq<Event>, e: Event)
    ensures forall email :: LastStored(events + [e], email) ==
              if e.Stored? && e.email == email then Some((e.code, e.time)) else LastStored(events, email)
  {
    assert (events + [e])[..|events|] == events;
  }

  lemma RowsStayOk(users: Table, events: seq<Event>, more: seq<Event>)
    requires RowsOk(users, events) && events <= more
    ensures RowsOk(users, more)
  {
    hide Wrote;
    forall id | id in users ensures exists k :: 0 <= k < |more| && Wrote(more[k], users[id]) {
      var k :| 0 <= k < |events| && Wrote(events[k], users[id]);
      assert more[k] == events[k];
    }
  }

  lemma WaitingKeepsInv(st: State, a: Action)
    requires Inv(st) && Enabled(st, a) && (a.Tick? || a.Ask? || a.Register? || a.Reset?)
    ensures Inv(Step(st, a)) && Extends(st, Step(st, a))
  {
    hide EventOk, HasRead, RowsOk, LastStored;
    var t := Step(st, a);
    if a.Tick? {
      forall r | 0 <= r < |t.requests| ensures RequestOk(t, r, t.requests[r]) { ExtendsKeepsRequest(st, t, r, st.requests[r]); }
      forall k | 0 <= k < |t.events| ensures EventOk(t, k) { ExtendsKeepsEvent(st, t, k); }
      TickKeepsStore(st);
    } else {
      RecordsStayOk(st, t, |st.requests|);
    }
  }

  lemma TickKeepsStore(st: State)
    requires StoreOk(st)
    ensures StoreOk(st.(clock := st.clock + 1))
  {
    hide LastStored;
  }

  lemma GetKeepsInv(st: State, r: nat, fault: bool, newCode: Code)
    requires Inv(st) && Enabled(st, GetCode(r, fault, newCode))
    ensures var t := Step(st, GetCode(r, fault, newCode)); Inv(t) && Extends(st, t)
  {
    hide EventOk, HasRead, RowsOk, LastStored;
    var t := Step(st, GetCode(r, fault, newCode));
    RecordsStayOk(st, t, r);
    assert PendingOk(t.requests, t.store) by {
      hide StoreOk;
      assert forall q :: 0 <= q < |st.requests| && st.requests[q].CodeSet? ==> RequestOk(st, q, st.requests[q]);
    }
  }

  lemma SetKeepsInv(st: State, r: nat, fault: bool)
    requires Inv(st) && Enabled(st, SetCode(r, fault))
    ensures var t := Step(st, SetCode(r, fault)); Inv(t) && Extends(st, t)
  {
    hide HasRead, RowsOk, LastStored;
    var t := Step(st, SetCode(r, fault));
    var CodeSet(email, code) := st.requests[r];
    assert RequestOk(st, r, st.requests[r]);
    RecordsStayOk(st, t, r);
    RowsStayOk(st.users, st.events, t.events);
    if !fault {
      OneMoreEvent(st.events, Stored(r, email, code, st.clock));
    }
  }

  lemma CheckKeepsInv(st: State, r: nat)
    requires Inv(st) && Enabled(st, CheckCode(r))
    ensures Inv(Step(st, CheckCode(r))) && Extends(st, Step(st, CheckCode(r)))
  {
    hide RowsOk, LastStored, HasRead;
    var t := Step(st, CheckCode(r));
    var account := st.requests[r].account;
    RowsStayOk(st.users, st.events, t.events);
    if !t.requests[r].Refused? {
      var e := Read(r, account.email, account.code, st.clock);
      OneMoreEvent(st.events, e);
      assert t.events[..|st.events|] == st.events;
      assert HasRead(t.events, |t.events|, r, account) by { NewReadCounts(st.events, e, r, account); }
    }
    RecordsStayOk(st, t, r);
  }

  lemma NewReadCounts(events: seq<Event>, e: Event, r: nat, account: Account)
    requires e.Read? && e.request == r && e.email == account.email && e.code == account.code
    ensures HasRead(events + [e], |events| + 1, r, account)
  {
    assert ReadsOwnCode(events + [e], |events|, r, account);
  }

  /** Creating the account or changing the password. */
  lemma ActKeepsInv(st: State, t: State, r: nat)
    requires Inv(st) && r < |st.requests| && (st.requests[r].RegisterInsert? || st.requests[r].ResetUpdate?)
    requires TableInv(t.users) && t.made == st.made && t.store == st.store && t.clock == st.clock && RowsOk(t.users, t.events)
    requires var account := st.requests[r].account;
             || (t.requests == st.requests[r := Refused(account)] && t.events == st.events)
             || (t.requests == st.requests[r := Accepted(account)] && t.events == st.events + [Created(r, account)])
             || (t.requests == st.requests[r := Accepted(account)] && t.events == st.events + [Changed(r, account)])
    ensures Inv(t)
  {
    hide RowsOk, LastStored, HasRead;
    var account := st.requests[r].account;
    assert RequestOk(st, r, st.requests[r]);
    HasReadStays(st.events, t.events, |st.events|, |st.events|, r, account);
    OneMoreEvent(st.events, Created(r, account));
    OneMoreEvent(st.events, Changed(r, account));
    RecordsStayOk(st, t, r);
  }

  lemma InsertKeepsRows(users: Table, events: seq<Event>, id: int, r: nat, account: Account)
    requires RowsOk(users, events) && id !in users
    ensures RowsOk(users[id := UserInfo(id, account.user, account.email, account.passwd)], events + [Created(r, account)])
  {
    var more := events + [Created(r, account)];
    RowsStayOk(users, events, more);
    assert Wrote(more[|events|], UserInfo(id, account.user, account.email, account.passwd));
  }

  lemma ChangeKeepsRows(users: Table, events: seq<Event>, r: nat, account: Account)
    requires RowsOk(users, events)
    ensures RowsOk(SetPassword(users, account.user, account.email, account.passwd), events + [Changed(r, account)])
  {
    var more := events + [Changed(r, account)];
    var changed := SetPassword(users, account.user, account.email, account.passwd);
    RowsStayOk(users, events, more);
    forall id | id in changed ensures exists k :: 0 <= k < |more| && Wrote(more[k], changed[id]) {
      if users[id].name == account.user && users[id].email == account.email {
        assert Wrote(more[|events|], changed[id]);
      }
    }
  }

  lemma StepKeepsInv(st: State, a: Action)
    requires Inv(st) && Enabled(st, a)
    ensures Inv(Step(st, a)) && Extends(st, Step(st, a))
  {
    hide Inv, RowsOk;
    var t := Step(st, a);
    match a
    case GetCode(r, fault, newCode) => GetKeepsInv(st, r, fault, newCode);
    case SetCode(r, fault) => SetKeepsInv(st, r, fault);
    case CheckCode(r) => CheckKeepsInv(st, r);
    case InsertUser(r, id) =>
      var account := st.requests[r].account;
      RowsOfInv(st);
      InsertKeepsInv(st.users, id, account.user, account.email, account.passwd);
      InsertKeepsRows(st.users, st.events, id, r, account);
      ActKeepsInv(st, t, r);
    case UpdateUser(r, countsUnchanged) =>
      var account := st.requests[r].account;
      RowsOfInv(st);
      SetPasswordKeepsInv(st.users, account.user, account.email, account.passwd);
      ChangeKeepsRows(st.users, st.events, r, account);
      ActKeepsInv(st, t, r);
    case _ => WaitingKeepsInv(st, a);
  }

  lemma RowsOfInv(st: State)
    requires Inv(st)
    ensures TableInv(st.users) && RowsOk(st.users, st.events)
  {
  }

  lemma {:induction false} RunKeepsInv(run: seq<Action>)
    requires Legal(run)
    ensures Inv(After(run))
  {
    hide Inv;
    if run == [] {
      NothingIsOk();
    } else {
      RunKeepsInv(run[..|run| - 1]);
      StepKeepsInv(After(run[..|run| - 1]), run[|run| - 1]);
    }
  }

  lemma NothingIsOk()
    ensures Inv(INIT)
  {
  }

  // ---------- Results ----------

  /** Event number j is request r's read of the code it presents, and that code was the one stored last for the account's
      email, less than 600 seconds before, and had been made for that email. */
  ghost predicate Verifies(st: State, j: nat, r: nat, account: Account) {
    && ReadsOwnCode(st.events, j, r, account)
    && MadeFor(st, account.code, account.email)
    && IsLive(st.events[..j], account.email, account.code, st.events[j].time)
  }

  /** Over all interleavings, each account creation and each password change follows the same request's read of the code it
      presents, live at that moment for the account's own email. */
  lemma EveryChangeWasVerified(run: seq<Action>, k: nat)
    requires Legal(run) && k < |After(run).events| && (After(run).events[k].Created? || After(run).events[k].Changed?)
    ensures var st := After(run);
            exists j: nat :: j < k && Verifies(st, j, st.events[k].request, st.events[k].account)
  {
    hide IsLive, Legal, After;
    RunKeepsInv(run);
    var st := After(run);
    var e := st.events[k];
    assert EventOk(st, k);
    var j: nat :| j < k && ReadsOwnCode(st.events, j, e.request, e.account);
    assert EventOk(st, j);
    assert Verifies(st, j, e.request, e.account);
  }

  /** So is every password in the table: some such creation or change put it there. */
  lemma EveryRowWasVerified(run: seq<Action>, id: int)
    requires Legal(run) && id in After(run).users
    ensures var st := After(run);
            exists k, j :: 0 <= j < k < |st.events| && Wrote(st.events[k], st.users[id]) &&
                           Verifies(st, j, st.events[k].request, st.events[k].account)
  {
    hide Verifies, EventOk, RequestOk, Legal, After;
    RunKeepsInv(run);
    var st := After(run);
    var k :| 0 <= k < |st.events| && Wrote(st.events[k], st.users[id]);
    EveryChangeWasVerified(run, k);
  }

  /** A request passes the check exactly when it presents the code that is live for its email at that moment, and a code
      made for one email passes for no other. */
  lemma OnlyTheLiveCodePasses(run: seq<Action>, r: nat)
    requires Legal(run) && Enabled(After(run), CheckCode(r))
    ensures var st, t := After(run), Step(After(run), CheckCode(r));
            var account := st.requests[r].account;
            && (!t.requests[r].Refused? <==> IsLive(st.events, account.email, account.code, st.clock))
            && (!t.requests[r].Refused? ==> MadeFor(st, account.code, account.email))
  {
    hide LastStored, Legal, After, RequestOk, EventOk, RowsOk, PendingOk;
    RunKeepsInv(run);
    var st := After(run);
    assert st.requests[r].account.email in st.store ==> LastStored(st.events, st.requests[r].account.email).Some?;
  }

  // ---------- The same code within its time ----------

  /** The store holds `code` for the email until `expires`, and no request is about to overwrite it. */
  ghost predicate Settled(st: State, email: string, code: Code, expires: nat) {
    && email in st.store && st.store[email] == Entry(code, expires)
    && forall r :: 0 <= r < |st.requests| && st.requests[r].CodeSet? ==> st.requests[r].email != email
  }

  ghost predicate Runs(st: State, acts: seq<Action>)
    decreases |acts|
  {
    acts == [] || (Enabled(st, acts[0]) && Runs(Step(st, acts[0]), acts[1..]))
  }

  ghost function Final(st: State, acts: seq<Action>): State
    requires Runs(st, acts)
    decreases |acts|
  {
    if acts == [] then st else Final(Step(st, acts[0]), acts[1..])
  }

  /** No GET for this email fails. */
  ghost predicate GetsSucceed(st: State, acts: seq<Action>, email: string)
    requires Runs(st, acts)
    decreases |acts|
  {
    acts == [] ||
    ((acts[0].GetCode? && st.requests[acts[0].request].email == email ==> !acts[0].fault)
     && GetsSucceed(Step(st, acts[0]), acts[1..], email))
  }

  lemma {:induction false} ClockOnlyAdvances(st: State, acts: seq<Action>)
    requires Runs(st, acts)
    ensures st.clock <= Final(st, acts).clock && |st.requests| <= |Final(st, acts).requests|
    decreases |acts|
  {
    if acts != [] {
      ClockOnlyAdvances(Step(st, acts[0]), acts[1..]);
    }
  }

  lemma StepKeepsSettled(st: State, a: Action, email: string, code: Code, expires: nat)
    requires Enabled(st, a) && Settled(st, email, code, expires) && st.clock < expires
    requires a.GetCode? && st.requests[a.request].email == email ==> !a.fault
    ensures Settled(Step(st, a), email, code, expires)
    ensures forall r :: 0 <= r < |st.requests| && st.requests[r] == CodeGet(email) ==>
                          Step(st, a).requests[r] == CodeGet(email) || Step(st, a).requests[r] == CodeDone(email, Some(code))
    ensures forall r :: 0 <= r < |st.requests| && st.requests[r] == CodeDone(email, Some(code)) ==>
                          Step(st, a).requests[r] == CodeDone(email, Some(code))
  {
    var t := Step(st, a);
    forall r | 0 <= r < |t.requests| && t.requests[r].CodeSet? ensures t.requests[r].email != email {
      if r < |st.requests| && t.requests[r] != st.requests[r] {
        assert a.GetCode? && a.request == r;
      }
    }
  }

  /** Once a request has stored a code and no other is about to, every request for the same email in the next 600 seconds
      that completes returns that code, however it interleaves with everything else, as long as no GET for that email fails. */
  lemma {:induction false} SameCodeWithinItsTime(st: State, acts: seq<Action>, email: string, code: Code, expires: nat, r: nat)
    requires Settled(st, email, code, expires)
    requires Runs(st, acts) && GetsSucceed(st, acts, email) && Final(st, acts).clock < expires
    requires r < |Final(st, acts).requests|
    requires r < |st.requests| ==> st.requests[r] == CodeGet(email) || st.requests[r] == CodeDone(email, Some(code))
    ensures Settled(Final(st, acts), email, code, expires)
    ensures Final(st, acts).requests[r].CodeDone? && Final(st, acts).requests[r].email == email ==>
              Final(st, acts).requests[r] == CodeDone(email, Some(code))
    decreases |acts|
  {
    if acts == [] {
    } else {
      var a, t := acts[0], Step(st, acts[0]);
      ClockOnlyAdvances(t, acts[1..]);
      StepKeepsSettled(st, a, email, code, expires);
      if r < |t.requests| && !(t.requests[r] == CodeGet(email) || t.requests[r] == CodeDone(email, Some(code))) {
        OtherRequestsStay(t, acts[1..], r, email);
        SettledStays(t, acts[1..], email, code, expires);
      } else {
        SameCodeWithinItsTime(t, acts[1..], email, code, expires, r);
      }
    }
  }

  /** A request that is not for a code of this email never becomes one. */
  ghost predicate Unrelated(q: Request, email: string) {
    (q.CodeGet? || q.CodeSet? || q.CodeDone?) ==> q.email != email
  }

  lemma {:induction false} OtherRequestsStay(st: State, acts: seq<Action>, r: nat, email: string)
    requires Runs(st, acts) && r < |st.requests| && Unrelated(st.requests[r], email)
    ensures r < |Final(st, acts).requests| && Unrelated(Final(st, acts).requests[r], email)
    decreases |acts|
  {
    if acts != [] {
      OtherRequestsStay(Step(st, acts[0]), acts[1..], r, email);
    }
  }

  lemma {:induction false} SettledStays(st: State, acts: seq<Action>, email: string, code: Code, expires: nat)
    requires Settled(st, email, code, expires)
    requires Runs(st, acts) && GetsSucceed(st, acts, email) && Final(st, acts).clock < expires
    ensures Settled(Final(st, acts), email, code, expires)
    decreases |acts|
  {
    if acts != [] {
      ClockOnlyAdvances(Step(st, acts[0]), acts[1..]);
      StepKeepsSettled(st, acts[0], email, code, expires);
      SettledStays(Step(st, acts[0]), acts[1..], email, code, expires);
    }
  }

  /** Some request is about to store a code for the email. */
  predicate IsPending(st: State, email: string) {
    exists q :: 0 <= q < |st.requests| && st.requests[q].CodeSet? && st.requests[q].email == email
  }

  /** Request r for the email is answered in the course of `acts`, which stay within the time and see no GET for it fail. */
  ghost predicate IsAnswered(st: State, acts: seq<Action>, email: string, expires: nat, r: nat) {
    && Runs(st, acts) && GetsSucceed(st, acts, email) && Final(st, acts).clock < expires
    && r < |Final(st, acts).requests|
    && Final(st, acts).requests[r].CodeDone? && Final(st, acts).requests[r].email == email
    && !(r < |st.requests| && st.requests[r].CodeDone?)
  }

  ghost predicate IsGiven(st: State, acts: seq<Action>, r: nat, code: Code)
    requires Runs(st, acts)
  {
    r < |Final(st, acts).requests| && Final(st, acts).requests[r].CodeDone? && Final(st, acts).requests[r].answer == Some(code)
  }

  /** Whatever happens within the time, every such request is answered `code`. */
  ghost predicate AlwaysAnswers(st: State, email: string, code: Code, expires: nat) {
    forall acts, r: nat :: IsAnswered(st, acts, email, expires, r) ==> IsGiven(st, acts, r, code)
  }

  lemma PendingAnswersAnother(st: State, email: string, q: nat)
    requires Inv(st) && email in st.store && st.clock < st.store[email].expires
    requires q < |st.requests| && st.requests[q].CodeSet? && st.requests[q].email == email
    ensures var acts := [SetCode(q, false)];
            && IsAnswered(st, acts, email, st.store[email].expires, q)
            && !IsGiven(st, acts, q, st.store[email].code)
  {
    hide RequestOk, EventOk, StoreOk, RowsOk;
    var acts := [SetCode(q, false)];
    var t := Step(st, SetCode(q, false));
    assert acts[1..] == [] && Runs(t, []) && Final(t, []) == t && GetsSucceed(t, [], email);
    assert Runs(st, acts) && Final(st, acts) == t;
  }

  /** In every reachable state with a live code for an email: each request for it that is answered while the code lives, and
      without a failing GET for it, gets that code, exactly when no other request is about to store one. */
  lemma SameCodeIffNonePending(run: seq<Action>, email: string)
    requires Legal(run)
    requires email in After(run).store && After(run).clock < After(run).store[email].expires
    ensures var st := After(run);
            AlwaysAnswers(st, email, st.store[email].code, st.store[email].expires) <==> !IsPending(st, email)
  {
    hide Inv, Legal, After, Step, Enabled, GetsSucceed;
    RunKeepsInv(run);
    var st := After(run);
    var Entry(code, expires) := st.store[email];
    if IsPending(st, email) {
      var q :| 0 <= q < |st.requests| && st.requests[q].CodeSet? && st.requests[q].email == email;
      PendingAnswersAnother(st, email, q);
    } else {
      forall acts, r: nat | IsAnswered(st, acts, email, expires, r) ensures IsGiven(st, acts, r, code) {
        AnsweredSame(st, acts, email, code, expires, r);
      }
    }
  }

  lemma AnsweredSame(st: State, acts: seq<Action>, email: string, code: Code, expires: nat, r: nat)
    requires Settled(st, email, code, expires) && IsAnswered(st, acts, email, expires, r)
    ensures IsGiven(st, acts, r, code)
  {
    hide Step;
    if r < |st.requests| && st.requests[r] != CodeGet(email) {
      OtherRequestsStay(st, acts, r, email);
    } else {
      SameCodeWithinItsTime(st, acts, email, code, expires, r);
    }
  }

  /** When the last request that was about to store a code for the email has stored it, the code is settled for 600
      seconds. */
  lemma StoringSettles(st: State, r: nat)
    requires Enabled(st, SetCode(r, false))
    requires forall q :: 0 <= q < |st.requests| && q != r && st.requests[q].CodeSet? ==>
                           st.requests[q].email != st.requests[r].email
    ensures var CodeSet(email, code) := st.requests[r];
            var t := Step(st, SetCode(r, false));
            Settled(t, email, code, st.clock + 600) && t.requests[r] == CodeDone(email, Some(code))
  {
    var t := Step(st, SetCode(r, false));
    forall q | 0 <= q < |t.requests| && t.requests[q].CodeSet? ensures t.requests[q].email != st.requests[r].email {
      assert t.requests[q] == st.requests[q];
    }
  }

  lemma OneMore(run: seq<Action>, a: Action)
    requires Legal(run) && Enabled(After(run), a)
    ensures Legal(run + [a]) && After(run + [a]) == Step(After(run), a)
  {
    assert (run + [a])[..|run|] == run;
  }

  /** Requests that overlap may both miss and answer different codes, of which only the later one is accepted. */
  lemma OverlappingRequestsMayDiffer()
    ensures exists run: seq<Action> ::
              Legal(run) && After(run).requests == [CodeDone("e", Some(0)), CodeDone("e", Some(1))]
              && Live(After(run), "e") == Some(1)
  {
    Nothing();
    hide Legal, After;
    var r0: seq<Action> := [];
    OneMore(r0, Ask("e"));
    var r1 := r0 + [Ask("e")];
    OneMore(r1, Ask("e"));
    var r2 := r1 + [Ask("e")];
    assert After(r2).requests == [CodeGet("e"), CodeGet("e")];
    OneMore(r2, GetCode(0, false, 0));
    var r3 := r2 + [GetCode(0, false, 0)];
    assert After(r3) == State(0, map[], map[0 := "e"], map[], [CodeSet("e", 0), CodeGet("e")], []);
    OneMore(r3, GetCode(1, false, 1));
    var r4 := r3 + [GetCode(1, false, 1)];
    assert After(r4).requests == [CodeSet("e", 0), CodeSet("e", 1)];
    OneMore(r4, SetCode(0, false));
    var r5 := r4 + [SetCode(0, false)];
    assert After(r5).requests == [CodeDone("e", Some(0)), CodeSet("e", 1)];
    OneMore(r5, SetCode(1, false));
    var r6 := r5 + [SetCode(1, false)];
    assert After(r6).requests == [CodeDone("e", Some(0)), CodeDone("e", Some(1))];
  }

  lemma Nothing()
    ensures Legal([]) && After([]) == INIT
  {
  }

  // ---------- The services ----------

  datatype Outcome = Success | InvalidVerifyCode | UserOrEmailExist | UserOrEmailInvalid

  /** The verify server's and the gate server's requests, each run without another in between.  The ghost fields are the
      machine's records. */
  class Services {
    var clock: nat
    var store: map<string, Entry>
    var users: Table
    ghost var made: map<Code, string>
    ghost var requests: seq<Request>
    ghost var events: seq<Event>

    ghost function View(): State
      reads this
    {
      State(clock, store, made, users, requests, events)
    }

    constructor ()
      ensures View() == INIT
    {
      clock, store, users := 0, map[], map[];
      made, requests, events := map[], [], [];
    }

    /** get_verify_code; `newCode` is the UUID it generates if it has to. */
    method GetVerifyCode(email: string, newCode: Code, getFails: bool, setFails: bool) returns (answer: Option<Code>)
      requires newCode !in made
      modifies this
      ensures var r := |old(requests)|;
              var start := [Ask(email), GetCode(r, getFails, newCode)];
              var acts := if !getFails && Live(old(View()), email).Some? then start else start + [SetCode(r, setFails)];
              && Runs(old(View()), acts) && View() == Final(old(View()), acts)
              && r < |requests| && requests[r] == CodeDone(email, answer)
      ensures answer.Some? ==> Live(View(), email) == answer
      ensures answer.None? ==> setFails && store == old(store)
    {
      hide Runs, Final;
      ghost var r := |requests|;
      ghost var before := View();
      ghost var start := [Ask(email), GetCode(r, getFails, newCode)];
      ghost var asked := Step(before, Ask(email));
      if !getFails && email in store && clock < store[email].expires {
        answer := Some(store[email].code);
        requests := requests + [CodeDone(email, answer)];
        TwoSteps(before, start[0], start[1]);
        assert View() == Step(asked, start[1]);
        return;
      }
      made := made[newCode := email];
      if setFails {
        answer := None;
      } else {
        store := store[email := Entry(newCode, clock + TTL)];
        events := events + [Stored(r, email, newCode, clock)];
        answer := Some(newCode);
      }
      requests := requests + [CodeDone(email, answer)];
      ThreeSteps(before, start[0], start[1], SetCode(r, setFails));
      assert start + [SetCode(r, setFails)] == [start[0], start[1], SetCode(r, setFails)];
      assert View() == Step(Step(asked, start[1]), SetCode(r, setFails));
    }

    /** user_register after parsing; `id` is what auto-increment would give. */
    method UserRegister(account: Account, id: int) returns (outcome: Outcome)
      requires id !in users
      modifies this
      ensures var r := |old(requests)|;
              var start := [Register(account), CheckCode(r)];
              var acts := if outcome.InvalidVerifyCode? then start else start + [InsertUser(r, id)];
              Runs(old(View()), acts) && View() == Final(old(View()), acts)
      ensures outcome.InvalidVerifyCode? <==> Live(old(View()), account.email) != Some(account.code)
      ensures outcome.Success? ==> users == old(users)[id := UserInfo(id, account.user, account.email, account.passwd)]
      ensures !outcome.Success? ==> users == old(users)
      ensures outcome.UserOrEmailExist? ==> Taken(users, account.user, account.email)
    {
      hide Runs, Final;
      ghost var r := |requests|;
      ghost var before := View();
      ghost var posted := Step(before, Register(account));
      if !(account.email in store && clock < store[account.email].expires && store[account.email].code == account.code) {
        requests := requests + [Refused(account)];
        TwoSteps(before, Register(account), CheckCode(r));
        assert View() == Step(posted, CheckCode(r));
        return InvalidVerifyCode;
      }
      events := events + [Read(r, account.email, account.code, clock)];
      var inserted := Insert(users, id, account.user, account.email, account.passwd);
      if inserted.None? {
        requests := requests + [Refused(account)];
        outcome := UserOrEmailExist;
      } else {
        users := inserted.value;
        requests := requests + [Accepted(account)];
        events := events + [Created(r, account)];
        outcome := Success;
      }
      ThreeSteps(before, Register(account), CheckCode(r), InsertUser(r, id));
      assert [Register(account), CheckCode(r)] + [InsertUser(r, id)] == [Register(account), CheckCode(r), InsertUser(r, id)];
      assert View() == Step(Step(posted, CheckCode(r)), InsertUser(r, id));
    }

    /** reset_password after parsing. */
    method ResetPassword(account: Account, countsUnchanged: bool) returns (outcome: Outcome)
      modifies this
      ensures var r := |old(requests)|;
              var start := [Reset(account), CheckCode(r)];
              var acts := if outcome.InvalidVerifyCode? then start else start + [UpdateUser(r, countsUnchanged)];
              Runs(old(View()), acts) && View() == Final(old(View()), acts)
      ensures outcome.InvalidVerifyCode? <==> Live(old(View()), account.email) != Some(account.code)
      ensures users == if outcome.Success? then SetPassword(old(users), account.user, account.email, account.passwd)
                       else old(users)
      ensures outcome.UserOrEmailInvalid? && countsUnchanged ==> !HasRow(users, account)
    {
      hide Runs, Final;
      ghost var r := |requests|;
      ghost var before := View();
      ghost var posted := Step(before, Reset(account));
      if !(account.email in store && clock < store[account.email].expires && store[account.email].code == account.code) {
        requests := requests + [Refused(account)];
        TwoSteps(before, Reset(account), CheckCode(r));
        assert View() == Step(posted, CheckCode(r));
        return InvalidVerifyCode;
      }
      events := events + [Read(r, account.email, account.code, clock)];
      var changed := SetPassword(users, account.user, account.email, account.passwd);
      var found := exists id :: id in users && users[id].name == account.user && users[id].email == account.email;
      if !found || (changed == users && !countsUnchanged) {
        requests := requests + [Refused(account)];
        outcome := UserOrEmailInvalid;
      } else {
        users := changed;
        requests := requests + [Accepted(account)];
        events := events + [Changed(r, account)];
        outcome := Success;
      }
      ghost var last := UpdateUser(r, countsUnchanged);
      ThreeSteps(before, Reset(account), CheckCode(r), last);
      assert [Reset(account), CheckCode(r)] + [last] == [Reset(account), CheckCode(r), last];
      assert View() == Step(Step(posted, CheckCode(r)), last);
    }
  }

  lemma TwoSteps(st: State, a: Action, b: Action)
    requires Enabled(st, a) && Enabled(Step(st, a), b)
    ensures Runs(st, [a, b]) && Final(st, [a, b]) == Step(Step(st, a), b)
  {
    hide Enabled, Step;
    assert [a, b][1..] == [b] && [b][1..] == [];
    var end := Step(Step(st, a), b);
    assert Runs(end, []) && Final(end, []) == end;
    assert Runs(Step(st, a), [b]) && Final(Step(st, a), [b]) == Final(end, [b][1..]);
    assert Final(st, [a, b]) == Final(Step(st, a), [a, b][1..]);
  }

  lemma ThreeSteps(st: State, a: Action, b: Action, c: Action)
    requires Enabled(st, a) && Enabled(Step(st, a), b) && Enabled(Step(Step(st, a), b), c)
    ensures Runs(st, [a, b, c]) && Final(st, [a, b, c]) == Step(Step(Step(st, a), b), c)
  {
    hide Enabled, Step;
    TwoSteps(Step(st, a), b, c);
    assert [a, b, c][1..] == [b, c];
  }
}
