/** The friend and friend_apply tables and the statements the chat servers run on them. */
module FriendTables {
  import opened Wrappers

  datatype ApplyRow = ApplyRow(fromUid: int, toUid: int, status: nat)
  datatype FriendRow = FriendRow(selfId: int, friendId: int, back: Option<string>)

  datatype Db = Db(applies: seq<ApplyRow>, friends: seq<FriendRow>)

  const EMPTY := Db([], [])

  predicate HasApply(db: Db, a: int, b: int) {
    exists i :: 0 <= i < |db.applies| && db.applies[i].fromUid == a && db.applies[i].toUid == b
  }

  predicate IsAccepted(db: Db, a: int, b: int) {
    exists i :: 0 <= i < |db.applies| && db.applies[i] == ApplyRow(a, b, 1)
  }

  predicate HasFriend(friends: seq<FriendRow>, a: int, b: int) {
    exists i :: 0 <= i < |friends| && friends[i].selfId == a && friends[i].friendId == b
  }

  // ---------- The statements ----------

  /** INSERT ... ON DUPLICATE KEY UPDATE from_uid = from_uid, to_uid = to_uid. */
  function InsertApply(db: Db, a: int, b: int): Db {
    if HasApply(db, a, b) then db else db.(applies := db.applies + [ApplyRow(a, b, 0)])
  }

  /** UPDATE friend_apply SET status = 1 WHERE from_uid = a AND to_uid = b. */
  function SetAccepted(applies: seq<ApplyRow>, a: int, b: int): (r: seq<ApplyRow>)
    ensures |r| == |applies|
    ensures forall i :: 0 <= i < |r| ==>
              r[i] == if applies[i].fromUid == a && applies[i].toUid == b then ApplyRow(a, b, 1) else applies[i]
  {
    seq(|applies|, i requires 0 <= i < |applies| =>
      if applies[i].fromUid == a && applies[i].toUid == b then ApplyRow(a, b, 1) else applies[i])
  }

  /** INSERT IGNORE INTO friend. */
  function InsertFriend(friends: seq<FriendRow>, a: int, b: int): seq<FriendRow> {
    if HasFriend(friends, a, b) then friends else friends + [FriendRow(a, b, Some(""))]
  }

  /** The transaction of auth_friend_apply. */
  function Accept(db: Db, a: int, b: int): Db {
    Db(SetAccepted(db.applies, a, b), InsertFriend(InsertFriend(db.friends, a, b), b, a))
  }

  datatype Statement = AddApply(fromUid: int, toUid: int) | AuthApply(fromUid: int, toUid: int) {
    /** What the handlers check before they reach the tables. */
    predicate Proper() { fromUid != toUid }
  }

  function Execute(db: Db, op: Statement): Db {
    match op
    case AddApply(a, b) => InsertApply(db, a, b)
    case AuthApply(a, b) => Accept(db, a, b)
  }

  function Run(ops: seq<Statement>): Db {
    if ops == [] then EMPTY else Execute(Run(ops[..|ops| - 1]), ops[|ops| - 1])
  }

  // ---------- What every run keeps ----------

  ghost predicate AppliesInv(applies: seq<ApplyRow>) {
    && (forall i, j :: 0 <= i < j < |applies| ==>
          applies[i].fromUid != applies[j].fromUid || applies[i].toUid != applies[j].toUid)
    && (forall i :: 0 <= i < |applies| ==> applies[i].fromUid != applies[i].toUid && applies[i].status <= 1)
  }

  ghost predicate FriendsInv(friends: seq<FriendRow>) {
    && (forall i, j :: 0 <= i < j < |friends| ==>
          friends[i].selfId != friends[j].selfId || friends[i].friendId != friends[j].friendId)
    && (forall i :: 0 <= i < |friends| ==> friends[i].selfId != friends[i].friendId && friends[i].back == Some(""))
  }

  ghost predicate Symmetric(friends: seq<FriendRow>) {
    forall a, b :: HasFriend(friends, a, b) ==> HasFriend(friends, b, a)
  }

  ghost predicate Inv(db: Db) {
    AppliesInv(db.applies) && FriendsInv(db.friends) && Symmetric(db.friends)
  }

  /** Rows are never removed, a status only goes from 0 to 1, and friend rows never change. */
  ghost predicate Grows(before: Db, after: Db) {
    && |before.applies| <= |after.applies|
    && (forall i :: 0 <= i < |before.applies| ==>
          after.applies[i] == before.applies[i] || after.applies[i] == before.applies[i].(status := 1))
    && before.friends <= after.friends
  }

  lemma InsertFriendHas(friends: seq<FriendRow>, a: int, b: int)
    ensures forall x, y :: HasFriend(InsertFriend(friends, a, b), x, y) <==> HasFriend(friends, x, y) || (x == a && y == b)
    ensures friends <= InsertFriend(friends, a, b)
  {
    var r := InsertFriend(friends, a, b);
    if !HasFriend(friends, a, b) {
      assert r[|friends|] == FriendRow(a, b, Some(""));
      forall x, y | HasFriend(friends, x, y) ensures HasFriend(r, x, y) {
        var i :| 0 <= i < |friends| && friends[i].selfId == x && friends[i].friendId == y;
        assert r[i] == friends[i];
      }
    }
  }

  lemma InsertFriendKeepsInv(friends: seq<FriendRow>, a: int, b: int)
    requires FriendsInv(friends) && a != b
    ensures FriendsInv(InsertFriend(friends, a, b))
  {
    if !HasFriend(friends, a, b) {
      var r := InsertFriend(friends, a, b);
      forall i, j | 0 <= i < j < |r| ensures r[i].selfId != r[j].selfId || r[i].friendId != r[j].friendId {
        assert r[i] == friends[i];
      }
    }
  }

  lemma ExecuteKeepsInv(db: Db, op: Statement)
    requires Inv(db) && op.Proper()
    ensures Inv(Execute(db, op)) && Grows(db, Execute(db, op))
  {
    match op
    case AddApply(a, b) =>
    case AuthApply(a, b) =>
      var one := InsertFriend(db.friends, a, b);
      InsertFriendHas(db.friends, a, b);
      InsertFriendHas(one, b, a);
      InsertFriendKeepsInv(db.friends, a, b);
      InsertFriendKeepsInv(one, b, a);
      assert AppliesInv(SetAccepted(db.applies, a, b));
  }

  /** In every reachable state the friend rows are symmetric, irreflexive and unique, and the apply rows irreflexive and
      unique; from any earlier moment of the run to its end nothing is removed and no status goes back. */
  lemma {:induction false} RunKeepsInv(ops: seq<Statement>, earlier: nat)
    requires forall i :: 0 <= i < |ops| ==> ops[i].Proper()
    requires earlier <= |ops|
    ensures Inv(Run(ops)) && Grows(Run(ops[..earlier]), Run(ops))
  {
    if earlier < |ops| {
      var init := ops[..|ops| - 1];
      RunKeepsInv(init, earlier);
      assert init[..earlier] == ops[..earlier];
      ExecuteKeepsInv(Run(init), ops[|ops| - 1]);
    } else {
      assert ops[..earlier] == ops;
      if ops != [] {
        var init := ops[..|ops| - 1];
        RunKeepsInv(init, |init|);
        ExecuteKeepsInv(Run(init), ops[|ops| - 1]);
      }
    }
  }

  lemma AddApplyRows(db: Db, a: int, b: int)
    ensures forall x, y :: HasApply(InsertApply(db, a, b), x, y) <==> HasApply(db, x, y) || (x == a && y == b)
    ensures forall x, y :: IsAccepted(InsertApply(db, a, b), x, y) <==> IsAccepted(db, x, y)
  {
    var r := InsertApply(db, a, b);
    if !HasApply(db, a, b) {
      assert r.applies[|db.applies|] == ApplyRow(a, b, 0);
      forall x, y | HasApply(db, x, y) ensures HasApply(r, x, y) {
        var i :| 0 <= i < |db.applies| && db.applies[i].fromUid == x && db.applies[i].toUid == y;
        assert r.applies[i] == db.applies[i];
      }
      forall x, y | IsAccepted(db, x, y) ensures IsAccepted(r, x, y) {
        var i :| 0 <= i < |db.applies| && db.applies[i] == ApplyRow(x, y, 1);
        assert r.applies[i] == db.applies[i];
      }
    }
  }

  lemma AcceptRows(db: Db, a: int, b: int)
    ensures forall x, y :: HasApply(Accept(db, a, b), x, y) <==> HasApply(db, x, y)
    ensures forall x, y :: IsAccepted(Accept(db, a, b), x, y) <==>
                           IsAccepted(db, x, y) || (x == a && y == b && HasApply(db, a, b))
  {
    var r := Accept(db, a, b).applies;
    forall x, y | HasApply(db, x, y) ensures HasApply(Accept(db, a, b), x, y) {
      var i :| 0 <= i < |db.applies| && db.applies[i].fromUid == x && db.applies[i].toUid == y;
      assert r[i].fromUid == x && r[i].toUid == y;
      if x == a && y == b {
        assert r[i] == ApplyRow(a, b, 1);
      }
    }
    forall x, y | IsAccepted(db, x, y) ensures IsAccepted(Accept(db, a, b), x, y) {
      var i :| 0 <= i < |db.applies| && db.applies[i] == ApplyRow(x, y, 1);
      assert r[i] == ApplyRow(x, y, 1);
    }
  }

  ghost predicate AppliedThenAuthorised(ops: seq<Statement>, a: int, b: int) {
    exists i, j :: 0 <= i < j < |ops| && ops[i] == AddApply(a, b) && ops[j] == AuthApply(a, b)
  }

  lemma {:induction false} RowsTellTheRun(ops: seq<Statement>, a: int, b: int)
    ensures HasApply(Run(ops), a, b) <==> AddApply(a, b) in ops
    ensures HasFriend(Run(ops).friends, a, b) <==> AuthApply(a, b) in ops || AuthApply(b, a) in ops
    ensures IsAccepted(Run(ops), a, b) <==> AppliedThenAuthorised(ops, a, b)
  {
    if ops != [] {
      var init, op := ops[..|ops| - 1], ops[|ops| - 1];
      var db := Run(init);
      assert ops == init + [op];
      RowsTellTheRun(init, a, b);
      assert AppliedThenAuthorised(ops, a, b) <==>
             AppliedThenAuthorised(init, a, b) || (op == AuthApply(a, b) && AddApply(a, b) in init) by {
        if AppliedThenAuthorised(init, a, b) {
          var i, j :| 0 <= i < j < |init| && init[i] == AddApply(a, b) && init[j] == AuthApply(a, b);
          assert ops[i] == AddApply(a, b) && ops[j] == AuthApply(a, b);
        }
        if op == AuthApply(a, b) && AddApply(a, b) in init {
          var i :| 0 <= i < |init| && init[i] == AddApply(a, b);
          assert ops[i] == AddApply(a, b) && ops[|init|] == AuthApply(a, b);
        }
      }
      match op
      case AddApply(x, y) => AddApplyRows(db, x, y);
      case AuthApply(x, y) =>
        AcceptRows(db, x, y);
        InsertFriendHas(db.friends, x, y);
        InsertFriendHas(InsertFriend(db.friends, x, y), y, x);
    }
  }

  /** The documentation promises that accepting sets the applicant's row to status 1.  The handler passes (approver,
      applicant) to a statement keyed on (applicant, approver), so after the acceptance the row has status 1 exactly
      when it already had it before; the only row the statement can set is the reverse one. */
  lemma AcceptanceOfTheApplicantsRow(db: Db, applicant: int, approver: int)
    requires applicant != approver
    ensures IsAccepted(Accept(db, approver, applicant), applicant, approver) <==> IsAccepted(db, applicant, approver)
    ensures HasApply(db, approver, applicant) ==> IsAccepted(Accept(db, approver, applicant), approver, applicant)
    ensures HasFriend(Accept(db, approver, applicant).friends, applicant, approver)
    ensures HasFriend(Accept(db, approver, applicant).friends, approver, applicant)
  {
    AcceptRows(db, approver, applicant);
    InsertFriendHas(db.friends, approver, applicant);
    InsertFriendHas(InsertFriend(db.friends, approver, applicant), applicant, approver);
  }

  /** The shortest run that shows it: 1 applies to 2, and 2 accepts. */
  lemma AcceptedApplicationStaysPending()
    ensures var db := Run([AddApply(1, 2), AuthApply(2, 1)]);
            HasApply(db, 1, 2) && !IsAccepted(db, 1, 2) && HasFriend(db.friends, 1, 2) && HasFriend(db.friends, 2, 1)
  {
    var ops := [AddApply(1, 2), AuthApply(2, 1)];
    RowsTellTheRun(ops, 1, 2);
    RowsTellTheRun(ops, 2, 1);
    assert ops[0] == AddApply(1, 2) && ops[1] == AuthApply(2, 1);
  }

  /** Running a statement again changes nothing more. */
  lemma StatementsAreIdempotent(db: Db, op: Statement)
    ensures Execute(Execute(db, op), op) == Execute(db, op)
  {
    match op
    case AddApply(a, b) => AddApplyRows(db, a, b);
    case AuthApply(a, b) =>
      var after := Accept(db, a, b);
      InsertFriendHas(db.friends, a, b);
      InsertFriendHas(InsertFriend(db.friends, a, b), b, a);
      assert SetAccepted(after.applies, a, b) == after.applies;
  }

  // ---------- The queries ----------

  datatype UserDetail = UserDetail(id: int, name: string)
  datatype ApplyInfo = ApplyInfo(status: nat, user: UserDetail)
  datatype FriendInfo = FriendInfo(back: string, user: UserDetail)

  /** friend_apply rows to `toUid`, joined with the user table. */
  function SelectApplies(applies: seq<ApplyRow>, users: map<int, string>, toUid: int): seq<ApplyRow> {
    if applies == [] then []
    else
      var last := applies[|applies| - 1];
      SelectApplies(applies[..|applies| - 1], users, toUid) + if last.toUid == toUid && last.fromUid in users then [last] else []
  }

  /** friend rows of `selfId`, joined with the user table. */
  function SelectFriends(friends: seq<FriendRow>, users: map<int, string>, selfId: int): seq<FriendRow> {
    if friends == [] then []
    else
      var last := friends[|friends| - 1];
      SelectFriends(friends[..|friends| - 1], users, selfId) + if last.selfId == selfId && last.friendId in users then [last] else []
  }

  function BackOf(row: FriendRow): string {
    if row.back.Some? then row.back.value else ""
  }

  lemma {:induction false} SelectFriendsFinds(friends: seq<FriendRow>, users: map<int, string>, selfId: int, row: FriendRow)
    ensures row in SelectFriends(friends, users, selfId) <==>
            row in friends && row.selfId == selfId && row.friendId in users
  {
    if friends != [] {
      assert friends == friends[..|friends| - 1] + [friends[|friends| - 1]];
      SelectFriendsFinds(friends[..|friends| - 1], users, selfId, row);
    }
  }

  lemma {:induction false} SelectAppliesFinds(applies: seq<ApplyRow>, users: map<int, string>, toUid: int, row: ApplyRow)
    ensures row in SelectApplies(applies, users, toUid) <==>
            row in applies && row.toUid == toUid && row.fromUid in users
  {
    if applies != [] {
      assert applies == applies[..|applies| - 1] + [applies[|applies| - 1]];
      SelectAppliesFinds(applies[..|applies| - 1], users, toUid, row);
    }
  }

  /** `at` lists, in order and each once, the positions of the friend rows of `selfId` whose friend exists. */
  ghost predicate FriendRowsAt(friends: seq<FriendRow>, users: map<int, string>, selfId: int, at: seq<nat>) {
    && (forall j, k :: 0 <= j < k < |at| ==> at[j] < at[k])
    && (forall k :: 0 <= k < |at| ==> at[k] < |friends| && friends[at[k]].selfId == selfId && friends[at[k]].friendId in users)
    && (forall i :: 0 <= i < |friends| && friends[i].selfId == selfId && friends[i].friendId in users ==> i in at)
  }

  /** `at` lists, in order and each once, the positions of the applications to `toUid` whose applicant exists. */
  ghost predicate ApplyRowsAt(applies: seq<ApplyRow>, users: map<int, string>, toUid: int, at: seq<nat>) {
    && (forall j, k :: 0 <= j < k < |at| ==> at[j] < at[k])
    && (forall k :: 0 <= k < |at| ==> at[k] < |applies| && applies[at[k]].toUid == toUid && applies[at[k]].fromUid in users)
    && (forall i :: 0 <= i < |applies| && applies[i].toUid == toUid && applies[i].fromUid in users ==> i in at)
  }

  lemma {:induction false} SelectFriendsAt(friends: seq<FriendRow>, users: map<int, string>, selfId: int) returns (at: seq<nat>)
    ensures FriendRowsAt(friends, users, selfId, at)
    ensures var rows := SelectFriends(friends, users, selfId);
            |rows| == |at| && forall k :: 0 <= k < |at| ==> rows[k] == friends[at[k]]
  {
    if friends == [] {
      at := [];
    } else {
      var last := |friends| - 1;
      var init := friends[..last];
      at := SelectFriendsAt(init, users, selfId);
      if friends[last].selfId == selfId && friends[last].friendId in users {
        at := at + [last];
      }
    }
  }

  lemma {:induction false} SelectAppliesAt(applies: seq<ApplyRow>, users: map<int, string>, toUid: int) returns (at: seq<nat>)
    ensures ApplyRowsAt(applies, users, toUid, at)
    ensures var rows := SelectApplies(applies, users, toUid);
            |rows| == |at| && forall k :: 0 <= k < |at| ==> rows[k] == applies[at[k]]
  {
    if applies == [] {
      at := [];
    } else {
      var last := |applies| - 1;
      var init := applies[..last];
      at := SelectAppliesAt(init, users, toUid);
      if applies[last].toUid == toUid && applies[last].fromUid in users {
        at := at + [last];
      }
    }
  }

  ghost predicate Lists(db: Db, users: map<int, string>, a: int, b: int) {
    exists row :: row in SelectFriends(db.friends, users, a) && row.friendId == b
  }

  lemma ListsIsFriend(db: Db, users: map<int, string>, a: int, b: int)
    requires b in users
    ensures Lists(db, users, a, b) <==> HasFriend(db.friends, a, b)
  {
    if Lists(db, users, a, b) {
      var row :| row in SelectFriends(db.friends, users, a) && row.friendId == b;
      SelectFriendsFinds(db.friends, users, a, row);
    }
    if HasFriend(db.friends, a, b) {
      var i :| 0 <= i < |db.friends| && db.friends[i].selfId == a && db.friends[i].friendId == b;
      SelectFriendsFinds(db.friends, users, a, db.friends[i]);
    }
  }

  /** After any run two existing users list each other or neither does, and they do exactly when one of them accepted
      the other. */
  lemma FriendListsAreMutual(ops: seq<Statement>, users: map<int, string>, a: int, b: int)
    requires a in users && b in users
    ensures Lists(Run(ops), users, a, b) <==> Lists(Run(ops), users, b, a)
    ensures Lists(Run(ops), users, a, b) <==> AuthApply(a, b) in ops || AuthApply(b, a) in ops
  {
    ListsIsFriend(Run(ops), users, a, b);
    ListsIsFriend(Run(ops), users, b, a);
    RowsTellTheRun(ops, a, b);
    RowsTellTheRun(ops, b, a);
  }

  /** The repositories: the tables as the statements change them. */
  class FriendRepo {
    var db: Db
    var users: map<int, string>

    constructor ()
      ensures db == EMPTY && users == map[]
    {
      db, users := EMPTY, map[];
    }

    method AddFriendApply(fromUid: int, toUid: int)
      modifies this`db
      ensures db == Execute(old(db), AddApply(fromUid, toUid))
    {
      if !HasApply(db, fromUid, toUid) {
        db := db.(applies := db.applies + [ApplyRow(fromUid, toUid, 0)]);
      }
    }

    method AuthFriendApply(fromUid: int, toUid: int)
      modifies this`db
      ensures db == Execute(old(db), AuthApply(fromUid, toUid))
    {
      db := db.(applies := SetAccepted(db.applies, fromUid, toUid));
      db := db.(friends := InsertFriend(db.friends, fromUid, toUid));
      db := db.(friends := InsertFriend(db.friends, toUid, fromUid));
    }

    method GetFriendApplies(toUid: int) returns (list: seq<ApplyInfo>)
      ensures exists at :: ApplyRowsAt(db.applies, users, toUid, at) && |list| == |at| &&
                forall k :: 0 <= k < |at| ==>
                  var row := db.applies[at[k]];
                  list[k] == ApplyInfo(row.status, UserDetail(row.fromUid, users[row.fromUid]))
    {
      var rows := SelectApplies(db.applies, users, toUid);
      list := [];
      for i := 0 to |rows|
        invariant |list| == i
        invariant forall k :: 0 <= k < i ==>
                    && rows[k].fromUid in users
                    && list[k] == ApplyInfo(rows[k].status, UserDetail(rows[k].fromUid, users[rows[k].fromUid]))
      {
        SelectAppliesFinds(db.applies, users, toUid, rows[i]);
        list := list + [ApplyInfo(rows[i].status, UserDetail(rows[i].fromUid, users[rows[i].fromUid]))];
      }
      ghost var at := SelectAppliesAt(db.applies, users, toUid);
    }

    method GetFriends(selfId: int) returns (list: seq<FriendInfo>)
      ensures exists at :: FriendRowsAt(db.friends, users, selfId, at) && |list| == |at| &&
                forall k :: 0 <= k < |at| ==>
                  var row := db.friends[at[k]];
                  && list[k].user == UserDetail(row.friendId, users[row.friendId])
                  && list[k].back == if row.back == None then "" else row.back.value
    {
      var rows := SelectFriends(db.friends, users, selfId);
      list := [];
      for i := 0 to |rows|
        invariant |list| == i
        invariant forall k :: 0 <= k < i ==>
                    && rows[k].friendId in users
                    && list[k] == FriendInfo(BackOf(rows[k]), UserDetail(rows[k].friendId, users[rows[k].friendId]))
      {
        SelectFriendsFinds(db.friends, users, selfId, rows[i]);
        list := list + [FriendInfo(BackOf(rows[i]), UserDetail(rows[i].friendId, users[rows[i].friendId]))];
      }
      ghost var at := SelectFriendsAt(db.friends, users, selfId);
    }
  }
}
