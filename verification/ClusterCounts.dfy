/** The login counts that the chat servers write, and that the status server chooses by. */
module ClusterCounts {
  import opened Wrappers
  import opened Framing
  import opened Protocol
  import opened Sessions
  import opened SessionInvariants
  import opened Cluster
  import opened ClusterInvariants
  import opened ClusterSteps
  import opened ClusterShapes
  import opened ClusterTokens
  import opened ClusterProgress
  import opened ClusterDelivery
  import opened ClusterWitnesses
  import opened ClusterStrangers
  import Allocator

  // ---------- Where a count comes from ----------

  /** Step g of the run was the return of a login's user lookup on server x, which then had `n` participants. */
  ghost predicate Counted(c: Codec, run: seq<Action>, g: nat, x: ServerId, n: nat) {
    && g < |run| && run[g].Resume? && run[g].choice.Found? && Legal(c, run[..g])
    && run[g].session < |After(c, run[..g]).sessions|
    && After(c, run[..g]).sessions[run[g].session].home == x
    && After(c, run[..g]).sessions[run[g].session].pc.UserLookup?
    && n == |After(c, run[..g]).participants.Of(x)| % 0x1_0000_0000
  }

  ghost predicate WasCounted(c: Codec, run: seq<Action>, x: ServerId, n: nat) {
    exists g: nat :: Counted(c, run, g, x, n)
  }

  /** Every entry of the hash, and every entry about to be written, was counted. */
  ghost predicate CountsFit(c: Codec, run: seq<Action>, st: State) {
    && (forall name :: name in st.loginCount ==> IsServerName(name))
    && (forall x: ServerId :: x.Name() in st.loginCount ==> WasCounted(c, run, x, st.loginCount[x.Name()]))
    && (forall i :: 0 <= i < |st.sessions| && st.sessions[i].pc.CountSet? ==>
          WasCounted(c, run, st.sessions[i].home, st.sessions[i].pc.count))
  }

  lemma CountedStays(c: Codec, run: seq<Action>, a: Action, x: ServerId, n: nat)
    requires WasCounted(c, run, x, n)
    ensures WasCounted(c, run + [a], x, n)
  {
    hide Legal, After;
    var g: nat :| Counted(c, run, g, x, n);
    assert (run + [a])[..g] == run[..g];
    assert Counted(c, run + [a], g, x, n);
  }

  lemma ContinueCounts(c: Codec, s: Session, count: nat, choice: Choice)
    requires Resumable(s.pc)
    ensures var next := Continue(c, s, count, choice);
            && (next.Await? && next.session.pc.CountSet? ==> s.pc.UserLookup? && choice.Found? && next.session.pc.count == count)
            && (next.Await? || next.Answer? ==> next.session.home == s.home)
  {
    hide CString, ErrorReply, ErrorAndClose, EmptyReply, TextReply, EnumCast;
  }

  lemma ResumeCounts(c: Codec, st: State, i: nat, choice: Choice, target: Option<nat>)
    requires Enabled(c, st, Resume(i, choice, target))
    ensures var s, r := st.sessions[i], ApplyResume(c, st, i, choice, target);
            && i < |r.sessions|
            && (r.sessions[i].pc.CountSet? ==>
                  && s.pc.UserLookup? && choice.Found? && r.sessions[i].home == s.home
                  && r.sessions[i].pc.count == AsUint32(|st.participants.Of(s.home)|))
  {
    hide Continue, ErrorReply, Notify, ApplyResume, Finish;
    var s := st.sessions[i];
    ContinueCounts(c, s, AsUint32(|st.participants.Of(s.home)|), choice);
    match ResumeOf(c, st, i, choice)
    case Await(_) => AwaitApplies(c, st, i, choice, target);
    case Answer(t, reply) =>
      AnswerApplies(c, st, i, choice, target);
      FinishIsIdle(t, reply);
    case NotifyPeer(_) => PeerApplies(c, st, i, choice, target);
    case NotifyHere(n) =>
      HereApplies(c, st, i, choice, target);
      FinishIsIdle(Notify(c, st, i, Local, n, target).sessions[i], ErrorReply(c, Code(ResponseId(RequestId(n))), Success));
  }

  lemma FinishIsIdle(s: Session, reply: Message)
    ensures Finish(s, reply).pc == Idle
  {
  }

  /** A session gets to write a count only when its user lookup returns. */
  lemma StepCounts(c: Codec, st: State, a: Action, i: nat)
    requires Enabled(c, st, a) && i < |st.sessions|
    ensures i < |Apply(c, st, a).sessions|
    ensures var s, t := st.sessions[i], Apply(c, st, a).sessions[i];
            t.pc.CountSet? ==>
              || (t.pc == s.pc && t.home == s.home)
              || (&& a.Resume? && a.session == i && s.pc.UserLookup? && a.choice.Found? && t.home == s.home
                  && t.pc.count == AsUint32(|st.participants.Of(s.home)|))
  {
    hide Execute, ApplyResume, Finish, Notify, ErrorReply, MayFind, Moved, CanMove;
    if !Concerns(a, i) {
      OthersKeepPc(c, st, a, i);
      hide Apply, Enabled;
    } else if a.Exec? {
      ExecShape(st, i, a.fault);
    } else if a.Resume? {
      ResumeCounts(c, st, i, a.choice, a.target);
    } else if IsMove(a) {
      MoveShape(c, st, a);
      MovedKeepsPc(st.sessions[i], a);
      hide Apply, Enabled;
    } else if a.RpcReturn? {
      FinishIsIdle(st.sessions[i], ErrorReply(c, CurrentId(st.sessions[i]), RPCFailed));
      FinishIsIdle(st.sessions[i], ErrorReply(c, Code(ResponseId(RequestId(st.sessions[i].pc.notice))), Success));
    }
  }

  lemma MovedKeepsPc(s: Session, a: Action)
    requires IsMove(a) && CanMove(s, a)
    ensures Moved(s, a).home == s.home && (Moved(s, a).pc.CountSet? ==> Moved(s, a).pc == s.pc)
  {
    hide Encode;
  }

  lemma HashStep(c: Codec, st: State, a: Action)
    requires Enabled(c, st, a)
    ensures Apply(c, st, a).loginCount ==
            if a.Exec? && !a.fault && st.sessions[a.session].pc.CountSet?
            then st.loginCount[st.sessions[a.session].home.Name() := st.sessions[a.session].pc.count] else st.loginCount
  {
    hide Finish, Continue, Deliver, StartReceive, Send, WriteDone, WriteFail, DeadlineResume, ReadFail, MayFind, ErrorReply;
    if IsMove(a) {
      MoveShape(c, st, a);
      hide Apply, Enabled;
    }
  }

  lemma StepCountsFit(c: Codec, run: seq<Action>, a: Action)
    requires Legal(c, run) && Enabled(c, After(c, run), a) && CountsFit(c, run, After(c, run))
    ensures CountsFit(c, run + [a], Apply(c, After(c, run), a))
  {
    hide Legal, After, Apply, Enabled, WasCounted;
    var st := After(c, run);
    var t := Apply(c, st, a);
    HashStep(c, st, a);
    NewSessionStep(c, st, a);
    if a.Exec? {
      ExecIsEnabled(c, st, a);
    }
    forall x: ServerId | x.Name() in t.loginCount ensures WasCounted(c, run + [a], x, t.loginCount[x.Name()]) {
      if x.Name() in st.loginCount && t.loginCount[x.Name()] == st.loginCount[x.Name()] {
        CountedStays(c, run, a, x, st.loginCount[x.Name()]);
      } else {
        CountedStays(c, run, a, st.sessions[a.session].home, st.sessions[a.session].pc.count);
      }
    }
    forall i | 0 <= i < |t.sessions| && t.sessions[i].pc.CountSet? ensures WasCounted(c, run + [a], t.sessions[i].home, t.sessions[i].pc.count) {
      if i < |st.sessions| {
        StepCounts(c, st, a, i);
        if t.sessions[i].pc == st.sessions[i].pc {
          CountedStays(c, run, a, st.sessions[i].home, st.sessions[i].pc.count);
        } else {
          NewlyCounted(c, run, a, i, t.sessions[i].pc.count);
        }
      }
    }
  }

  lemma ExecIsEnabled(c: Codec, st: State, a: Action)
    requires Enabled(c, st, a) && a.Exec?
    ensures a.session < |st.sessions|
  {
  }

  lemma NewlyCounted(c: Codec, run: seq<Action>, a: Action, i: nat, n: nat)
    requires Legal(c, run) && i < |After(c, run).sessions| && a.Resume? && a.session == i && a.choice.Found?
    requires var s := After(c, run).sessions[i]; s.pc.UserLookup? && n == AsUint32(|After(c, run).participants.Of(s.home)|)
    ensures WasCounted(c, run + [a], After(c, run).sessions[i].home, n)
  {
    hide Legal, After;
    assert (run + [a])[..|run|] == run;
    assert Counted(c, run + [a], |run|, After(c, run).sessions[i].home, n);
  }

  /** In every run each entry of the hash is under a server's name and is the number of participants which that server had
      when the user lookup of one of its logins returned. */
  lemma {:induction false} EveryCountWasCounted(c: Codec, run: seq<Action>)
    requires Legal(c, run)
    ensures CountsFit(c, run, After(c, run))
  {
    hide Apply, Enabled, WasCounted;
    if run != [] {
      var init, a := run[..|run| - 1], run[|run| - 1];
      assert run == init + [a];
      EveryCountWasCounted(c, init);
      StepCountsFit(c, init, a);
    }
  }

  // ---------- The allocator's rounds ----------

  const SERVERS: seq<string> := ["chat_server1", "chat_server2"]

  function ServerAt(k: nat): ServerId { if k == 0 then Server1 else Server2 }

  /** The cluster stands as after these rounds of the allocator. */
  ghost predicate StandsAfter(st: State, chosen: seq<nat>)
    requires forall k :: 0 <= k < |chosen| ==> chosen[k] < 2
  {
    && st.blocked == PerServer(None, None)
    && st.loginCount.Keys == Allocator.Counts(SERVERS, chosen).Keys
    && (forall name :: name in st.loginCount ==> st.loginCount[name] == Allocator.Counts(SERVERS, chosen)[name])
    && (forall k: nat :: k < 2 ==> |st.participants.Of(ServerAt(k))| == Allocator.Load(chosen, k))
  }

  lemma OneRound(c: Codec, st: State, chosen: seq<nat>, k: nat, uid: int, token: Text, f: Frame) returns (acts: seq<Action>)
    requires Inv(c, st) && k < 2 && (forall m :: 0 <= m < |chosen| ==> chosen[m] < 2) && StandsAfter(st, chosen)
    requires IsInt32(uid) && SaysLogin(c, f, uid, token)
    ensures Runs(c, st, acts) && StandsAfter(Final(c, st, acts), chosen + [k])
  {
    hide Inv, Apply, Enabled, Runs, Final, CString;
    var x := ServerAt(k);
    acts := LogsIn(c, st, x, uid, token, f);
    var r := Final(c, st, acts);
    assert (chosen + [k])[..|chosen|] == chosen;
    NewIsNobody(c, st, x);
    var more := st.participants.Of(x) + {|st.sessions|};
    assert r.participants.Of(x) == more && r.participants.Of(x.Peer()) == st.participants.Of(x.Peer());
    assert SERVERS[k] == x.Name();
    forall j: nat | j < 2 ensures |r.participants.Of(ServerAt(j))| == Allocator.Load(chosen + [k], j) {
    }
  }

  lemma NewIsNobody(c: Codec, st: State, x: ServerId)
    requires Inv(c, st)
    ensures |st.participants.Of(x) + {|st.sessions|}| == |st.participants.Of(x)| + 1
  {
    hide SessionsInv;
    assert |st.sessions| !in st.participants.Of(x);
  }

  lemma NoRoundYet(c: Codec)
    ensures Legal(c, []) && StandsAfter(After(c, []), [])
  {
    hide Apply, Enabled;
    assert After(c, []) == INIT;
    assert forall x: ServerId :: INIT.participants.Of(x) == {};
  }

  /** Whatever servers the sessions are sent to, one after the other, the two servers can carry it out: then the hash is the
      one the allocator reckons with, and each server holds the participants it reckons with. */
  lemma {:induction false} RoundsInTheCluster(c: Codec, chosen: seq<nat>, uid: int, token: Text, f: Frame) returns (run: seq<Action>)
    requires forall m :: 0 <= m < |chosen| ==> chosen[m] < 2
    requires IsInt32(uid) && SaysLogin(c, f, uid, token)
    ensures Legal(c, run) && StandsAfter(After(c, run), chosen)
  {
    hide Inv, Apply, Enabled, Legal, After, StandsAfter;
    if chosen == [] {
      NoRoundYet(c);
      run := [];
    } else {
      var earlier := chosen[..|chosen| - 1];
      var before := RoundsInTheCluster(c, earlier, uid, token, f);
      RunKeepsInv(c, before);
      var acts := OneRound(c, After(c, before), earlier, chosen[|chosen| - 1], uid, token, f);
      assert earlier + [chosen[|chosen| - 1]] == chosen;
      RunsAreLegal(c, before, acts);
      run := before + acts;
    }
  }

  /** So with the allocator's own choices, each chat server then holds the floor or the ceiling of half the sessions. */
  lemma ClusterIsBalanced(c: Codec, chosen: seq<nat>, uid: int, token: Text, f: Frame) returns (run: seq<Action>)
    requires Allocator.Rounds(SERVERS, chosen) && |chosen| <= 2 * Allocator.UINT32_MAX + 1
    requires IsInt32(uid) && SaysLogin(c, f, uid, token)
    ensures Legal(c, run)
    ensures forall x: ServerId :: |chosen| / 2 <= |After(c, run).participants.Of(x)| <= (|chosen| + 1) / 2
  {
    hide Legal, After;
    Allocator.RoundsInRange(SERVERS, chosen);
    run := RoundsInTheCluster(c, chosen, uid, token, f);
    assert SERVERS[0] != SERVERS[1];
    Allocator.RoundsBalance(SERVERS, chosen);
    assert ServerAt(0) == Server1 && ServerAt(1) == Server2;
  }
}
