/** Where a matched uid comes from: a login request whose token was the one last issued when Redis was asked for it. */
module ClusterTokens {
  import opened Wrappers
  import opened Framing
  import opened Protocol
  import opened Sessions
  import opened SessionInvariants
  import opened Cluster
  import opened ClusterInvariants
  import opened ClusterSteps
  import opened ClusterShapes

  /** The token that the status server wrote last for this uid. */
  function LastIssued(run: seq<Action>, uid: int): Option<Text> {
    if run == [] then None
    else
      var a := run[|run| - 1];
      if a.IssueToken? && a.uid == uid then Some(a.token) else LastIssued(run[..|run| - 1], uid)
  }

  lemma TokensStep(c: Codec, st: State, a: Action)
    requires Enabled(c, st, a)
    ensures Apply(c, st, a).tokens == if a.IssueToken? then st.tokens[a.uid := a.token] else st.tokens
  {
    hide Finish, Continue, Deliver, StartReceive, Send, WriteDone, WriteFail, DeadlineResume, ReadFail, Execute, MayFind;
    if a.Exec? {
      ExecShape(st, a.session, a.fault);
    } else if IsMove(a) {
      MoveShape(c, st, a);
      hide Apply, Enabled;
    }
  }

  /** Redis holds exactly the tokens last issued. */
  lemma {:induction false} TokensAreIssued(c: Codec, run: seq<Action>, uid: int)
    requires Legal(c, run)
    ensures var tokens := After(c, run).tokens;
            LastIssued(run, uid) == if uid in tokens then Some(tokens[uid]) else None
  {
    hide Apply, Enabled;
    if run != [] {
      TokensAreIssued(c, run[..|run| - 1], uid);
      TokensStep(c, After(c, run[..|run| - 1]), run[|run| - 1]);
    }
  }

  /** Step `g` of the run was the execution of session i's GET for its request number `q`, a login of `uid`, and `token`
      was then the one last issued for `uid`. */
  ghost predicate Fetched(c: Codec, run: seq<Action>, g: nat, i: nat, q: nat, uid: int, token: Text) {
    && g < |run| && run[g] == Exec(i, false) && Legal(c, run[..g])
    && i < |After(c, run[..g]).sessions|
    && var s := After(c, run[..g]).sessions[i];
       && s.pc.TokenGet? && s.pc.uid == uid && |s.requests| == q + 1
       && LastIssued(run[..g], uid) == Some(token)
  }

  ghost predicate SomeFetch(c: Codec, run: seq<Action>, i: nat, q: nat, uid: int, token: Text) {
    exists g: nat :: Fetched(c, run, g, i, q, uid, token)
  }

  /** Request number `q` of session i was a login, and it presented the token that was the last one issued for its uid when
      its GET was executed. */
  ghost predicate Checked(c: Codec, run: seq<Action>, i: nat, q: nat, r: Request) {
    LoginOf(c, r).Some? && SomeFetch(c, run, i, q, LoginOf(c, r).value.uid, LoginOf(c, r).value.token)
  }

  /** One of the first `bound` requests of session i was such a login of `uid`. */
  ghost predicate TokenProven(c: Codec, run: seq<Action>, i: nat, uid: int, bound: nat)
    requires Legal(c, run) && i < |After(c, run).sessions|
  {
    var requests := After(c, run).sessions[i].requests;
    exists q: nat :: q < bound && q < |requests| && Checked(c, run, i, q, requests[q]) && LoginOf(c, requests[q]).value.uid == uid
  }

  lemma FetchStays(c: Codec, run: seq<Action>, a: Action, i: nat, q: nat, uid: int, token: Text)
    requires SomeFetch(c, run, i, q, uid, token)
    ensures SomeFetch(c, run + [a], i, q, uid, token)
  {
    hide Legal, After, LastIssued;
    var g: nat :| Fetched(c, run, g, i, q, uid, token);
    assert (run + [a])[..g] == run[..g];
    assert Fetched(c, run + [a], g, i, q, uid, token);
  }

  lemma CheckedStays(c: Codec, run: seq<Action>, a: Action, i: nat, q: nat, r: Request)
    requires Checked(c, run, i, q, r)
    ensures Checked(c, run + [a], i, q, r)
  {
    hide SomeFetch, LoginOf;
    FetchStays(c, run, a, i, q, LoginOf(c, r).value.uid, LoginOf(c, r).value.token);
  }

  /** What is known of session i: every login that passed was checked, and an answered GET was a fetch. */
  ghost predicate Evident(c: Codec, run: seq<Action>, i: nat, s: Session) {
    && (forall q :: q in s.logins ==> q < |s.requests| && Checked(c, run, i, q, s.requests[q]))
    && (s.pc.TokenGot? && s.pc.stored.Some? ==>
          s.requests != [] && SomeFetch(c, run, i, |s.requests| - 1, s.pc.uid, s.pc.stored.value))
  }

  lemma SameLoginsStayEvident(c: Codec, run: seq<Action>, a: Action, i: nat, s: Session, t: Session)
    requires Evident(c, run, i, s)
    requires t.logins == s.logins && t.requests == s.requests && (t.pc.TokenGot? ==> t.pc == s.pc)
    ensures Evident(c, run + [a], i, t)
  {
    hide Checked, SomeFetch;
    forall q | q in t.logins ensures Checked(c, run + [a], i, q, t.requests[q]) {
      CheckedStays(c, run, a, i, q, s.requests[q]);
    }
    if t.pc.TokenGot? && t.pc.stored.Some? {
      FetchStays(c, run, a, i, |s.requests| - 1, s.pc.uid, s.pc.stored.value);
    }
  }

  lemma ExecIsEvident(c: Codec, run: seq<Action>, fault: bool, i: nat)
    requires Legal(c, run) && i < |After(c, run).sessions|
    requires var s := After(c, run).sessions[i]; NeedsStore(s.pc) && Evident(c, run, i, s) && ReaderInv(c, s)
    ensures var s := After(c, run).sessions[i];
            Evident(c, run + [Exec(i, fault)], i, s.(pc := PcAfterExec(After(c, run), s, fault)))
  {
    hide Checked, Apply, Enabled, AskedBy, Legal, LoginOf;
    var st, s, a := After(c, run), After(c, run).sessions[i], Exec(i, fault);
    var t := s.(pc := PcAfterExec(st, s, fault));
    if s.pc.TokenGet? {
      forall q | q in t.logins ensures Checked(c, run + [a], i, q, t.requests[q]) {
        CheckedStays(c, run, a, i, q, s.requests[q]);
      }
      if t.pc.stored.Some? {
        assert s.requests != [];
        TokensAreIssued(c, run, s.pc.uid);
        assert (run + [a])[..|run|] == run;
        assert Fetched(c, run + [a], |run|, i, |s.requests| - 1, s.pc.uid, t.pc.stored.value);
      }
    } else {
      SameLoginsStayEvident(c, run, a, i, s, t);
    }
  }

  lemma ResumeIsEvident(c: Codec, run: seq<Action>, a: Action, i: nat, s: Session, t: Session)
    requires Evident(c, run, i, s) && ReaderInv(c, s) && LoginsInv(s) && Resumed(s, t)
    ensures Evident(c, run + [a], i, t)
  {
    hide Checked, SomeFetch, LoginOf, AskedBy;
    assert s.requests <= t.requests;
    forall q | q in t.logins ensures q < |t.requests| && Checked(c, run + [a], i, q, t.requests[q]) {
      if q in s.logins {
        assert t.requests[q] == s.requests[q];
        CheckedStays(c, run, a, i, q, s.requests[q]);
      } else {
        assert s.pc.TokenGot? && s.pc.stored == Some(s.pc.token);
        assert Checked(c, run, i, q, s.requests[q]) by { TokenGotIsChecked(c, run, i, s); }
        CheckedStays(c, run, a, i, q, s.requests[q]);
      }
    }
  }

  lemma TokenGotIsChecked(c: Codec, run: seq<Action>, i: nat, s: Session)
    requires Evident(c, run, i, s) && ReaderInv(c, s)
    requires s.pc.TokenGot? && s.pc.stored == Some(s.pc.token)
    ensures s.requests != [] && Checked(c, run, i, |s.requests| - 1, s.requests[|s.requests| - 1])
  {
    hide SomeFetch;
  }

  lemma LoginsOfSession(c: Codec, s: Session)
    requires SessionInv(c, s)
    ensures LoginsInv(s) && ReaderInv(c, s)
  {
    hide OutboxOk, RepliesOk, AuthOk, ReaderOk, GateOk, LoginsOk;
  }

  lemma StepIsEvident(c: Codec, run: seq<Action>, a: Action, i: nat)
    requires Legal(c, run) && Enabled(c, After(c, run), a) && i < |After(c, run).sessions|
    requires Evident(c, run, i, After(c, run).sessions[i]) && SessionInv(c, After(c, run).sessions[i])
    ensures i < |Apply(c, After(c, run), a).sessions| && Evident(c, run + [a], i, Apply(c, After(c, run), a).sessions[i])
  {
    hide SessionInv, Evident, Apply, Enabled, Resumed, Moved, CanMove, PcAfterExec, ReaderInv, LoginsInv, Legal;
    var st := After(c, run);
    var s := st.sessions[i];
    StepShape(c, st, a, i);
    LoginsOfSession(c, s);
    var t := Apply(c, st, a).sessions[i];
    if Kept(s, t) {
      SameLoginsStayEvident(c, run, a, i, s, t);
    } else if a.Exec? {
      ExecIsEvident(c, run, a.fault, i);
    } else if IsMove(a) {
      MovedMeans(s, a);
      SameLoginsStayEvident(c, run, a, i, s, t);
    } else {
      ResumeIsEvident(c, run, a, i, s, t);
    }
  }

  lemma NewSessionStep(c: Codec, st: State, a: Action)
    requires Enabled(c, st, a)
    ensures var r := Apply(c, st, a);
            |r.sessions| == |st.sessions| ||
            (|r.sessions| == |st.sessions| + 1 && a.Connect? && r.sessions[|st.sessions|] == NewSession(a.server, a.memory))
  {
    hide Finish, Continue, Deliver, StartReceive, Send, WriteDone, WriteFail, DeadlineResume, ReadFail, Execute, MayFind;
    if a.Exec? {
      ExecShape(st, a.session, a.fault);
    }
  }

  lemma {:induction false} RunIsEvident(c: Codec, run: seq<Action>, i: nat)
    requires Legal(c, run) && i < |After(c, run).sessions|
    ensures Evident(c, run, i, After(c, run).sessions[i])
  {
    hide Apply, Enabled, Evident, SessionInv, Inv;
    if run != [] {
      var init, a := run[..|run| - 1], run[|run| - 1];
      assert run == init + [a];
      NewSessionStep(c, After(c, init), a);
      if i < |After(c, init).sessions| {
        RunIsEvident(c, init, i);
        RunKeepsInv(c, init);
        SessionOfInv(c, After(c, init), i);
        StepIsEvident(c, init, a, i);
      } else {
        NewIsEvident(c, run, i, a.server, a.memory);
      }
    }
  }

  lemma NewIsEvident(c: Codec, run: seq<Action>, i: nat, server: ServerId, memory: int)
    ensures Evident(c, run, i, NewSession(server, memory))
  {
  }

  lemma ProvenIsMatched(c: Codec, run: seq<Action>, i: nat, uid: int, bound: nat)
    requires Legal(c, run) && i < |After(c, run).sessions|
    requires Proven(c, After(c, run).sessions[i].requests, After(c, run).sessions[i].logins, uid, bound)
    ensures TokenProven(c, run, i, uid, bound)
  {
    hide Apply, Enabled, Checked, Legal, After, LoginOf;
    RunIsEvident(c, run, i);
    var s := After(c, run).sessions[i];
    var q :| q in s.logins && q < bound && q < |s.requests| && LoginOf(c, s.requests[q]).Some? && LoginOf(c, s.requests[q]).value.uid == uid;
    assert Checked(c, run, i, q, s.requests[q]);
  }

  /** In every run, a uid counts as matched on a session only if one of the session's own requests was a login of that uid
      that presented the token which was the last one issued for it when Redis executed the GET. */
  lemma MatchNeedsTheToken(c: Codec, run: seq<Action>, i: nat, uid: int)
    requires Legal(c, run) && i < |After(c, run).sessions| && uid in After(c, run).sessions[i].matched
    ensures TokenProven(c, run, i, uid, |After(c, run).sessions[i].requests|)
  {
    hide Inv, SessionInv, Apply, Enabled, Legal, After, Proven, TokenProven;
    RunKeepsInv(c, run);
    SessionOfInv(c, After(c, run), i);
    GateOfSession(c, After(c, run).sessions[i]);
    ProvenIsMatched(c, run, i, uid, |After(c, run).sessions[i].requests|);
  }

  lemma GateOfSession(c: Codec, s: Session)
    requires SessionInv(c, s)
    ensures GateInv(c, s)
  {
    hide OutboxOk, RepliesOk, AuthOk, ReaderOk, GateOk, LoginsOk;
  }
}
