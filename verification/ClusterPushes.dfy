/** What the notifications of a run tell, in terms of the requests that caused them. */
module ClusterPushes {
  import opened Wrappers
  import opened Framing
  import opened Protocol
  import opened Sessions
  import opened SessionInvariants
  import opened Cluster
  import opened ClusterInvariants
  import opened ClusterSteps
  import opened ClusterShapes
  import opened ClusterTokens
  import opened ClusterTheorems
  import opened ClusterDelivery
  import opened ClusterReplies

  // ---------- Whose notifications a step offers ----------

  /** The notice that this step hands to get_participant. */
  function HandedOver(c: Codec, st: State, a: Action): Option<Notice> {
    match a
    case RpcExec(i, _) => if i < |st.sessions| && st.sessions[i].pc.Calling? then Some(st.sessions[i].pc.notice) else None
    case Resume(i, choice, _) =>
      if i < |st.sessions| && Resumable(st.sessions[i].pc) && ResumeOf(c, st, i, choice).NotifyHere?
      then Some(ResumeOf(c, st, i, choice).notice) else None
    case _ => None
  }

  /** The new notifications are of notice `n`, by request q of session i. */
  ghost predicate NewPushesBy(offered: seq<Offer>, later: seq<Offer>, i: nat, q: nat, n: Option<Notice>) {
    && offered <= later
    && forall k :: |offered| <= k < |later| && later[k].cause.Push? ==>
         later[k].cause.sender == i && later[k].cause.index == q && n == Some(later[k].cause.notice)
  }

  lemma NotifyPushesBy(c: Codec, st: State, j: nat, route: Route, n: Notice, target: Option<nat>, r: nat)
    requires j < |st.sessions| && r < |st.sessions| && (target.Some? ==> target.value < |st.sessions|)
    ensures NewPushesBy(st.sessions[r].offered, Notify(c, st, j, route, n, target).sessions[r].offered, j,
                        Current(st.sessions[j]), Some(n))
  {
    hide PushMessage, HasRoom;
  }

  lemma FinishPushesBy(s: Session, offered: seq<Offer>, reply: Message, i: nat, q: nat, n: Option<Notice>)
    requires NewPushesBy(offered, s.offered, i, q, n)
    ensures NewPushesBy(offered, Finish(s, reply).offered, i, q, n)
  {
  }

  lemma ContinueOffersNothing(c: Codec, s: Session, count: nat, choice: Choice)
    requires Resumable(s.pc)
    ensures var next := Continue(c, s, count, choice); next.Await? || next.Answer? ==> next.session.offered == s.offered
  {
    hide CString, ConstructedBody, EnumCast;
  }

  lemma ResumePushesBy(c: Codec, st: State, i: nat, choice: Choice, target: Option<nat>, r: nat)
    requires Enabled(c, st, Resume(i, choice, target)) && r < |st.sessions|
    ensures r < |ApplyResume(c, st, i, choice, target).sessions|
    ensures NewPushesBy(st.sessions[r].offered, ApplyResume(c, st, i, choice, target).sessions[r].offered, i,
                        Current(st.sessions[i]), HandedOver(c, st, Resume(i, choice, target)))
  {
    hide Continue, Finish, Notify, ErrorReply, MayFind;
    ContinueOffersNothing(c, st.sessions[i], AsUint32(|st.participants.Of(st.sessions[i].home)|), choice);
    var q, handed := Current(st.sessions[i]), HandedOver(c, st, Resume(i, choice, target));
    match ResumeOf(c, st, i, choice)
    case Await(t) =>
    case Answer(t, reply) => FinishPushesBy(t, st.sessions[i].offered, reply, i, q, handed);
    case NotifyPeer(n) =>
    case NotifyHere(n) =>
      FoundIsSession(st, st.sessions[i].home, n.to, target);
      NotifyPushesBy(c, st, i, Local, n, target, r);
      FinishPushesBy(Notify(c, st, i, Local, n, target).sessions[r], st.sessions[r].offered,
                     ErrorReply(c, Code(ResponseId(RequestId(n))), Success), i, q, handed);
  }

  lemma RpcPushesBy(c: Codec, st: State, a: Action, r: nat)
    requires Enabled(c, st, a) && (a.RpcExec? || a.RpcFail? || a.RpcReturn?) && r < |st.sessions|
    ensures r < |Apply(c, st, a).sessions|
    ensures NewPushesBy(st.sessions[r].offered, Apply(c, st, a).sessions[r].offered, a.session,
                        Current(st.sessions[a.session]), HandedOver(c, st, a))
  {
    hide Finish, Notify, ErrorReply, MayFind;
    var i := a.session;
    var s := st.sessions[i];
    if a.RpcReturn? {
      FinishPushesBy(s, s.offered, ErrorReply(c, Code(ResponseId(RequestId(s.pc.notice))), Success), i, Current(s), None);
      FinishPushesBy(s, s.offered, ErrorReply(c, CurrentId(s), RPCFailed), i, Current(s), None);
    } else if a.RpcExec? {
      FoundIsSession(st, s.home.Peer(), AcrossRpc(s.pc.notice).to, a.target);
      NotifyPushesBy(c, st, i, Remote, s.pc.notice, a.target, r);
    }
  }

  /** Session r is offered a notification only by a step that hands a notice over, and then this one, by the request that the
      stepping session is handling. */
  lemma StepPushesBy(c: Codec, st: State, a: Action, r: nat)
    requires Enabled(c, st, a) && r < |st.sessions|
    ensures var t := Apply(c, st, a);
            && r < |t.sessions|
            && var handed := HandedOver(c, st, a);
               if handed.None? then NewPushesBy(st.sessions[r].offered, t.sessions[r].offered, 0, 0, None)
               else a.session < |st.sessions|
                    && NewPushesBy(st.sessions[r].offered, t.sessions[r].offered, a.session, Current(st.sessions[a.session]), handed)
  {
    hide ApplyResume, Execute, MayFind, ResumeOf, Finish, Notify, ErrorReply;
    if a.Resume? {
      ResumePushesBy(c, st, a.session, a.choice, a.target, r);
    } else if a.RpcExec? || a.RpcFail? || a.RpcReturn? {
      RpcPushesBy(c, st, a, r);
    } else if a.Exec? {
      ExecShape(st, a.session, a.fault);
    } else if IsMove(a) {
      MoveShape(c, st, a);
      MovedKeepsRecord(st.sessions[a.session], a);
      hide Apply, Enabled, Moved, CanMove;
    }
  }

  // ---------- The name in an application's notification ----------

  /** The name told of an application is the one that the user lookup of the same request found. */
  ghost predicate Named(c: Codec, run: seq<Action>, o: Offer)
    requires Legal(c, run)
  {
    o.cause.Push? && o.cause.notice.AddNotice? ==> [NameFound(o.cause.notice.name)] <= Trace(c, run, o.cause.sender, o.cause.index)
  }

  lemma NamedStays(c: Codec, run: seq<Action>, a: Action, o: Offer)
    requires Legal(c, run) && Enabled(c, After(c, run), a) && Named(c, run, o)
    ensures Legal(c, run + [a]) && Named(c, run + [a], o)
  {
    hide Apply, Enabled, Legal, After, Trace, OutcomeOf;
    TraceMore(c, run, a, 0, 0);
    if o.cause.Push? {
      TraceMore(c, run, a, o.cause.sender, o.cause.index);
    }
  }

  /** The notice handed over carries the name that was found. */
  lemma HandedOverIsNamed(c: Codec, run: seq<Action>, a: Action)
    requires Legal(c, run) && Enabled(c, After(c, run), a) && HandedOver(c, After(c, run), a).Some?
    ensures Legal(c, run + [a]) && a.session < |After(c, run).sessions|
    ensures var s := After(c, run).sessions[a.session];
            Trace(c, run + [a], a.session, Current(s)) == NameTrace(HandedOver(c, After(c, run), a).value)
  {
    hide Legal, After, Trace, OutcomeOf, TraceFits, Apply, ReplyFits, Inv, SessionInv, ReaderInv, ErrorReply, MayFind, Continue;
    var st := After(c, run);
    var i := a.session;
    var s := st.sessions[i];
    RunFits(c, run, i);
    RunKeepsInv(c, run);
    SessionOfInv(c, st, i);
    ReaderOfSession(c, s);
    TraceMore(c, run, a, i, Current(s));
    if a.RpcExec? {
      CallingMet(s.pc.notice, Trace(c, run, i, Current(s)));
      RpcExecMeetsNothing(s, a, i);
    } else {
      ArrivedHandsNothingOver(c, s, AsUint32(|st.participants.Of(s.home)|), a.choice);
      ContinueFits(c, s, AsUint32(|st.participants.Of(s.home)|), a.choice, a.target, i, Trace(c, run, i, |s.requests| - 1));
    }
  }

  lemma CallingMet(n: Notice, trace: seq<Outcome>)
    requires TraceFits(Calling(n), trace)
    ensures trace == NameTrace(n)
  {
  }

  lemma RpcExecMeetsNothing(s: Session, a: Action, i: nat)
    requires a.RpcExec?
    ensures OutcomeOf(s, a, i) == None
  {
  }

  lemma ArrivedHandsNothingOver(c: Codec, s: Session, count: nat, choice: Choice)
    requires Resumable(s.pc) && Continue(c, s, count, choice).NotifyHere?
    ensures !s.pc.Arrived?
  {
    hide CString, ConstructedBody, EnumCast;
  }

  lemma {:induction false} RunNames(c: Codec, run: seq<Action>, r: nat, k: nat)
    requires Legal(c, run) && r < |After(c, run).sessions| && k < |SessionAfter(c, run, r).offered|
    ensures Named(c, run, SessionAfter(c, run, r).offered[k])
  {
    hide Apply, Enabled, HandedOver, Trace;
    var init, a := run[..|run| - 1], run[|run| - 1];
    assert run == init + [a];
    var st := After(c, init);
    NewSessionStep(c, st, a);
    if r < |st.sessions| {
      StepPushesBy(c, st, a, r);
      if k < |st.sessions[r].offered| {
        RunNames(c, init, r, k);
        NamedStays(c, init, a, st.sessions[r].offered[k]);
      } else if SessionAfter(c, run, r).offered[k].cause.Push? {
        HandedOverIsNamed(c, init, a);
      }
    }
  }

  /** Every notification tells what its request asks for and goes to the uid asked for: a text with all its items, an
      acceptance of its two users, or an application under the name that the request's own user lookup returned. */
  lemma PushedContent(c: Codec, run: seq<Action>, r: nat, k: nat)
    requires Legal(c, run) && IsPush(c, run, r, k)
    ensures var o := SessionAfter(c, run, r).offered[k];
            var s, q := o.cause.sender, o.cause.index;
            && s < |After(c, run).sessions| && q < |SessionAfter(c, run, s).requests|
            && (o.cause.route == Local <==> SessionAfter(c, run, r).home == SessionAfter(c, run, s).home)
            && var f := SessionAfter(c, run, s).requests[q].frame;
               var body := CString(f.body);
               match f.id % 65536
               case 1017 =>
                 c.parseText(body).Some? &&
                 var b := c.parseText(body).value;
                 o.owner == b.touid &&
                 exists items :: Arrive(o.cause.route, b.items, items) &&
                   o.message == Message(1019, ConstructedBody(c.dumpText(b.fromuid, b.touid, items)), false)
               case 1013 =>
                 c.parseAuthFriend(body).Some? &&
                 var b := c.parseAuthFriend(body).value;
                 o.owner == b.touid && o.message == Message(1015, ConstructedBody(c.dumpAuthFriend(b.uid, b.touid)), false)
               case 1009 =>
                 c.parseAddFriend(body).Some? &&
                 var b := c.parseAddFriend(body).value;
                 o.owner == b.touid &&
                 exists name :: [NameFound(name)] <= Trace(c, run, s, q) &&
                   o.message == Message(1011, ConstructedBody(c.dumpAddFriend(b.uid, name)), false)
               case _ => false
  {
    hide Legal, After, Trace, CString, ConstructedBody, TokenProven;
    NotificationSoundness(c, run, r, k);
    RunNames(c, run, r, k);
  }
}
