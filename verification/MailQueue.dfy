/** The mail client: producers enqueue, one worker delivers, the destructor stops the worker and waits for it.

    A step is one section under the mutex, one notify_one, one delivery, or a wake-up that nobody asked for. */
module MailQueue {
  import opened Wrappers

  datatype Task = Task(to: string, subject: string, body: string)

  datatype Worker =
    | Awake                    // about to take the mutex and test the wait's condition
    | Asleep                   // in the condition variable's wait
    | Delivering(task: Task)
    | Exited

  datatype State = State(
    queue: seq<Task>,
    stop: bool,
    notifies: nat,             // threads that changed the state and have yet to call notify_one
    worker: Worker,
    sent: seq<Task>,           // record of the enqueued tasks
    delivered: seq<Task>)      // record of the tasks given to deliver

  const START := State([], false, 0, Awake, [], [])

  datatype Action = Push(task: Task) | SetStop | Notify | Spurious | Test | Deliver

  /** Producers have finished before the destructor runs, and it runs once. */
  predicate Enabled(st: State, a: Action) {
    match a
    case Push(_) => !st.stop
    case SetStop => !st.stop
    case Notify => st.notifies > 0
    case Spurious => st.worker.Asleep?
    case Test => st.worker.Awake?
    case Deliver => st.worker.Delivering?
  }

  function Wake(w: Worker): Worker { if w.Asleep? then Awake else w }

  function Apply(st: State, a: Action): State
    requires Enabled(st, a)
  {
    match a
    case Push(task) => st.(queue := st.queue + [task], sent := st.sent + [task], notifies := st.notifies + 1)
    case SetStop => st.(stop := true, notifies := st.notifies + 1)
    case Notify => st.(notifies := st.notifies - 1, worker := Wake(st.worker))
    case Spurious => st.(worker := Awake)
    case Test =>
      if st.queue != [] then st.(queue := st.queue[1..], worker := Delivering(st.queue[0]))
      else if st.stop then st.(worker := Exited)
      else st.(worker := Asleep)
    case Deliver => st.(worker := Awake, delivered := st.delivered + [st.worker.task])
  }

  ghost predicate Legal(st: State, run: seq<Action>)
    decreases run
  {
    run == [] || (Enabled(st, run[0]) && Legal(Apply(st, run[0]), run[1..]))
  }

  ghost function After(st: State, run: seq<Action>): State
    requires Legal(st, run)
    decreases run
  {
    if run == [] then st else After(Apply(st, run[0]), run[1..])
  }

  /** The tasks that the run's calls of send_mail enqueue, in order. */
  function Pushed(run: seq<Action>): seq<Task> {
    if run == [] then [] else (if run[0].Push? then [run[0].task] else []) + Pushed(run[1..])
  }

  lemma {:induction false} SentIsPushed(st: State, run: seq<Action>)
    requires Legal(st, run)
    ensures After(st, run).sent == st.sent + Pushed(run)
    decreases run
  {
    if run != [] {
      SentIsPushed(Apply(st, run[0]), run[1..]);
    }
  }

  lemma {:induction false} StopWasSet(st: State, run: seq<Action>)
    requires Legal(st, run)
    ensures After(st, run).stop <==> st.stop || SetStop in run
    decreases run
  {
    if run != [] {
      StopWasSet(Apply(st, run[0]), run[1..]);
      assert run == [run[0]] + run[1..];
    }
  }

  /** Nothing else is ever sent, and the stop is the destructor's. */
  lemma RunOfStart(run: seq<Action>)
    requires Legal(START, run)
    ensures After(START, run).sent == Pushed(run)
    ensures After(START, run).stop <==> SetStop in run
  {
    SentIsPushed(START, run);
    StopWasSet(START, run);
    assert [] + Pushed(run) == Pushed(run);
  }

  // ---------- Safety ----------

  function InHand(w: Worker): seq<Task> {
    if w.Delivering? then [w.task] else []
  }

  /** Every task is in one place, in the order of sending; the worker is gone only when it was stopped and nothing is
      left; asleep with something to do, somebody is about to wake it. */
  ghost predicate Inv(st: State) {
    && st.sent == st.delivered + InHand(st.worker) + st.queue
    && (st.worker.Exited? ==> st.stop && st.queue == [])
    && (st.worker.Asleep? && (st.stop || st.queue != []) ==> st.notifies > 0)
  }

  lemma StepKeepsInv(st: State, a: Action)
    requires Inv(st) && Enabled(st, a)
    ensures Inv(Apply(st, a))
  {
    if a.Test? && st.queue != [] {
      assert st.queue == [st.queue[0]] + st.queue[1..];
    }
  }

  lemma {:induction false} RunKeepsInv(st: State, run: seq<Action>)
    requires Inv(st) && Legal(st, run)
    ensures Inv(After(st, run))
    decreases run
  {
    if run != [] {
      StepKeepsInv(st, run[0]);
      RunKeepsInv(Apply(st, run[0]), run[1..]);
    }
  }

  /** In every interleaving the tasks that the run's callers enqueued are, each once and in that order, the delivered ones,
      the one in the worker's hand and the queued ones; and once the worker has exited all of them are delivered. */
  lemma DeliveredInOrder(run: seq<Action>)
    requires Legal(START, run)
    ensures var st := After(START, run);
            && Pushed(run) == st.delivered + (if st.worker.Delivering? then [st.worker.task] else []) + st.queue
            && (st.worker.Exited? ==> SetStop in run && st.delivered == Pushed(run))
  {
    RunKeepsInv(START, run);
    RunOfStart(run);
  }

  // ---------- Progress ----------

  /** A step that will happen without new callers and without luck. */
  predicate Due(a: Action) { a.Notify? || a.Test? || a.Deliver? }

  /** No wake-up is lost: with a task queued or in hand, or with the stop set and the worker still there, the worker or a
      pending notification can go on. */
  lemma NoLostWakeup(run: seq<Action>)
    requires Legal(START, run)
    ensures var st := After(START, run);
            (st.delivered != Pushed(run) || (SetStop in run && !st.worker.Exited?)) ==>
              exists a: Action :: Due(a) && Enabled(st, a)
  {
    RunKeepsInv(START, run);
    RunOfStart(run);
    var st := After(START, run);
    if st.worker.Delivering? {
      assert Due(Deliver) && Enabled(st, Deliver);
    } else if st.worker.Awake? {
      assert Due(Test) && Enabled(st, Test);
    } else if st.worker.Asleep? && (st.stop || st.queue != []) {
      assert Due(Notify) && Enabled(st, Notify);
    }
  }

  function Rank(w: Worker): nat {
    match w
    case Exited => 0
    case Awake => 1
    case Asleep => 2
    case Delivering(_) => 3
  }

  /** What is left to do once the producers are done and the stop is set. */
  function Measure(st: State): nat {
    4 * |st.queue| + Rank(st.worker) + st.notifies
  }

  lemma {:induction false} StoppedRunsShrink(st: State, run: seq<Action>)
    requires st.stop && Legal(st, run)
    ensures After(st, run).stop && After(st, run).sent == st.sent
    ensures |run| + Measure(After(st, run)) <= Measure(st)
    decreases run
  {
    if run != [] {
      assert Measure(Apply(st, run[0])) < Measure(st);
      StoppedRunsShrink(Apply(st, run[0]), run[1..]);
    }
  }

  lemma {:induction false} RunsConcat(st: State, first: seq<Action>, rest: seq<Action>)
    requires Legal(st, first) && Legal(After(st, first), rest)
    ensures Legal(st, first + rest) && After(st, first + rest) == After(After(st, first), rest)
    decreases first
  {
    if first == [] {
      assert first + rest == rest;
    } else {
      RunsConcat(Apply(st, first[0]), first[1..], rest);
      assert (first + rest)[1..] == first[1..] + rest;
    }
  }

  /** Once stopped, every continuation is finite, and one that cannot go on has delivered everything that was ever sent
      and ended the worker: the destructor's join returns. */
  lemma StopDrainsAndExits(run: seq<Action>, rest: seq<Action>)
    requires Legal(START, run) && SetStop in run && Legal(After(START, run), rest)
    ensures |rest| <= Measure(After(START, run))
    ensures var end := After(After(START, run), rest);
            (forall a: Action :: !Enabled(end, a)) ==> end.worker.Exited? && end.queue == [] && end.delivered == Pushed(run)
  {
    var st := After(START, run);
    RunOfStart(run);
    StoppedRunsShrink(st, rest);
    RunsConcat(START, run, rest);
    var end := After(st, rest);
    RunKeepsInv(START, run + rest);
    if forall a: Action :: !Enabled(end, a) {
      RunOfStart(run + rest);
      NoLostWakeup(run + rest);
      assert !Enabled(end, Test) && !Enabled(end, Deliver) && !Enabled(end, Notify) && !Enabled(end, Spurious);
    }
  }

  // ---------- The object ----------

  /** The client.  Its methods are the machine's steps, each under the mutex or between two uses of it. */
  class MailClient {
    var queue: seq<Task>
    var stop: bool
    var delivered: seq<Task>       // what deliver was called with
    var worker: Worker
    ghost var notifies: nat
    ghost var sent: seq<Task>

    ghost function View(): State
      reads this
    {
      State(queue, stop, notifies, worker, sent, delivered)
    }

    constructor ()
      ensures View() == START
    {
      queue, stop, delivered := [], false, [];
      worker, notifies, sent := Awake, 0, [];
    }

    method NotifyOne()
      requires notifies > 0
      modifies this`worker, this`notifies
      ensures View() == Apply(old(View()), Notify)
    {
      notifies := notifies - 1;
      worker := Wake(worker);
    }

    method SendMail(to: string, subject: string, body: string)
      requires !stop
      modifies this
      ensures queue == old(queue) + [Task(to, subject, body)] && sent == old(sent) + [Task(to, subject, body)]
      ensures worker == (if old(worker).Asleep? then Awake else old(worker)) && delivered == old(delivered) && !stop
      ensures View() == Apply(Apply(old(View()), Push(Task(to, subject, body))), Notify)
    {
      queue := queue + [Task(to, subject, body)];
      sent, notifies := sent + [Task(to, subject, body)], notifies + 1;
      NotifyOne();
    }

    /** The worker's section under the mutex when it does not have to wait. */
    method Take() returns (task: Option<Task>)
      requires worker.Awake? && (stop || queue != [])
      modifies this
      ensures View() == Apply(old(View()), Test)
      ensures task == if old(queue) == [] then None else Some(old(queue)[0])
    {
      if stop && queue == [] {
        worker := Exited;
        return None;
      }
      task := Some(queue[0]);
      queue, worker := queue[1..], Delivering(queue[0]);
    }

    method DeliverTask(task: Task)
      requires worker == Delivering(task)
      modifies this
      ensures View() == Apply(old(View()), Deliver)
    {
      delivered, worker := delivered + [task], Awake;
    }

    /** worker_loop once the stop is set: it delivers what is queued, in order, and returns. */
    method WorkerLoop()
      requires stop && worker.Awake?
      modifies this
      ensures delivered == old(delivered) + old(queue) && queue == [] && worker.Exited? && sent == old(sent) && stop
    {
      while true
        invariant stop && worker.Awake? && sent == old(sent)
        invariant delivered + queue == old(delivered) + old(queue)
        decreases |queue|
      {
        ghost var before := View();
        var task := Take();
        assert View() == Apply(before, Test);
        if task.None? {
          return;
        }
        assert before.queue == [before.queue[0]] + queue;
        ghost var taken := View();
        DeliverTask(task.value);
        assert View() == Apply(taken, Deliver);
      }
    }

    /** The destructor, once the producers are done: it sets the stop, notifies, and the worker it joins runs to its end. */
    method Destroy()
      requires !stop && !worker.Exited?
      modifies this
      ensures delivered == old(delivered) + InHand(old(worker)) + old(queue) && queue == []
      ensures worker.Exited? && sent == old(sent)
    {
      stop, notifies := true, notifies + 1;
      NotifyOne();
      if worker.Delivering? {
        DeliverTask(worker.task);
      }
      WorkerLoop();
    }
  }
}
