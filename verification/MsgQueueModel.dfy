/** The blocking message queue of msg_q.c, for any number of senders and receivers. The mutex makes
    each stretch between acquiring and releasing it one atomic step; what the condition variable
    does to waiting threads is part of the state. */
module MsgQueueModel {
  type Tid = nat
  type Msg = int

  /** asleep: threads inside pthread_cond_wait. due: threads woken but not yet holding the mutex. */
  datatype Queue = Queue(queue: seq<Msg>, unblocked: bool, asleep: set<Tid>, due: set<Tid>)

  const INITIAL := Queue([], false, {}, {})

  datatype Step =
    | Send(msg: Msg, woken: set<Tid>)  // msg_q_snd; woken is whom the signal wakes
    | Receive(t: Tid)                  // msg_q_rcv, from its entry until it waits or returns
    | Resume(t: Tid)                   // msg_q_rcv, from waking up until it waits again or returns
    | Spurious(t: Tid)                 // a wait ends although nobody signalled
    | Flush
    | Unblock

  datatype Result = Accepted | Unavailable | Got(msg: Msg) | Waits | Done

  /** POSIX: a signal wakes at least one thread if any thread is waiting. */
  predicate Enabled(q: Queue, s: Step) {
    match s
    case Send(_, woken) =>
      if q.unblocked then woken == {} else woken <= q.asleep && (q.asleep != {} ==> woken != {})
    case Receive(t) => t !in q.asleep && t !in q.due
    case Resume(t) => t in q.due
    case Spurious(t) => t in q.asleep
    case Flush => true
    case Unblock => true
  }

  /** The loop condition of msg_q_rcv and what follows it. */
  function TakeOrWait(q: Queue, t: Tid): (Queue, Result) {
    if q.queue == [] && !q.unblocked then (q.(asleep := q.asleep + {t}), Waits)
    else if q.queue == [] then (q, Unavailable)
    else (q.(queue := q.queue[1..]), Got(q.queue[0]))
  }

  function Apply(q: Queue, s: Step): (Queue, Result) {
    match s
    case Send(msg, woken) =>
      if q.unblocked then (q, Unavailable)
      else (q.(queue := q.queue + [msg], asleep := q.asleep - woken, due := q.due + woken), Accepted)
    case Receive(t) => if q.unblocked then (q, Unavailable) else TakeOrWait(q, t)
    case Resume(t) => TakeOrWait(q.(due := q.due - {t}), t)
    case Spurious(t) => (q.(asleep := q.asleep - {t}, due := q.due + {t}), Done)
    case Flush => (q.(queue := []), Done)
    case Unblock =>
      if q.unblocked then (q, Unavailable)
      else (q.(unblocked := true, asleep := {}, due := q.due + q.asleep), Done)
  }

  /** The steps can be taken one after the other from q. */
  predicate Legal(q: Queue, steps: seq<Step>)
    decreases |steps|
  {
    steps == [] || (Enabled(q, steps[0]) && Legal(Apply(q, steps[0]).0, steps[1..]))
  }

  function After(q: Queue, steps: seq<Step>): Queue
    decreases |steps|
  {
    if steps == [] then q else After(Apply(q, steps[0]).0, steps[1..])
  }

  lemma {:induction false} AfterMore(q: Queue, steps: seq<Step>, s: Step)
    requires Legal(q, steps) && Enabled(After(q, steps), s)
    ensures Legal(q, steps + [s]) && After(q, steps + [s]) == Apply(After(q, steps), s).0
    decreases |steps|
  {
    if steps != [] {
      assert (steps + [s])[1..] == steps[1..] + [s];
      AfterMore(Apply(q, steps[0]).0, steps[1..], s);
    } else {
      assert (steps + [s])[1..] == [];
    }
  }

  // ---------- no lost wakeup ----------

  ghost predicate Inv(q: Queue) {
    && q.asleep !! q.due
    && (q.asleep != {} ==> |q.due| >= |q.queue|)
    && (q.unblocked ==> q.asleep == {})
  }

  lemma SendKeepsInv(q: Queue, msg: Msg, woken: set<Tid>)
    requires Inv(q) && Enabled(q, Send(msg, woken))
    ensures Inv(Apply(q, Send(msg, woken)).0)
  {
    if !q.unblocked && q.asleep != {} {
      assert q.due !! woken;
      assert |q.due + woken| == |q.due| + |woken|;
      var t :| t in woken;
      assert |woken| == |woken - {t}| + 1;
    }
  }

  /** A thread that finds a message takes it, so one thread fewer has to be due. */
  lemma TakeKeepsInv(q: Queue, due: set<Tid>, t: Tid)
    requires Inv(q) && t !in due && t !in q.asleep && due <= q.due && |due| + 1 >= |q.due|
    ensures Inv(TakeOrWait(q.(due := due), t).0)
  {
  }

  lemma StepKeepsInv(q: Queue, s: Step)
    requires Inv(q) && Enabled(q, s)
    ensures Inv(Apply(q, s).0)
  {
    match s
    case Send(msg, woken) => SendKeepsInv(q, msg, woken);
    case Receive(t) => TakeKeepsInv(q, q.due, t);
    case Resume(t) =>
      assert |q.due| == |q.due - {t}| + 1;
      TakeKeepsInv(q, q.due - {t}, t);
    case _ =>
  }

  lemma {:induction false} RunKeepsInv(q: Queue, steps: seq<Step>)
    requires Inv(q) && Legal(q, steps)
    ensures Inv(After(q, steps))
    decreases |steps|
  {
    if steps != [] {
      StepKeepsInv(q, steps[0]);
      RunKeepsInv(Apply(q, steps[0]).0, steps[1..]);
    }
  }

  /** In every reachable state: while a receiver sleeps, at least as many receivers are woken and
      due to run as there are messages, and each of them, when it runs next, gets the oldest
      message. After unblock nobody sleeps. */
  lemma NoLostWakeup(steps: seq<Step>)
    requires Legal(INITIAL, steps)
    ensures var q := After(INITIAL, steps);
            && (q.asleep != {} ==> |q.due| >= |q.queue|)
            && (q.unblocked ==> q.asleep == {})
            && (q.queue != [] && q.asleep != {} ==>
                  exists t :: t in q.due && Enabled(q, Resume(t)) && Apply(q, Resume(t)).1 == Got(q.queue[0]))
  {
    RunKeepsInv(INITIAL, steps);
    var q := After(INITIAL, steps);
    if q.queue != [] && q.asleep != {} {
      assert q.due != {};
      var t :| t in q.due;
      assert Enabled(q, Resume(t)) && Apply(q, Resume(t)).1 == Got(q.queue[0]);
    }
  }

  // ---------- what the history decides ----------

  lemma {:induction false} LegalSplit(q: Queue, steps: seq<Step>)
    requires Legal(q, steps) && steps != []
    ensures var before, s := steps[..|steps| - 1], steps[|steps| - 1];
            Legal(q, before) && Enabled(After(q, before), s) && After(q, steps) == Apply(After(q, before), s).0
    decreases |steps|
  {
    var before := steps[..|steps| - 1];
    if |steps| > 1 {
      LegalSplit(Apply(q, steps[0]).0, steps[1..]);
      assert before[1..] == steps[1..][..|steps| - 2];
    }
  }

  /** The messages of all sends before the queue was unblocked, in order. */
  function Sent(steps: seq<Step>): seq<Msg> {
    if steps == [] then []
    else
      var before, s := steps[..|steps| - 1], steps[|steps| - 1];
      Sent(before) + if s.Send? && Unblock !in before then [s.msg] else []
  }

  /** How many of them have left: a flush takes all there are, and a receiver takes one if there is one, unless it
      comes after the queue was unblocked. */
  function Gone(steps: seq<Step>): (n: nat)
    ensures n <= |Sent(steps)|
  {
    if steps == [] then 0
    else
      var before, s := steps[..|steps| - 1], steps[|steps| - 1];
      var left := Gone(before) < |Sent(before)|;
      match s
      case Flush => |Sent(before)|
      case Receive(_) => if left && Unblock !in before then Gone(before) + 1 else Gone(before)
      case Resume(_) => if left then Gone(before) + 1 else Gone(before)
      case _ => Gone(before)
  }

  /** Thread t has not come back from receiving: when it last looked there was no message, and the queue was not
      unblocked. */
  predicate Inside(steps: seq<Step>, t: Tid) {
    steps != [] &&
    var before, s := steps[..|steps| - 1], steps[|steps| - 1];
    if s == Receive(t) || s == Resume(t) then Gone(before) == |Sent(before)| && Unblock !in before
    else Inside(before, t)
  }

  /** Nothing has woken t since it last looked. */
  predicate Unwoken(steps: seq<Step>, t: Tid) {
    steps != [] &&
    var before, s := steps[..|steps| - 1], steps[|steps| - 1];
    s == Receive(t) || s == Resume(t)
    || (s != Unblock && s != Spurious(t) && (s.Send? ==> t !in s.woken) && Unwoken(before, t))
  }

  lemma {:induction false} QueueDecided(steps: seq<Step>)
    requires Legal(INITIAL, steps)
    ensures var q := After(INITIAL, steps);
            q.queue == Sent(steps)[Gone(steps)..] && (q.unblocked <==> Unblock in steps)
  {
    if steps != [] {
      LegalSplit(INITIAL, steps);
      QueueDecided(steps[..|steps| - 1]);
      assert steps == steps[..|steps| - 1] + [steps[|steps| - 1]];
    }
  }

  lemma {:induction false} ThreadsDecided(steps: seq<Step>, t: Tid)
    requires Legal(INITIAL, steps)
    ensures var q := After(INITIAL, steps);
            && (t in q.asleep <==> Inside(steps, t) && Unwoken(steps, t))
            && (t in q.due <==> Inside(steps, t) && !Unwoken(steps, t))
  {
    if steps != [] {
      var before := steps[..|steps| - 1];
      LegalSplit(INITIAL, steps);
      ThreadsDecided(before, t);
      QueueDecided(before);
      RunKeepsInv(INITIAL, before);
    }
  }

  /** Whatever senders, receivers and others have done: what is queued are the messages sent that have not left, in
      the order in which they were sent, and a thread waits if and only if it found nothing. */
  lemma HistoryDecides(steps: seq<Step>)
    requires Legal(INITIAL, steps)
    ensures var q := After(INITIAL, steps);
            && q.queue == Sent(steps)[Gone(steps)..]
            && (q.unblocked <==> Unblock in steps)
            && (forall t :: t in q.asleep <==> Inside(steps, t) && Unwoken(steps, t))
            && (forall t :: t in q.due <==> Inside(steps, t) && !Unwoken(steps, t))
  {
    QueueDecided(steps);
    forall t
      ensures t in After(INITIAL, steps).asleep <==> Inside(steps, t) && Unwoken(steps, t)
      ensures t in After(INITIAL, steps).due <==> Inside(steps, t) && !Unwoken(steps, t)
    {
      ThreadsDecided(steps, t);
    }
  }

  /** What every call returns, read off the history alone. A receiver gets the oldest message that has not left,
      so messages are received in the order in which they were sent, and each at most once. */
  lemma Answers(steps: seq<Step>, s: Step)
    requires Legal(INITIAL, steps) && Enabled(After(INITIAL, steps), s)
    ensures var r := Apply(After(INITIAL, steps), s).1;
            var left := Sent(steps)[Gone(steps)..];
            match s
            case Send(_, _) => r == if Unblock in steps then Unavailable else Accepted
            case Receive(_) =>
              r == if Unblock in steps then Unavailable else if left == [] then Waits else Got(left[0])
            case Resume(_) =>
              r == if left != [] then Got(left[0]) else if Unblock in steps then Unavailable else Waits
            case Spurious(_) => r == Done
            case Flush => r == Done
            case Unblock => r == if Unblock in steps then Unavailable else Done
  {
    HistoryDecides(steps);
  }

  /** What receivers were handed, in order. */
  function Handed(steps: seq<Step>): seq<Msg>
    requires Legal(INITIAL, steps)
  {
    if steps == [] then []
    else
      LegalSplit(INITIAL, steps);
      var before, s := steps[..|steps| - 1], steps[|steps| - 1];
      var r := Apply(After(INITIAL, before), s).1;
      Handed(before) + if r.Got? then [r.msg] else []
  }

  lemma {:induction false} HandedAreGone(steps: seq<Step>)
    requires Legal(INITIAL, steps) && Flush !in steps
    ensures Handed(steps) == Sent(steps)[..Gone(steps)]
  {
    if steps != [] {
      var before, s := steps[..|steps| - 1], steps[|steps| - 1];
      LegalSplit(INITIAL, steps);
      HandedAreGone(before);
      Answers(before, s);
      assert Flush != s;
    }
  }

  /** As long as nobody flushes the queue, what was handed out and what is still queued are, together and in order,
      what was sent. */
  lemma AcceptedInOrder(steps: seq<Step>)
    requires Legal(INITIAL, steps) && Flush !in steps
    ensures Handed(steps) + After(INITIAL, steps).queue == Sent(steps)
  {
    HandedAreGone(steps);
    QueueDecided(steps);
  }

  /** Unblocking is final: nothing is added any more, and nobody falls asleep. */
  lemma {:induction false} UnblockIsFinal(q: Queue, steps: seq<Step>)
    requires Inv(q) && q.unblocked && Legal(q, steps)
    ensures var r := After(q, steps);
            && r.unblocked && r.asleep == {} && |r.due| <= |q.due|
            && |r.queue| <= |q.queue| && r.queue == q.queue[|q.queue| - |r.queue|..]
    decreases |steps|
  {
    if steps != [] {
      StepKeepsInv(q, steps[0]);
      UnblockIsFinal(Apply(q, steps[0]).0, steps[1..]);
    }
  }
}
