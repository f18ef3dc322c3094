/** The one consumer of a message queue, MsgTask.cpp: it receives, processes and deletes messages
    until receiving fails, and then destroys the queue. */
module MsgTask {
  import opened MsgQueueModel

  const CONSUMER: Tid := 0

  /** Where the consumer loop is. */
  datatype Phase = Listening | Waiting | Handling(msg: Msg) | Exited

  datatype Task = Task(q: Queue, phase: Phase, processed: seq<Msg>, destroyed: seq<Msg>)

  const START := Task(INITIAL, Listening, [], [])

  datatype TaskStep =
    | Post(msg: Msg, woken: set<Tid>)  // some thread sends
    | Wakeup                           // the wait ends spuriously
    | Stop                             // the MsgTask object is destroyed, which unblocks the queue
    | Listen                           // the consumer calls msg_q_rcv
    | Proceed                          // the consumer, woken, gets the mutex
    | Finish                           // the consumer has processed and deletes its message

  predicate CanTake(task: Task, s: TaskStep) {
    match s
    case Post(msg, woken) => Enabled(task.q, Send(msg, woken))
    case Wakeup => Enabled(task.q, Spurious(CONSUMER))
    case Stop => true
    case Listen => task.phase == Listening
    case Proceed => Enabled(task.q, Resume(CONSUMER))
    case Finish => task.phase.Handling?
  }

  function InHand(task: Task): seq<Msg> {
    if task.phase.Handling? then [task.phase.msg] else []
  }

  /** What the loop does with the result of msg_q_rcv. */
  function Received(task: Task, q: Queue, r: Result): Task {
    match r
    case Got(msg) => task.(q := q, phase := Handling(msg))
    case Waits => task.(q := q, phase := Waiting)
    case _ => Task(q.(queue := []), Exited, task.processed, q.queue)
  }

  function Take(task: Task, s: TaskStep): Task {
    match s
    case Post(msg, woken) => task.(q := Apply(task.q, Send(msg, woken)).0)
    case Wakeup => task.(q := Apply(task.q, Spurious(CONSUMER)).0)
    case Stop => task.(q := Apply(task.q, Unblock).0)
    case Listen => var (q, r) := Apply(task.q, Receive(CONSUMER)); Received(task, q, r)
    case Proceed => var (q, r) := Apply(task.q, Resume(CONSUMER)); Received(task, q, r)
    case Finish => task.(phase := Listening, processed := task.processed + InHand(task))
  }

  predicate LegalTask(task: Task, steps: seq<TaskStep>)
    decreases |steps|
  {
    steps == [] || (CanTake(task, steps[0]) && LegalTask(Take(task, steps[0]), steps[1..]))
  }

  function RunTask(task: Task, steps: seq<TaskStep>): Task
    decreases |steps|
  {
    if steps == [] then task else RunTask(Take(task, steps[0]), steps[1..])
  }

  ghost predicate TaskInv(task: Task) {
    && task.q.asleep !! task.q.due
    && task.q.asleep + task.q.due == (if task.phase == Waiting then {CONSUMER} else {})
    && (task.q.asleep != {} ==> task.q.queue == [] && !task.q.unblocked)
    && (task.phase != Exited ==> task.destroyed == [])
    && (task.phase == Exited ==> task.q.unblocked && task.q.queue == [])
  }

  lemma ReceiveKeepsInv(task: Task, q: Queue)
    requires TaskInv(task) && task.phase in {Listening, Waiting}
    requires q == task.q.(asleep := {}, due := {})
    ensures var (q', r) := TakeOrWait(q, CONSUMER);
            TaskInv(Received(task, q', r))
  {
  }

  lemma StepKeepsTaskInv(task: Task, s: TaskStep)
    requires TaskInv(task) && CanTake(task, s)
    ensures TaskInv(Take(task, s))
  {
    match s
    case Listen => if !task.q.unblocked { ReceiveKeepsInv(task, task.q); }
    case Proceed =>
      assert task.q.due == {CONSUMER} && task.q.asleep == {};
      ReceiveKeepsInv(task, task.q.(due := task.q.due - {CONSUMER}));
    case _ =>
  }

  lemma {:induction false} RunKeepsTaskInv(task: Task, steps: seq<TaskStep>)
    requires TaskInv(task) && LegalTask(task, steps)
    ensures TaskInv(RunTask(task, steps))
    decreases |steps|
  {
    if steps != [] {
      StepKeepsTaskInv(task, steps[0]);
      RunKeepsTaskInv(Take(task, steps[0]), steps[1..]);
    }
  }

  lemma {:induction false} LegalTaskSplit(task: Task, steps: seq<TaskStep>)
    requires LegalTask(task, steps) && steps != []
    ensures var before, s := steps[..|steps| - 1], steps[|steps| - 1];
            && LegalTask(task, before) && CanTake(RunTask(task, before), s)
            && RunTask(task, steps) == Take(RunTask(task, before), s)
    decreases |steps|
  {
    var before := steps[..|steps| - 1];
    if |steps| > 1 {
      LegalTaskSplit(Take(task, steps[0]), steps[1..]);
      assert before[1..] == steps[1..][..|steps| - 2];
    }
  }

  /** What was posted before Stop, in order. */
  function Posted(steps: seq<TaskStep>): seq<Msg> {
    if steps == [] then []
    else
      var before, s := steps[..|steps| - 1], steps[|steps| - 1];
      Posted(before) + if s.Post? && Stop !in before then [s.msg] else []
  }

  /** Everything a consumer has been given, in order. */
  function Whole(task: Task): seq<Msg> {
    task.processed + InHand(task) + task.q.queue + task.destroyed
  }

  lemma TakeKeepsWhole(task: Task, s: TaskStep)
    requires TaskInv(task) && CanTake(task, s) && (s == Listen || s == Proceed)
    ensures Whole(Take(task, s)) == Whole(task)
  {
    if task.q.queue != [] {
      assert task.q.queue == [task.q.queue[0]] + task.q.queue[1..];
    }
  }

  lemma FinishKeepsWhole(task: Task)
    requires CanTake(task, Finish)
    ensures Whole(Take(task, Finish)) == Whole(task)
  {
    assert Whole(task) == task.processed + InHand(task) + [] + task.q.queue + task.destroyed;
  }

  /** A step gives the task a message that is posted before Stop, and loses none. */
  lemma StepKeepsWhole(task: Task, s: TaskStep)
    requires TaskInv(task) && CanTake(task, s)
    ensures Whole(Take(task, s)) == Whole(task) + if s.Post? && !task.q.unblocked then [s.msg] else []
    ensures Take(task, s).q.unblocked <==> task.q.unblocked || s == Stop
  {
    match s
    case Post(msg, _) => assert task.destroyed == [] || task.q.unblocked;
    case Finish => FinishKeepsWhole(task);
    case Listen => TakeKeepsWhole(task, s);
    case Proceed => TakeKeepsWhole(task, s);
    case _ =>
  }

  lemma {:induction false} PostedIsWhole(steps: seq<TaskStep>)
    requires LegalTask(START, steps)
    ensures Posted(steps) == Whole(RunTask(START, steps))
    ensures RunTask(START, steps).q.unblocked <==> Stop in steps
  {
    if steps != [] {
      var before, s := steps[..|steps| - 1], steps[|steps| - 1];
      assert steps == before + [s];
      LegalTaskSplit(START, steps);
      RunKeepsTaskInv(START, before);
      PostedIsWhole(before);
      StepKeepsWhole(RunTask(START, before), s);
    }
  }

  /** With one consumer and no flush, every message posted before Stop is processed in the order of
      posting, exactly once, except those that the destruction of the queue catches; and the consumer exits only
      after the stop. */
  lemma ProcessedInOrder(steps: seq<TaskStep>)
    requires LegalTask(START, steps)
    ensures var task := RunTask(START, steps);
            && Posted(steps) == task.processed + InHand(task) + task.q.queue + task.destroyed
            && (task.phase == Exited ==> Stop in steps && Posted(steps) == task.processed + task.destroyed)
            && (task.phase != Exited ==> task.destroyed == [])
  {
    PostedIsWhole(steps);
    RunKeepsTaskInv(START, steps);
  }

  /** The consumer never waits beside a queued message: it is on its way to the oldest one. */
  lemma ConsumerIsOnItsWay(steps: seq<TaskStep>)
    requires LegalTask(START, steps)
    ensures var task := RunTask(START, steps);
            task.phase == Waiting && task.q.queue != [] ==>
              CanTake(task, Proceed) && Take(task, Proceed).phase == Handling(task.q.queue[0])
  {
    RunKeepsTaskInv(START, steps);
  }

  /** Where the consumer goes, and what it has processed: it takes the oldest message if there is one, except that
      after Stop it takes no more on its own, and it exits when it comes back empty-handed. */
  lemma ConsumerDecides(steps: seq<TaskStep>, s: TaskStep)
    requires LegalTask(START, steps) && CanTake(RunTask(START, steps), s)
    ensures var task := RunTask(START, steps);
            var after := Take(task, s);
            match s
            case Listen =>
              after.phase == (if Stop in steps then Exited
                              else if task.q.queue == [] then Waiting else Handling(task.q.queue[0]))
            case Proceed =>
              after.phase == (if task.q.queue != [] then Handling(task.q.queue[0])
                              else if Stop in steps then Exited else Waiting)
            case Finish => after.phase == Listening && after.processed == task.processed + [task.phase.msg]
            case _ => after.phase == task.phase && after.processed == task.processed
  {
    PostedIsWhole(steps);
  }
}
