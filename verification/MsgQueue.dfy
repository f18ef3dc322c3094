/** The message queue over the linked list. A method is one critical section of msg_q.c, and is
    proved to be the step of MsgQueueModel with the same name. msg_q_rcv is cut where
    pthread_cond_wait gives the mutex up. A queue keeps the run of the model that it has made. */
module MsgQueues {
  import opened Options
  import opened LinkedLists
  import opened MsgQueueModel

  function Reversed(s: seq<Msg>): (r: seq<Msg>)
    ensures |r| == |s|
  {
    if s == [] then [] else Reversed(s[1..]) + [s[0]]
  }

  /** The last of the list is the first of the queue. */
  lemma {:induction false} ReversedLast(s: seq<Msg>)
    requires s != []
    ensures var k := |s| - 1;
            Reversed(s)[0] == s[k] && Reversed(s)[1..] == Reversed(Without(s, k))
  {
    var k := |s| - 1;
    if k > 0 {
      ReversedLast(s[1..]);
      assert Without(s, k)[1..] == Without(s[1..], k - 1);
    }
  }

  /** The steps lead from the initial state to q, and q is as every reachable state. */
  ghost predicate Reached(steps: seq<Step>, q: Queue) {
    Legal(INITIAL, steps) && After(INITIAL, steps) == q && Inv(q)
  }

  lemma ReachedMore(steps: seq<Step>, q: Queue, s: Step)
    requires Reached(steps, q) && Enabled(q, s)
    ensures Reached(steps + [s], Apply(q, s).0)
  {
    StepKeepsInv(q, s);
    AfterMore(INITIAL, steps, s);
  }

  class MsgQueue {
    const list: LinkedList<Msg>
    var unblocked: bool
    // what the condition variable keeps
    var asleep: set<Tid>
    var due: set<Tid>
    ghost var taken: seq<Step>  // every step since the queue was made
    ghost var Repr: set<object>

    ghost predicate Sound()
      reads this, Repr
      ensures Sound() ==> this in Repr
    {
      this in Repr && list in Repr && list.Repr <= Repr && this !in list.Repr && list.Valid()
    }

    ghost function Model(): Queue
      reads this, list
    {
      Queue(Reversed(list.Contents()), unblocked, asleep, due)
    }

    ghost predicate Valid()
      reads this, Repr
      ensures Valid() ==> this in Repr
    {
      Sound() && Reached(taken, Model())
    }

    constructor ()
      ensures Valid() && fresh(Repr) && Model() == INITIAL
    {
      list := new LinkedList<Msg>();
      unblocked, asleep, due, taken := false, {}, {}, [];
      new;
      Repr := {this} + list.Repr;
    }

    /** A step that was just taken joins the run. */
    ghost method Took(q: Queue, s: Step)
      requires Sound() && Reached(taken, q) && Enabled(q, s) && Model() == Apply(q, s).0
      modifies `taken
      ensures Valid() && Model() == Apply(q, s).0 && taken == old(taken) + [s]
    {
      ReachedMore(taken, q, s);
      taken := taken + [s];
    }

    /** The list holds the messages sent that have not left, the oldest last, and the threads inside a wait are those
        that found nothing. */
    lemma HoldsWhatWasSent()
      requires Valid()
      ensures Reversed(list.Contents()) == Sent(taken)[Gone(taken)..]
      ensures unblocked <==> MsgQueueModel.Unblock in taken
      ensures forall t :: t in asleep + due <==> Inside(taken, t)
    {
      HistoryDecides(taken);
    }

    /** While a receiver sleeps beside a message, another one is on its way to the oldest message. */
    lemma NobodySleepsBesideMessages()
      requires Valid() && asleep != {} && list.Contents() != []
      ensures exists t :: t in due && MsgQueueModel.TakeOrWait(Model().(due := due - {t}), t).1 == Got(Model().queue[0])
    {
      NoLostWakeup(taken);
      var t :| t in due && Apply(Model(), MsgQueueModel.Resume(t)).1 == Got(Model().queue[0]);
    }

    /** pthread_cond_signal: wakes a waiting thread, if any thread is waiting. */
    method Signal() returns (woken: set<Tid>)
      requires Sound()
      modifies `asleep, `due
      ensures Sound() && woken <= old(asleep) && (old(asleep) != {} ==> woken != {})
      ensures asleep == old(asleep) - woken && due == old(due) + woken
    {
      woken := {};
      if asleep != {} {
        var t :| t in asleep;
        woken := {t};
      }
      asleep, due := asleep - woken, due + woken;
    }

    method Send(msg: Msg) returns (r: Result, ghost woken: set<Tid>)
      requires Valid()
      modifies Repr
      ensures Valid() && fresh(Repr - old(Repr))
      ensures Enabled(old(Model()), MsgQueueModel.Send(msg, woken))
      ensures (Model(), r) == Apply(old(Model()), MsgQueueModel.Send(msg, woken))
      ensures taken == old(taken) + [MsgQueueModel.Send(msg, woken)]
      ensures r == if MsgQueueModel.Unblock in old(taken) then Unavailable else Accepted
    {
      Answers(taken, MsgQueueModel.Send(msg, if unblocked then {} else asleep));
      ghost var q := Model();
      woken := {};
      if unblocked {
        r := Unavailable;
      } else {
        ghost var was := list.Contents();
        list.Add(msg, true);
        assert list.Contents()[1..] == was;
        Repr := Repr + list.Repr;
        woken := Signal();
        r := Accepted;
      }
      Took(q, MsgQueueModel.Send(msg, woken));
    }

    /** The loop of msg_q_rcv, with the mutex held: wait, or take the oldest message. */
    method TakeOrWait(t: Tid) returns (r: Result)
      requires Sound()
      modifies `asleep, list.Repr
      ensures Sound() && list.Repr == old(list.Repr)
      ensures (Model(), r) == MsgQueueModel.TakeOrWait(old(Model()), t)
    {
      var empty := list.Empty();
      if empty && !unblocked {
        asleep := asleep + {t};
        return Waits;
      }
      ghost var was := list.Contents();
      var err, data := list.Remove();
      if data.None? {
        return Unavailable;
      }
      ReversedLast(was);
      r := Got(data.value);
    }

    method Receive(t: Tid) returns (r: Result)
      requires Valid() && Enabled(Model(), MsgQueueModel.Receive(t))
      modifies Repr
      ensures Valid() && Repr == old(Repr)
      ensures (Model(), r) == Apply(old(Model()), MsgQueueModel.Receive(t))
      ensures taken == old(taken) + [MsgQueueModel.Receive(t)]
      ensures var left := Sent(old(taken))[Gone(old(taken))..];
              r == if MsgQueueModel.Unblock in old(taken) then Unavailable
                   else if left == [] then Waits else Got(left[0])
    {
      Answers(taken, MsgQueueModel.Receive(t));
      ghost var q := Model();
      if unblocked {
        r := Unavailable;
      } else {
        r := TakeOrWait(t);
      }
      Took(q, MsgQueueModel.Receive(t));
    }

    method Resume(t: Tid) returns (r: Result)
      requires Valid() && Enabled(Model(), MsgQueueModel.Resume(t))
      modifies Repr
      ensures Valid() && Repr == old(Repr)
      ensures (Model(), r) == Apply(old(Model()), MsgQueueModel.Resume(t))
      ensures taken == old(taken) + [MsgQueueModel.Resume(t)]
      ensures var left := Sent(old(taken))[Gone(old(taken))..];
              r == if left != [] then Got(left[0])
                   else if MsgQueueModel.Unblock in old(taken) then Unavailable else Waits
    {
      Answers(taken, MsgQueueModel.Resume(t));
      ghost var q := Model();
      due := due - {t};
      r := TakeOrWait(t);
      Took(q, MsgQueueModel.Resume(t));
    }

    /** A wait that ends although nobody signalled. */
    method WakeSpuriously(t: Tid)
      requires Valid() && Enabled(Model(), Spurious(t))
      modifies Repr
      ensures Valid() && Repr == old(Repr)
      ensures Model() == Apply(old(Model()), Spurious(t)).0 && taken == old(taken) + [Spurious(t)]
    {
      ghost var q := Model();
      asleep, due := asleep - {t}, due + {t};
      Took(q, Spurious(t));
    }

    method Flush()
      requires Valid()
      modifies Repr
      ensures Valid() && Repr == old(Repr)
      ensures Model() == Apply(old(Model()), MsgQueueModel.Flush).0 && taken == old(taken) + [MsgQueueModel.Flush]
    {
      ghost var q := Model();
      list.Flush();
      Took(q, MsgQueueModel.Flush);
    }

    method Unblock() returns (r: Result)
      requires Valid()
      modifies Repr
      ensures Valid() && Repr == old(Repr)
      ensures (Model(), r) == Apply(old(Model()), MsgQueueModel.Unblock)
      ensures taken == old(taken) + [MsgQueueModel.Unblock]
    {
      ghost var q := Model();
      if unblocked {
        r := Unavailable;
      } else {
        unblocked := true;
        asleep, due := {}, due + asleep;  // pthread_cond_broadcast
        r := Done;
      }
      Took(q, MsgQueueModel.Unblock);
    }
  }
}
