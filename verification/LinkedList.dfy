/** The doubly linked list of gps/utils/linked_list.c: nodes in the heap, pointers rewritten in
    place, and a ghost sequence that says what the pointers represent. */
module LinkedLists {
  import opened Options

  datatype ListError = Success | UnavailableResource

  /** What one call of a search callback did: whether it matched, and what it said to the
      outside while looking at the element. */
  datatype Visit<+E> = Visit(matched: bool, said: seq<E>)

  /** Everything said over a series of visits, in order. */
  function SaidBy<E>(visits: seq<Visit<E>>): seq<E> {
    if visits == [] then [] else SaidBy(visits[..|visits| - 1]) + visits[|visits| - 1].said
  }

  lemma SaidByExtend<E>(visits: seq<Visit<E>>, v: Visit<E>)
    ensures SaidBy(visits + [v]) == SaidBy(visits) + v.said
  {
    assert (visits + [v])[..|visits|] == visits;
  }

  /** The sequence without the element at position k. */
  function Without<T>(s: seq<T>, k: nat): (r: seq<T>)
    requires k < |s|
    ensures |r| == |s| - 1
    ensures forall i :: 0 <= i < |r| ==> r[i] == if i < k then s[i] else s[i + 1]
  {
    s[..k] + s[k + 1..]
  }

  /** What a list holds, and where every datum ever added to it has gone. */
  datatype Ledger<T> = Ledger(
    added: seq<T>,
    linked: seq<T>,      // from the head to the tail
    handedOut: seq<T>,   // unlinked and returned to a caller
    disposed: seq<T>,    // unlinked and passed to its deallocation function
    leftAlone: seq<T>)   // unlinked, not returned, without a deallocation function
  {
    function Add(x: T): Ledger<T> {
      this.(added := added + [x], linked := [x] + linked)
    }

    /** Unlinks the datum at position k. */
    function Take(k: nat, copiedOut: bool, dealloc: bool): (l: Ledger<T>)
      requires k < |linked|
    {
      var rest := this.(linked := Without(linked, k));
      if copiedOut then rest.(handedOut := handedOut + [linked[k]])
      else if dealloc then rest.(disposed := disposed + [linked[k]])
      else rest.(leftAlone := leftAlone + [linked[k]])
    }

    /** Unlinks the first k data from the head; deallocs[i] says whether datum i has a deallocation function. */
    function Flush(k: nat, deallocs: seq<bool>): (l: Ledger<T>)
      requires k <= |linked| == |deallocs|
      ensures |l.linked| == |linked| - k
      decreases k
    {
      if k == 0 then this else Flush(k - 1, deallocs).Take(0, false, deallocs[k - 1])
    }
  }

  /** Each added datum is in exactly one place. */
  ghost predicate Conserved<T>(l: Ledger<T>) {
    multiset(l.added) == multiset(l.linked) + multiset(l.handedOut) + multiset(l.disposed) + multiset(l.leftAlone)
  }

  lemma TakeConserves<T>(l: Ledger<T>, k: nat, copiedOut: bool, dealloc: bool)
    requires Conserved(l) && k < |l.linked|
    ensures Conserved(l.Take(k, copiedOut, dealloc))
  {
    assert l.linked == l.linked[..k] + [l.linked[k]] + l.linked[k + 1..];
    assert multiset(l.linked) == multiset(Without(l.linked, k)) + multiset{l.linked[k]};
  }

  lemma {:induction false} FlushConserves<T>(l: Ledger<T>, k: nat, deallocs: seq<bool>)
    requires Conserved(l) && k <= |l.linked| == |deallocs|
    ensures Conserved(l.Flush(k, deallocs))
  {
    if k > 0 {
      FlushConserves(l, k - 1, deallocs);
      TakeConserves(l.Flush(k - 1, deallocs), 0, false, deallocs[k - 1]);
    }
  }

  /** What the list operations do to the ledger: linked_list_add; a removal from the tail or a
      search that unlinks; linked_list_flush. */
  datatype ListStep<T> = Linked(x: T) | Unlinked(k: nat, copiedOut: bool, dealloc: bool) | Flushed(deallocs: seq<bool>)

  predicate CanStep<T>(l: Ledger<T>, s: ListStep<T>) {
    match s
    case Linked(_) => true
    case Unlinked(k, _, _) => k < |l.linked|
    case Flushed(deallocs) => |deallocs| == |l.linked|
  }

  function StepList<T>(l: Ledger<T>, s: ListStep<T>): Ledger<T>
    requires CanStep(l, s)
  {
    match s
    case Linked(x) => l.Add(x)
    case Unlinked(k, copiedOut, dealloc) => l.Take(k, copiedOut, dealloc)
    case Flushed(deallocs) => l.Flush(|l.linked|, deallocs)
  }

  predicate CanRun<T>(l: Ledger<T>, steps: seq<ListStep<T>>)
    decreases |steps|
  {
    steps == [] || (CanStep(l, steps[0]) && CanRun(StepList(l, steps[0]), steps[1..]))
  }

  function RunList<T>(l: Ledger<T>, steps: seq<ListStep<T>>): Ledger<T>
    requires CanRun(l, steps)
    decreases |steps|
  {
    if steps == [] then l else RunList(StepList(l, steps[0]), steps[1..])
  }

  /** The first k of some data, of those that have a deallocation function or of those that have none. */
  function Chosen<T>(data: seq<T>, deallocs: seq<bool>, k: nat, dealloc: bool): seq<T>
    requires k <= |data| == |deallocs|
  {
    if k == 0 then []
    else Chosen(data, deallocs, k - 1, dealloc) + if deallocs[k - 1] == dealloc then [data[k - 1]] else []
  }

  /** Flushing hands nothing out: from the head on, data that have a deallocation function are disposed of and the
      others are let go of. */
  lemma {:induction false} FlushSorts<T>(l: Ledger<T>, k: nat, deallocs: seq<bool>)
    requires k <= |l.linked| == |deallocs|
    ensures var r := l.Flush(k, deallocs);
            && r.linked == l.linked[k..] && r.added == l.added && r.handedOut == l.handedOut
            && r.disposed == l.disposed + Chosen(l.linked, deallocs, k, true)
            && r.leftAlone == l.leftAlone + Chosen(l.linked, deallocs, k, false)
  {
    if k > 0 {
      FlushSorts(l, k - 1, deallocs);
    }
  }

  /** What was added, in order. */
  function Incoming<T>(steps: seq<ListStep<T>>): seq<T> {
    if steps == [] then [] else (if steps[0].Linked? then [steps[0].x] else []) + Incoming(steps[1..])
  }

  lemma {:induction false} RunAdds<T>(l: Ledger<T>, steps: seq<ListStep<T>>)
    requires CanRun(l, steps)
    ensures RunList(l, steps).added == l.added + Incoming(steps)
    decreases |steps|
  {
    if steps != [] {
      if steps[0].Flushed? {
        FlushSorts(l, |l.linked|, steps[0].deallocs);
      }
      RunAdds(StepList(l, steps[0]), steps[1..]);
    }
  }

  /** Over any run each datum ever added is still linked, or was handed out once, or disposed of
      once, or let go of once. */
  lemma {:induction false} RunConserves<T>(l: Ledger<T>, steps: seq<ListStep<T>>)
    requires Conserved(l) && CanRun(l, steps)
    ensures Conserved(RunList(l, steps))
    decreases |steps|
  {
    if steps != [] {
      match steps[0] {
        case Linked(x) => assert [x] + l.linked == l.Add(x).linked;
        case Unlinked(k, copiedOut, dealloc) => TakeConserves(l, k, copiedOut, dealloc);
        case Flushed(deallocs) => FlushConserves(l, |l.linked|, deallocs);
      }
      RunConserves(StepList(l, steps[0]), steps[1..]);
    }
  }

  lemma {:induction false} RunMore<T>(l: Ledger<T>, steps: seq<ListStep<T>>, s: ListStep<T>)
    requires CanRun(l, steps) && CanStep(RunList(l, steps), s)
    ensures CanRun(l, steps + [s]) && RunList(l, steps + [s]) == StepList(RunList(l, steps), s)
    decreases |steps|
  {
    if steps != [] {
      assert (steps + [s])[1..] == steps[1..] + [s];
      RunMore(StepList(l, steps[0]), steps[1..], s);
    } else {
      assert (steps + [s])[1..] == [];
    }
  }

  function NoLedger<T>(): Ledger<T> {
    Ledger([], [], [], [], [])
  }

  /** The operations lead from the empty list to the ledger. */
  ghost predicate Accounts<T>(steps: seq<ListStep<T>>, l: Ledger<T>) {
    CanRun(NoLedger(), steps) && RunList(NoLedger(), steps) == l
  }

  class Node<T> {
    const data: T
    const dealloc: bool  // whether the caller gave a deallocation function
    var next: Node?<T>
    var prev: Node?<T>

    constructor (data: T, dealloc: bool)
      ensures this.data == data && this.dealloc == dealloc
      ensures next == null && prev == null
    {
      this.data, this.dealloc, this.next, this.prev := data, dealloc, null, null;
    }
  }

  ghost function Deallocs<T>(nodes: seq<Node<T>>): seq<bool> {
    seq(|nodes|, i requires 0 <= i < |nodes| => nodes[i].dealloc)
  }

  class LinkedList<T> {
    var head: Node?<T>
    var tail: Node?<T>
    ghost var nodes: seq<Node<T>>
    ghost var ledger: Ledger<T>
    ghost var taken: seq<ListStep<T>>  // every operation since the list was made
    ghost var Repr: set<object>

    ghost function Contents(): seq<T>
      reads this
    {
      ledger.linked
    }

    /** Head, tail, next and prev all describe the one sequence `nodes`. */
    ghost predicate Linked()
      reads this, Repr
    {
      && this in Repr
      && (forall i :: 0 <= i < |nodes| ==> nodes[i] in Repr)
      && head == (if nodes == [] then null else nodes[0])
      && tail == (if nodes == [] then null else nodes[|nodes| - 1])
      && (forall i, j :: 0 <= i < j < |nodes| ==> nodes[i] != nodes[j])
      && (forall i {:trigger nodes[i].next} :: 0 <= i < |nodes| ==>
            nodes[i].next == if i + 1 < |nodes| then nodes[i + 1] else null)
      && (forall i {:trigger nodes[i].prev} :: 0 <= i < |nodes| ==>
            nodes[i].prev == if 0 < i then nodes[i - 1] else null)
    }

    ghost predicate Valid()
      reads this, Repr
      ensures Valid() ==> this in Repr
    {
      && Linked()
      && |ledger.linked| == |nodes| && Accounts(taken, ledger)
      && forall i {:trigger nodes[i].data} :: 0 <= i < |nodes| ==> nodes[i].data == ledger.linked[i]
    }

    constructor ()
      ensures Valid() && fresh(Repr) && nodes == []
      ensures ledger == NoLedger() && taken == []
    {
      head, tail, nodes, Repr := null, null, [], {this};
      ledger, taken := NoLedger(), [];
    }

    /** Every datum ever added to this list is in exactly one place. */
    lemma ConservesData()
      requires Valid()
      ensures Conserved(ledger) && ledger.added == Incoming(taken)
    {
      RunConserves(NoLedger(), taken);
      RunAdds(NoLedger(), taken);
    }

    /** An operation joins the run and its effect the ledger. */
    ghost method Took(s: ListStep<T>)
      requires Accounts(taken, ledger) && CanStep(ledger, s)
      modifies `ledger, `taken
      ensures Accounts(taken, ledger) && ledger == StepList(old(ledger), s)
      ensures taken == old(taken) + [s]
    {
      RunMore(NoLedger(), taken, s);
      ledger, taken := StepList(ledger, s), taken + [s];
    }

    method Add(data: T, dealloc: bool)
      requires Valid()
      modifies Repr
      ensures Valid() && fresh(Repr - old(Repr))
      ensures |nodes| == |old(nodes)| + 1 && nodes[1..] == old(nodes) && nodes[0].dealloc == dealloc
      ensures ledger == old(ledger).Add(data)
    {
      var elem := new Node(data, dealloc);
      var tmp := head;
      head := elem;
      head.next := tmp;
      if tmp != null {
        tmp.prev := head;
      } else {
        tail := head;
      }
      nodes, Repr := [elem] + nodes, Repr + {elem};
      Took(ListStep.Linked(data));
    }

    /** Moves the tail, and the head with it if there is no other node. */
    method DropTail(tmp: Node<T>)
      requires Linked() && tail == tmp
      modifies Repr
      ensures Linked() && Repr == old(Repr) && nodes == Without(old(nodes), |old(nodes)| - 1)
      ensures ledger == old(ledger) && taken == old(taken)
    {
      tail := tmp.prev;
      if tail != null {
        tail.next := null;
      } else {
        head := tail;
      }
      nodes := Without(nodes, |nodes| - 1);
      assert forall i, j :: 0 <= i < j < |nodes| ==> nodes[i] != nodes[j];
    }

    method Remove() returns (err: ListError, data: Option<T>)
      requires Valid()
      modifies Repr
      ensures Valid() && Repr == old(Repr)
      ensures old(Contents()) == [] ==> err == UnavailableResource && data == None && unchanged(old(Repr))
      ensures old(Contents()) != [] ==>
                var last := |old(nodes)| - 1;
                && err == Success && data == Some(old(Contents())[last])
                && nodes == Without(old(nodes), last)
                && ledger == old(ledger).Take(last, true, false)
    {
      if tail == null {
        return UnavailableResource, None;
      }
      var tmp := tail;
      DropTail(tmp);
      Took(Unlinked(|ledger.linked| - 1, true, false));
      return Success, Some(tmp.data);
    }

    method Empty() returns (empty: bool)
      requires Valid()
      ensures empty <==> Contents() == []
    {
      empty := head == null;
    }

    /** Frees the nodes from the head, disposing of each datum that came with a deallocation function;
        gone is the ledger once they are freed. */
    method FreeNodes() returns (ghost gone: Ledger<T>)
      requires Valid()
      modifies `head
      ensures head == null && gone == ledger.Flush(|nodes|, Deallocs(nodes))
    {
      ghost var k, deallocs := 0, Deallocs(nodes);
      gone := ledger;
      while head != null
        invariant k <= |nodes| && head == if k < |nodes| then nodes[k] else null
        invariant gone == ledger.Flush(k, deallocs)
        decreases |nodes| - k
      {
        var tmp := head.next;
        gone := gone.Take(0, false, head.dealloc);
        head := tmp;
        k := k + 1;
      }
    }

    /** linked_list_flush. */
    method Flush()
      requires Valid()
      modifies Repr
      ensures Valid() && Repr == old(Repr) && nodes == []
      ensures ledger == old(ledger).Flush(|old(nodes)|, Deallocs(old(nodes)))
    {
      ghost var deallocs := Deallocs(nodes);
      ghost var gone := FreeNodes();
      tail, nodes := null, [];
      Took(Flushed(deallocs));
    }

    /** Applies the callback to the elements from the head until one matches. */
    method Visited<E>(callback: T ~> Visit<E>)
      returns (tmp: Node?<T>, said: seq<E>, ghost visits: seq<Visit<E>>)
      requires Valid()
      requires forall i {:trigger Contents()[i]} :: 0 <= i < |nodes| ==> callback.requires(Contents()[i])
      ensures |visits| <= |nodes|
      ensures forall i :: 0 <= i < |visits| ==> visits[i] == callback(Contents()[i])
      ensures forall i :: 0 <= i < |visits| - 1 ==> !visits[i].matched
      ensures said == SaidBy(visits)
      ensures tmp != null ==> visits != [] && tmp == nodes[|visits| - 1] && visits[|visits| - 1].matched
      ensures tmp == null ==> |visits| == |nodes| && (visits != [] ==> !visits[|visits| - 1].matched)
    {
      said, visits := [], [];
      tmp := head;
      while tmp != null
        invariant |visits| <= |nodes|
        invariant tmp == if |visits| < |nodes| then nodes[|visits|] else null
        invariant forall i :: 0 <= i < |visits| ==> visits[i] == callback(Contents()[i]) && !visits[i].matched
        invariant said == SaidBy(visits)
        decreases |nodes| - |visits|
      {
        assert tmp.data == Contents()[|visits|];
        var visit := callback(tmp.data);
        SaidByExtend(visits, visit);
        said := said + visit.said;
        visits := visits + [visit];
        if visit.matched {
          return;
        }
        tmp := tmp.next;
      }
    }

    /** Rewrites the neighbours' pointers, or head and tail, around the node at position k. */
    method Unlink(tmp: Node<T>, ghost k: nat)
      requires Linked() && k < |nodes| && nodes[k] == tmp
      modifies Repr
      ensures Linked() && Repr == old(Repr) && nodes == Without(old(nodes), k)
      ensures ledger == old(ledger) && taken == old(taken)
    {
      if tmp.prev == null {
        head := tmp.next;
      } else {
        tmp.prev.next := tmp.next;
      }
      if tmp.next == null {
        tail := tmp.prev;
      } else {
        tmp.next.prev := tmp.prev;
      }
      tmp.prev, tmp.next := null, null;
      nodes := Without(nodes, k);
      assert forall i, j :: 0 <= i < j < |nodes| ==> nodes[i] != nodes[j];
    }

    /** Unlinks a node and accounts for its datum. */
    method Take(tmp: Node<T>, ghost k: nat, copyOut: bool)
      requires Valid() && k < |nodes| && nodes[k] == tmp
      modifies Repr
      ensures Valid() && Repr == old(Repr) && nodes == Without(old(nodes), k)
      ensures ledger == old(ledger).Take(k, copyOut, tmp.dealloc)
    {
      Unlink(tmp, k);
      Took(Unlinked(k, copyOut, tmp.dealloc));
    }

    /** Visits the elements from the head until one matches, and unlinks that one if asked to. */
    method Search<E>(callback: T ~> Visit<E>, copyOut: bool, rmIfFound: bool)
      returns (err: ListError, found: Option<T>, said: seq<E>, ghost visits: seq<Visit<E>>)
      requires Valid()
      requires forall i {:trigger Contents()[i]} :: 0 <= i < |nodes| ==> callback.requires(Contents()[i])
      modifies Repr
      ensures Valid() && Repr == old(Repr)
      ensures err == if old(nodes) == [] then UnavailableResource else Success
      ensures |visits| <= |old(nodes)|
      ensures forall i :: 0 <= i < |visits| ==> visits[i] == old(callback(Contents()[i]))
      ensures forall i :: 0 <= i < |visits| - 1 ==> !visits[i].matched
      ensures said == SaidBy(visits)
      // without a match every element was visited
      ensures visits == [] || !visits[|visits| - 1].matched ==> |visits| == |old(nodes)| && found == None
      ensures visits == [] || !visits[|visits| - 1].matched || !rmIfFound ==> unchanged(old(Repr))
      // a match stops the search; the element is copied out, unlinked, or both
      ensures visits != [] && visits[|visits| - 1].matched ==>
                found == if copyOut then Some(old(Contents())[|visits| - 1]) else None
      ensures visits != [] && visits[|visits| - 1].matched && rmIfFound ==>
                && nodes == Without(old(nodes), |visits| - 1)
                && ledger == old(ledger).Take(|visits| - 1, copyOut, old(nodes)[|visits| - 1].dealloc)
    {
      found, said, visits := None, [], [];
      if tail == null {
        return UnavailableResource, found, said, visits;
      }
      err := Success;
      var tmp;
      tmp, said, visits := Visited(callback);
      if tmp != null {
        if copyOut {
          found := Some(tmp.data);
        }
        if rmIfFound {
          Take(tmp, |visits| - 1, copyOut);
        }
      }
    }
  }
}
