/** The table of adapters of LocApiBase: an array whose scans all stop at the first null, so that every one
    of them relies on there being no hole before the last adapter. */
module AdapterTable {
  const MAX_ADAPTERS: nat := 10

  /** A 32-bit event mask, as the set of its bits. */
  type EventMask = m: set<nat> | forall b :: b in m ==> b < 32

  class LocAdapter {
    const mEvtMask: EventMask
    var inSession: bool

    constructor (mask: EventMask) {
      mEvtMask, inSession := mask, false;
    }
  }

  /** What is asked of the modem: events opened (by a message), or the session closed. */
  datatype Effect = Open(mask: EventMask) | Close

  // ---------- tables as sequences ----------

  predicate Distinct(s: seq<LocAdapter>) {
    forall i, j :: 0 <= i < j < |s| ==> s[i] != s[j]
  }

  predicate TableInv(s: seq<LocAdapter>) {
    Distinct(s) && |s| <= MAX_ADAPTERS
  }

  function Union(s: seq<LocAdapter>): EventMask {
    if s == [] then {} else Union(s[..|s| - 1]) + s[|s| - 1].mEvtMask
  }

  function EvtMask(s: seq<LocAdapter>, excluded: EventMask): EventMask {
    Union(s) - excluded
  }

  function Added(s: seq<LocAdapter>, a: LocAdapter): seq<LocAdapter> {
    if a in s || |s| == MAX_ADAPTERS then s else s + [a]
  }

  function IndexOf(s: seq<LocAdapter>, a: LocAdapter): (i: nat)
    requires a in s
    ensures i < |s| && s[i] == a
  {
    if s[|s| - 1] == a then |s| - 1 else IndexOf(s[..|s| - 1], a)
  }

  /** The last adapter takes the place of the one removed. */
  function Removed(s: seq<LocAdapter>, a: LocAdapter): seq<LocAdapter> {
    if a !in s then s else
      var n := |s| - 1;
      s[IndexOf(s, a) := s[n]][..n]
  }

  datatype Op = Add(adapter: LocAdapter) | Remove(adapter: LocAdapter)

  function After(s: seq<LocAdapter>, op: Op): seq<LocAdapter> {
    match op
    case Add(a) => Added(s, a)
    case Remove(a) => Removed(s, a)
  }

  function Effects(s: seq<LocAdapter>, op: Op, excluded: EventMask): seq<Effect> {
    var t := After(s, op);
    if t == s then []
    else match op
      case Add(a) => [Open(a.mEvtMask)]
      case Remove(_) => if t == [] then [Close] else [Open(EvtMask(t, excluded))]
  }

  function Run(ops: seq<Op>): seq<LocAdapter> {
    if ops == [] then [] else After(Run(ops[..|ops| - 1]), ops[|ops| - 1])
  }

  lemma RunNext(ops: seq<Op>, op: Op)
    ensures Run(ops + [op]) == After(Run(ops), op)
  {
    assert (ops + [op])[..|ops|] == ops;
  }

  // ---------- what they keep ----------

  /** Removing deletes exactly the given adapter. */
  lemma RemovesExactly(s: seq<LocAdapter>, a: LocAdapter)
    requires Distinct(s)
    ensures Distinct(Removed(s, a)) && |Removed(s, a)| == if a in s then |s| - 1 else |s|
    ensures forall x :: x in Removed(s, a) <==> x in s && x != a
  {
    if a in s {
      var t, n, j := Removed(s, a), |s| - 1, IndexOf(s, a);
      forall x | x in s && x != a ensures x in t {
        var i :| 0 <= i < |s| && s[i] == x;
        assert if i == n then t[j] == x else t[i] == x;
      }
    }
  }

  lemma StepKeepsInv(s: seq<LocAdapter>, op: Op)
    requires TableInv(s)
    ensures TableInv(After(s, op))
    ensures forall x :: x in After(s, op) <==>
      match op
      case Add(a) => x in s || (x == a && |s| < MAX_ADAPTERS)
      case Remove(a) => x in s && x != a
  {
    if op.Remove? {
      RemovesExactly(s, op.adapter);
    }
  }

  /** An add that is accepted at i, and is the last word on its adapter. */
  predicate Stands(ops: seq<Op>, x: LocAdapter, i: nat) {
    && i < |ops| && ops[i] == Add(x) && (x in Run(ops[..i]) || |Run(ops[..i])| < MAX_ADAPTERS)
    && forall k :: i < k < |ops| ==> ops[k] != Remove(x)
  }

  /** Over any run, the table holds no adapter twice and no more than it has room for, and it holds exactly
      the adapters that were added while there was room and have not been removed since. */
  lemma {:induction false} RunKeepsInv(ops: seq<Op>, x: LocAdapter)
    ensures TableInv(Run(ops))
    ensures x in Run(ops) <==> exists i: nat :: Stands(ops, x, i)
  {
    if ops != [] {
      var n := |ops| - 1;
      var before, op := ops[..n], ops[n];
      RunKeepsInv(before, x);
      StepKeepsInv(Run(before), op);
      forall i: nat | i < n ensures Stands(ops, x, i) <==> Stands(before, x, i) && op != Remove(x) {
        assert ops[..i] == before[..i];
      }
      if x in Run(before) && op != Remove(x) {
        var i: nat :| Stands(before, x, i);
        assert Stands(ops, x, i);
      }
      assert op == Add(x) && x in Run(ops) ==> Stands(ops, x, n);
    }
  }

  /** Adding opens the adapter's own events if it is new and there is room for a tenth adapter, and does nothing
      otherwise. */
  lemma AdditionEffects(s: seq<LocAdapter>, a: LocAdapter, excluded: EventMask)
    requires TableInv(s)
    ensures Effects(s, Add(a), excluded) == if a !in s && |s| < 10 then [Open(a.mEvtMask)] else []
    ensures After(s, Add(a)) == s || (After(s, Add(a)) == s + [a] && a !in s && |s| < 10)
  {
    assert |s + [a]| == |s| + 1;
  }

  /** The union has the events that some adapter wants. */
  lemma {:induction false} UnionIsUnion(s: seq<LocAdapter>, event: nat)
    ensures event in Union(s) <==> exists i :: 0 <= i < |s| && event in s[i].mEvtMask
  {
    if s != [] {
      UnionIsUnion(s[..|s| - 1], event);
    }
  }

  /** The session is closed exactly when the last adapter goes; otherwise a removal opens exactly the
      events that some remaining adapter wants and that are not excluded. */
  lemma RemovalEffects(s: seq<LocAdapter>, a: LocAdapter, excluded: EventMask)
    requires Distinct(s)
    ensures a !in s ==> Effects(s, Remove(a), excluded) == []
    ensures Effects(s, Remove(a), excluded) == [Close] <==> s == [a]
    ensures a in s && s != [a] ==> exists mask: EventMask ::
      Effects(s, Remove(a), excluded) == [Open(mask)] &&
      forall event :: event in mask <==>
        event !in excluded && exists x :: x in s && x != a && event in x.mEvtMask
  {
    RemovesExactly(s, a);
    var t := Removed(s, a);
    assert a in s ==> |t| == |s| - 1;
    assert a in s && |s| == 1 ==> s == [a];
    forall event ensures event in Union(t) <==> exists x :: x in s && x != a && event in x.mEvtMask {
      UnionIsUnion(t, event);
      assert forall i :: 0 <= i < |t| ==> t[i] in t;
    }
  }

  // ---------- the class ----------

  class LocApiBase {
    const mLocAdapters: array<LocAdapter?>
    const mExcludedMask: EventMask
    var effects: seq<Effect>
    ghost var table: seq<LocAdapter>
    ghost var ops: seq<Op>  // every operation so far

    /** The table fills the array up to its first null. */
    ghost predicate Sound()
      reads this, mLocAdapters
    {
      && mLocAdapters.Length == MAX_ADAPTERS && TableInv(table)
      && (forall i :: 0 <= i < |table| ==> mLocAdapters[i] == table[i])
      && (forall i :: |table| <= i < MAX_ADAPTERS ==> mLocAdapters[i] == null)
    }

    /** And it is what the operations so far make of it. */
    ghost predicate Valid()
      reads this, mLocAdapters
    {
      Sound() && table == Run(ops)
    }

    /** So an adapter is in the table exactly if it was added while there was room and not removed since. */
    lemma HoldsWhoStands(x: LocAdapter)
      requires Valid()
      ensures x in table <==> exists i: nat :: Stands(ops, x, i)
    {
      RunKeepsInv(ops, x);
    }

    constructor (excludedMask: EventMask)
      ensures Valid() && table == [] && ops == [] && effects == [] && fresh(mLocAdapters) && mExcludedMask == excludedMask
    {
      mLocAdapters := new LocAdapter?[MAX_ADAPTERS](_ => null);
      mExcludedMask, effects, table, ops := excludedMask, [], [], [];
    }

    method GetEvtMask() returns (mask: EventMask)
      requires Sound()
      ensures mask == EvtMask(table, mExcludedMask)
    {
      mask := {};
      var i := 0;
      while i < MAX_ADAPTERS && mLocAdapters[i] != null
        invariant 0 <= i <= |table| && mask == Union(table[..i])
        decreases MAX_ADAPTERS - i
      {
        assert table[..i + 1][..i] == table[..i];
        mask := mask + mLocAdapters[i].mEvtMask;
        i := i + 1;
      }
      assert table[..i] == table;
      mask := mask - mExcludedMask;
    }

    method IsInSession() returns (inSession: bool)
      requires Sound()
      ensures inSession <==> exists a :: a in table && a.inSession
    {
      inSession := false;
      var i := 0;
      while !inSession && i < MAX_ADAPTERS && mLocAdapters[i] != null
        invariant 0 <= i <= |table| && (inSession <==> exists a :: a in table[..i] && a.inSession)
        decreases MAX_ADAPTERS - i, !inSession
      {
        assert table[..i + 1] == table[..i] + [table[i]];
        inSession := mLocAdapters[i].inSession;
        i := i + 1;
      }
      assert !inSession ==> table[..i] == table;
    }

    /** The scan that stops at the adapter or at the first null. */
    method Insert(adapter: LocAdapter)
      requires Sound()
      modifies `table, `effects, mLocAdapters
      ensures Sound() && table == After(old(table), Add(adapter))
      ensures effects == old(effects) + Effects(old(table), Add(adapter), mExcludedMask)
    {
      var i := 0;
      while i < MAX_ADAPTERS && mLocAdapters[i] != adapter
        invariant 0 <= i <= |table| && adapter !in table[..i]
        invariant Sound() && table == old(table) && effects == old(effects)
        decreases MAX_ADAPTERS - i
      {
        if mLocAdapters[i] == null {
          mLocAdapters[i] := adapter;
          table := table + [adapter];
          effects := effects + [Open(adapter.mEvtMask)];
          break;
        }
        assert table[..i + 1] == table[..i] + [table[i]];
        i := i + 1;
      }
    }

    method AddAdapter(adapter: LocAdapter)
      requires Valid()
      modifies this, mLocAdapters
      ensures Valid() && table == After(old(table), Add(adapter)) && ops == old(ops) + [Add(adapter)]
      ensures effects == old(effects) + Effects(old(table), Add(adapter), mExcludedMask)
    {
      Insert(adapter);
      RunNext(ops, Add(adapter));
      ops := ops + [Add(adapter)];
    }

    /** The last adapter moves to j, where the given one was; i is where it came from. */
    method MoveLast(j: nat, adapter: LocAdapter) returns (i: nat)
      requires Sound() && j < |table| && table[j] == adapter
      modifies `table, `effects, mLocAdapters
      ensures Sound() && table == Removed(old(table), adapter)
      ensures i == |table|
      ensures effects == old(effects) + Effects(old(table), Remove(adapter), mExcludedMask)
    {
      mLocAdapters[j] := null;
      i := j + 1;
      while i < MAX_ADAPTERS && mLocAdapters[i] != null
        invariant j < i <= |table|
        decreases MAX_ADAPTERS - i
      {
        i := i + 1;
      }
      i := i - 1;
      mLocAdapters[j] := mLocAdapters[i];
      mLocAdapters[i] := null;
      RemovesExactly(table, adapter);
      assert IndexOf(table, adapter) == j;
      table := Removed(table, adapter);
      if i == 0 {
        effects := effects + [Close];
      } else {
        var mask := GetEvtMask();
        effects := effects + [Open(mask)];
      }
    }

    /** The scan for the adapter, which ends behind the last one. */
    method Delete(adapter: LocAdapter)
      requires Sound()
      modifies `table, `effects, mLocAdapters
      ensures Sound() && table == After(old(table), Remove(adapter))
      ensures effects == old(effects) + Effects(old(table), Remove(adapter), mExcludedMask)
    {
      ghost var removed := false;
      var i := 0;
      while i < MAX_ADAPTERS && mLocAdapters[i] != null
        invariant Sound() && 0 <= i <= MAX_ADAPTERS
        invariant !removed ==> i <= |table| && adapter !in table[..i] && table == old(table) && effects == old(effects)
        invariant removed ==> |table| <= i && table == Removed(old(table), adapter)
        invariant removed ==> effects == old(effects) + Effects(old(table), Remove(adapter), mExcludedMask)
        decreases MAX_ADAPTERS - i
      {
        if mLocAdapters[i] == adapter {
          i := MoveLast(i, adapter);
          removed := true;
        } else if !removed {
          assert table[..i + 1] == table[..i] + [table[i]];
        }
        i := i + 1;
      }
      assert !removed ==> table[..i] == table;
    }

    method RemoveAdapter(adapter: LocAdapter)
      requires Valid()
      modifies this, mLocAdapters
      ensures Valid() && table == After(old(table), Remove(adapter)) && ops == old(ops) + [Remove(adapter)]
      ensures effects == old(effects) + Effects(old(table), Remove(adapter), mExcludedMask)
    {
      Delete(adapter);
      RunNext(ops, Remove(adapter));
      ops := ops + [Remove(adapter)];
    }
  }
}
