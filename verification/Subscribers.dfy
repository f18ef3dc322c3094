/** Subscribers and notifications of loc_eng_agps.h: who they are, and whom a notification is for. */
module Subscribers {
  import opened Options
  import opened AgpsModel

  const INADDR_NONE: int := 0xFFFF_FFFF
  const IPV6_LENGTH := 16

  /** strncmp(a, b, n) == 0, from position i on. */
  predicate SameText(a: string, b: string, i: nat)
    requires |a| == |b| && i <= |a|
    decreases |a| - i
  {
    i == |a| || (a[i] == b[i] && (a[i] == '\0' || SameText(a, b, i + 1)))
  }

  /** The C string in a buffer, from position i up to a NUL or the end. */
  function Text(a: string, i: nat): string
    requires i <= |a|
    decreases |a| - i
  {
    if i == |a| || a[i] == '\0' then "" else [a[i]] + Text(a, i + 1)
  }

  lemma {:induction false} SameTextIsEquality(a: string, b: string, i: nat)
    requires |a| == |b| && i <= |a|
    ensures SameText(a, b, i) <==> Text(a, i) == Text(b, i)
    decreases |a| - i
  {
    if i < |a| {
      SameTextIsEquality(a, b, i + 1);
      if a[i] != '\0' && b[i] != '\0' {
        assert Text(a, i)[0] == a[i] && Text(b, i)[0] == b[i];
        assert Text(a, i)[1..] == Text(a, i + 1) && Text(b, i)[1..] == Text(b, i + 1);
      }
    }
  }

  /** From position i on, two buffers agree up to position n, where both end, by a NUL or altogether. */
  predicate AgreeUpTo(a: string, b: string, i: nat, n: nat)
    requires |a| == |b|
  {
    i <= n <= |a| && (forall j :: i <= j < n ==> a[j] == b[j]) && (n < |a| ==> a[n] == b[n] == '\0')
  }

  lemma {:induction false} SameTextAgrees(a: string, b: string, i: nat)
    requires |a| == |b| && i <= |a|
    ensures SameText(a, b, i) <==> exists n: nat :: AgreeUpTo(a, b, i, n)
    decreases |a| - i
  {
    assert i == |a| || a[i] == b[i] == '\0' ==> AgreeUpTo(a, b, i, i);
    if i < |a| {
      var next: nat := i + 1;
      SameTextAgrees(a, b, next);
      if a[i] == b[i] {
        if n: nat :| AgreeUpTo(a, b, next, n) {
          assert AgreeUpTo(a, b, i, n);
        }
      }
      if n: nat :| AgreeUpTo(a, b, i, n) && n > i {
        assert AgreeUpTo(a, b, next, n);
      }
    }
  }

  /** What identifies a subscriber; only a BIT subscriber uses the IPv6 buffer. */
  datatype RawIdentity = Identity(kind: Kind, id: int, ipv6: string)
  type Identity = i: RawIdentity | |i.ipv6| == IPV6_LENGTH
    witness Identity(Atl, 0, seq(IPV6_LENGTH, _ => '\0'))

  /** The IPv6 text tells two BIT subscribers apart only when there is no IPv4 address. */
  predicate Equals(a: Identity, b: Identity) {
    a.id == b.id && (a.kind == Bit && a.id == INADDR_NONE ==> SameText(a.ipv6, b.ipv6, 0))
  }

  function KeyOf(a: Identity): Key {
    if a.kind == Bit && a.id == INADDR_NONE then ByIpv6(Text(a.ipv6, 0)) else ById(a.id)
  }

  /** Among subscribers of one kind, being equal is having the same key, so it is an equivalence. */
  lemma EqualsIsSameKey(a: Identity, b: Identity)
    requires a.kind == b.kind
    ensures Equals(a, b) <==> KeyOf(a) == KeyOf(b)
    ensures Equals(a, b)
       <==> a.id == b.id && (a.kind == Bit && a.id == INADDR_NONE ==> exists n: nat :: AgreeUpTo(a.ipv6, b.ipv6, 0, n))
  {
    SameTextAgrees(a.ipv6, b.ipv6, 0);
    SameTextIsEquality(a.ipv6, b.ipv6, 0);
  }

  class Subscriber {
    const who: Identity
    var isInactive: bool

    constructor (who: Identity)
      ensures this.who == who && !isInactive
    {
      this.who, this.isInactive := who, false;
    }

    /** A clone is always active. */
    method Clone() returns (c: Subscriber)
      ensures fresh(c) && c.who == who && !c.isInactive
    {
      c := new Subscriber(who);
    }
  }

  datatype Group = BroadcastAll | BroadcastActive | BroadcastInactive

  /** The receiver is kept by value: the source keeps a pointer to a subscriber that it may already
      have deleted. Without a receiver the notification is a broadcast to a group. */
  datatype Notification = Notification(rcver: Option<Identity>, group: Group, status: Status, postNotifyDelete: bool)

  predicate NotificationForMe(n: Notification, who: Identity, isInactive: bool) {
    if n.rcver.Some? then Equals(who, n.rcver.value)
    else n.group == BroadcastAll || (n.group == BroadcastActive && !isInactive)
         || (n.group == BroadcastInactive && isInactive)
  }

  function TargetOf(n: Notification): Target {
    if n.rcver.Some? then One(KeyOf(n.rcver.value))
    else match n.group
      case BroadcastAll => All
      case BroadcastActive => ActiveOnly
      case BroadcastInactive => InactiveOnly
  }

  lemma ForMeIsTarget(n: Notification, who: Identity, isInactive: bool)
    requires n.rcver.Some? ==> n.rcver.value.kind == who.kind
    ensures NotificationForMe(n, who, isInactive) == ForMe(Client(KeyOf(who), isInactive), TargetOf(n))
  {
    if n.rcver.Some? {
      EqualsIsSameKey(who, n.rcver.value);
    }
  }

  function ClientOf(s: Subscriber): Client
    reads s
  {
    Client(KeyOf(s.who), s.isInactive)
  }

  ghost function ClientsOf(ss: seq<Subscriber>): (cs: seq<Client>)
    reads ss
    ensures |cs| == |ss|
    ensures forall i :: 0 <= i < |ss| ==> cs[i] == ClientOf(ss[i])
  {
    seq(|ss|, i requires 0 <= i < |ss| reads ss => ClientOf(ss[i]))
  }
}
