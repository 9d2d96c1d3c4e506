/** Handing out subnets of a cluster network, and addresses of a subnet. */
module Ipam {
  import opened Arithmetic
  import opened Model

  const ADDRESSES: nat := 0x1_0000_0000

  function Pow2(n: nat): (p: nat)
    ensures p > 0
  {
    if n == 0 then 1 else 2 * Pow2(n - 1)
  }

  lemma {:induction false} Pow2Sum(a: nat, b: nat)
    ensures Pow2(a + b) == Pow2(a) * Pow2(b)
  {
    if a > 0 {
      Pow2Sum(a - 1, b);
      assert a + b - 1 == (a - 1) + b;
      Doubled(Pow2(a - 1), Pow2(b));
    }
  }

  lemma Doubled(x: nat, y: nat)
    ensures 2 * (x * y) == (2 * x) * y
  {
  }

  predicate ValidNet(n: Ipv4Net) { n.addr < ADDRESSES && n.prefixLen <= 32 }

  /** How many addresses a network has. */
  function Size(prefixLen: nat): (s: nat)
    requires prefixLen <= 32
    ensures s > 0
  {
    Pow2(32 - prefixLen)
  }

  /** The largest multiple of `size` up to `x`. */
  function Floor(x: nat, size: nat): (f: nat)
    requires size > 0
    ensures f == size * (x / size) && f <= x < f + size
  {
    assert x == size * (x / size) + x % size;
    x - x % size
  }

  function Network(n: Ipv4Net): nat
    requires ValidNet(n)
  {
    Floor(n.addr, Size(n.prefixLen))
  }

  function Broadcast(n: Ipv4Net): nat
    requires ValidNet(n)
  {
    Network(n) + Size(n.prefixLen) - 1
  }

  predicate Canonical(n: Ipv4Net) { ValidNet(n) && n.addr % Size(n.prefixLen) == 0 }

  predicate Covers(n: Ipv4Net, ip: nat)
    requires ValidNet(n)
  {
    Network(n) <= ip <= Broadcast(n)
  }

  ghost predicate Inside(a: Ipv4Net, b: Ipv4Net)
    requires ValidNet(a) && ValidNet(b)
  {
    forall ip: nat :: Covers(a, ip) ==> Covers(b, ip)
  }

  ghost predicate Disjoint(a: Ipv4Net, b: Ipv4Net)
    requires ValidNet(a) && ValidNet(b)
  {
    forall ip: nat :: !(Covers(a, ip) && Covers(b, ip))
  }

  /** Two canonical networks of one length are the same or disjoint. */
  lemma CanonicalDisjoint(a: Ipv4Net, b: Ipv4Net)
    requires Canonical(a) && Canonical(b) && a.prefixLen == b.prefixLen && a != b
    ensures Disjoint(a, b)
  {
    var s := Size(a.prefixLen);
    forall ip: nat ensures !(Covers(a, ip) && Covers(b, ip)) {
      if Covers(a, ip) && Covers(b, ip) {
        MultipleOf(a.addr, s);
        MultipleOf(b.addr, s);
        DivModOf(ip, s, a.addr / s, ip - a.addr);
        DivModOf(ip, s, b.addr / s, ip - b.addr);
        assert false;
      }
    }
  }

  lemma MultipleOf(x: nat, k: nat)
    requires k > 0 && x % k == 0
    ensures x == k * (x / k)
  {
  }

  // ---------------------------------------------------------------------------
  // Subnets of a cluster
  // ---------------------------------------------------------------------------

  /** The `k`-th subnet the allocator tries. */
  function Candidate(cluster: Ipv4Net, prefixLen: nat, k: nat): Ipv4Net
    requires ValidNet(cluster) && prefixLen <= 32
  {
    Ipv4Net(Network(cluster) + k * Size(prefixLen), prefixLen)
  }

  /** Candidate `k` starts before the cluster's last address. */
  ghost predicate Tried(cluster: Ipv4Net, prefixLen: nat, k: nat)
    requires ValidNet(cluster) && prefixLen <= 32
  {
    Candidate(cluster, prefixLen, k).addr < Broadcast(cluster)
  }

  /** `subnet` is candidate `k`, and the first that is not taken. */
  ghost predicate Picks(cluster: Ipv4Net, prefixLen: nat, subnet: Ipv4Net, k: nat, taken: set<Ipv4Net>)
    requires ValidNet(cluster) && prefixLen <= 32
  {
    && subnet == Candidate(cluster, prefixLen, k) && Tried(cluster, prefixLen, k) && subnet !in taken
    && forall i: nat :: i < k ==> Candidate(cluster, prefixLen, i) in taken
  }

  /** `Overflowed` is an address computation beyond 32 bits. */
  datatype Allocated<T> = Given(value: T) | Exhausted | Overflowed

  class Allocator {
    const cluster: Ipv4Net
    const prefixLen: nat
    var reserved: set<Ipv4Net>

    ghost predicate Valid()
      reads this
    {
      ValidNet(cluster) && 1 <= prefixLen <= 32
    }

    constructor (cluster: Ipv4Net, prefixLen: nat, reserved: set<Ipv4Net>)
      requires ValidNet(cluster) && 1 <= prefixLen <= 32
      ensures Valid() && this.cluster == cluster && this.prefixLen == prefixLen && this.reserved == reserved
    {
      this.cluster, this.prefixLen, this.reserved := cluster, prefixLen, reserved;
    }

    /** The first candidate that is not taken; failing that, every candidate is taken. */
    method Allocate() returns (r: Allocated<Ipv4Net>)
      requires Valid()
      modifies this
      ensures r.Given? ==> reserved == old(reserved) + {r.value}
      ensures r.Given? ==> exists k: nat :: Picks(cluster, prefixLen, r.value, k, old(reserved))
      ensures !r.Given? ==> reserved == old(reserved)
      ensures !r.Given? ==> forall k: nat :: Tried(cluster, prefixLen, k) ==>
        Candidate(cluster, prefixLen, k) in reserved
      ensures r.Overflowed? && cluster.prefixLen <= prefixLen ==> Broadcast(cluster) == ADDRESSES - 1
      ensures r.Exhausted? && cluster.prefixLen <= prefixLen <= 31 ==> Broadcast(cluster) < ADDRESSES - 1
    {
      var start, end, step := Network(cluster), Broadcast(cluster), Size(prefixLen);
      Tiling(cluster, cluster.prefixLen);
      var addr := start;
      ghost var k: nat := 0;
      while addr < end
        invariant addr == start + k * step < ADDRESSES
        invariant forall i: nat :: i < k ==> Candidate(cluster, prefixLen, i) in reserved
        invariant reserved == old(reserved)
        decreases end - addr
      {
        var subnet := Ipv4Net(addr, prefixLen);
        if subnet !in reserved {
          assert Picks(cluster, prefixLen, subnet, k, reserved);
          reserved := reserved + {subnet};
          return Given(subnet);
        }
        NextMultiple(k, step);
        if addr + step >= ADDRESSES {
          if cluster.prefixLen <= prefixLen { NextStaysInside(cluster, prefixLen, k); }
          StopsBefore(start, end, step, k + 1);
          return Overflowed;
        }
        addr := addr + step;
        k := k + 1;
      }
      if cluster.prefixLen <= prefixLen <= 31 { LastIsPastEnd(cluster, prefixLen, k); }
      StopsBefore(start, end, step, k);
      return Exhausted;
    }
  }

  lemma NextMultiple(k: nat, step: nat)
    ensures (k + 1) * step == k * step + step
  {
  }

  /** Candidates come in ascending order, so past the end there are no more. */
  lemma StopsBefore(start: nat, end: nat, step: nat, n: nat)
    requires step > 0 && start + n * step >= end
    ensures forall k: nat :: start + k * step < end ==> k < n
  {
    forall k: nat | start + k * step < end ensures k < n {
      if k >= n { MonotoneProduct(n, k, step); }
    }
  }

  lemma MonotoneProduct(a: nat, b: nat, step: nat)
    requires a <= b
    ensures a * step <= b * step
  {
  }

  /** Subnets that are no larger than the cluster tile it. */
  lemma Tiling(cluster: Ipv4Net, prefixLen: nat)
    requires ValidNet(cluster) && cluster.prefixLen <= prefixLen <= 32
    ensures Size(cluster.prefixLen) == Pow2(prefixLen - cluster.prefixLen) * Size(prefixLen)
    ensures Network(cluster) % Size(prefixLen) == 0
    ensures Broadcast(cluster) < ADDRESSES
  {
    hide Pow2;
    Pow2Sum(prefixLen - cluster.prefixLen, 32 - prefixLen);
    FloorDivides(cluster.addr, Pow2(prefixLen - cluster.prefixLen), Size(prefixLen));
    Pow2Sum(cluster.prefixLen, 32 - cluster.prefixLen);
    EndsInside(Size(cluster.prefixLen), Pow2(cluster.prefixLen), cluster.addr);
  }

  lemma FloorDivides(x: nat, n: nat, s: nat)
    requires n * s > 0 && s > 0
    ensures Floor(x, n * s) % s == 0
  {
    var q := x / (n * s);
    Regroup(n, s, q);
    DivModOf(Floor(x, n * s), s, n * q, 0);
  }

  lemma Regroup(n: nat, s: nat, q: nat)
    ensures (n * s) * q == s * (n * q)
  {
  }

  lemma AllAddresses()
    ensures Pow2(32) == ADDRESSES
  {
    assert Pow2(8) == 256;
    Pow2Sum(8, 8);
    Pow2Sum(16, 16);
  }

  lemma EndsInside(size: nat, count: nat, addr: nat)
    requires size > 0 && addr < ADDRESSES && Pow2(32) == count * size
    ensures Floor(addr, size) + size <= ADDRESSES
  {
    AllAddresses();
    var q := addr / size;
    if q >= count { MonotoneProduct(count, q, size); }
    MonotoneProduct(q + 1, count, size);
    assert (q + 1) * size == size * q + size;
  }

  /** How many candidates there are: as many as fit, but the last single address is never tried. */
  function CandidateCount(cluster: Ipv4Net, prefixLen: nat): nat
    requires cluster.prefixLen <= prefixLen
  {
    if prefixLen == 32 then Pow2(prefixLen - cluster.prefixLen) - 1 else Pow2(prefixLen - cluster.prefixLen)
  }

  lemma TriedExactly(a: Allocator, k: nat)
    requires a.Valid() && a.cluster.prefixLen <= a.prefixLen
    ensures Tried(a.cluster, a.prefixLen, k) <==> k < CandidateCount(a.cluster, a.prefixLen)
  {
    hide Pow2, Size, Floor;
    Tiling(a.cluster, a.prefixLen);
    TriedArithmetic(k, Pow2(a.prefixLen - a.cluster.prefixLen), Size(a.prefixLen));
    StepSize(a.prefixLen);
  }

  lemma StepSize(prefixLen: nat)
    requires prefixLen <= 32
    ensures if prefixLen == 32 then Size(prefixLen) == 1 else Size(prefixLen) >= 2
  {
  }

  lemma TriedArithmetic(k: nat, n: nat, s: nat)
    requires s > 0 && n > 0
    ensures s == 1 ==> (k * s < n * s - 1 <==> k < n - 1)
    ensures s >= 2 ==> (k * s < n * s - 1 <==> k < n)
  {
    if k < n {
      MonotoneProduct(k + 1, n, s);
      assert (k + 1) * s == k * s + s;
    } else {
      MonotoneProduct(n, k, s);
    }
  }

  lemma NextStaysInside(cluster: Ipv4Net, prefixLen: nat, k: nat)
    requires ValidNet(cluster) && cluster.prefixLen <= prefixLen <= 32
    requires Candidate(cluster, prefixLen, k).addr < Broadcast(cluster)
    ensures Candidate(cluster, prefixLen, k).addr + Size(prefixLen) <= Broadcast(cluster) + 1 <= ADDRESSES
  {
    hide Pow2, Size, Floor;
    Tiling(cluster, prefixLen);
    TriedArithmetic(k, Pow2(prefixLen - cluster.prefixLen), Size(prefixLen));
    ProductStep(k, Pow2(prefixLen - cluster.prefixLen), Size(prefixLen));
  }

  lemma ProductStep(k: nat, n: nat, s: nat)
    requires k < n
    ensures k * s + s <= n * s
  {
    MonotoneProduct(k + 1, n, s);
    assert (k + 1) * s == k * s + s;
  }

  lemma LastIsPastEnd(cluster: Ipv4Net, prefixLen: nat, k: nat)
    requires ValidNet(cluster) && cluster.prefixLen <= prefixLen <= 31
    requires Candidate(cluster, prefixLen, k).addr >= Broadcast(cluster)
    ensures Candidate(cluster, prefixLen, k).addr > Broadcast(cluster)
  {
    hide Pow2, Size, Floor;
    Tiling(cluster, prefixLen);
    StepSize(prefixLen);
    TriedArithmetic(k, Pow2(prefixLen - cluster.prefixLen), Size(prefixLen));
    MonotoneProduct(Pow2(prefixLen - cluster.prefixLen), k, Size(prefixLen));
  }

  lemma MultipleOn(x: nat, k: nat, s: nat)
    requires s > 0 && x % s == 0
    ensures (x + k * s) % s == 0 && Floor(x + k * s, s) == x + k * s
  {
    var q := x / s;
    MultipleOf(x, s);
    assert x + k * s == s * (q + k);
    DivModOf(x + k * s, s, q + k, 0);
  }

  /** Each candidate is canonical and lies in the cluster. */
  lemma CandidateInside(cluster: Ipv4Net, prefixLen: nat, k: nat)
    requires ValidNet(cluster) && cluster.prefixLen <= prefixLen <= 32 && k < Pow2(prefixLen - cluster.prefixLen)
    ensures var c := Candidate(cluster, prefixLen, k); Canonical(c) && Inside(c, cluster) && Network(c) == c.addr
  {
    hide Pow2, Size, Floor;
    Tiling(cluster, prefixLen);
    ProductStep(k, Pow2(prefixLen - cluster.prefixLen), Size(prefixLen));
    MultipleOn(Network(cluster), k, Size(prefixLen));
  }

  /** Every subnet handed out lies in the cluster exactly when subnets are no larger than the cluster. */
  lemma InsideExact(cluster: Ipv4Net, prefixLen: nat, k: nat)
    requires ValidNet(cluster) && 1 <= prefixLen <= 32 && Candidate(cluster, prefixLen, k).addr < Broadcast(cluster)
    ensures Broadcast(cluster) < ADDRESSES
    ensures Inside(Candidate(cluster, prefixLen, k), cluster) <==> cluster.prefixLen <= prefixLen
  {
    Tiling(cluster, cluster.prefixLen);
    var c := Candidate(cluster, prefixLen, k);
    if cluster.prefixLen <= prefixLen {
      Tiling(cluster, prefixLen);
      TriedArithmetic(k, Pow2(prefixLen - cluster.prefixLen), Size(prefixLen));
      CandidateInside(cluster, prefixLen, k);
    } else {
      Pow2Grows(32 - cluster.prefixLen, 32 - prefixLen);
      assert Covers(c, Network(c)) && Covers(c, Broadcast(c));
      assert !(Covers(cluster, Network(c)) && Covers(cluster, Broadcast(c)));
    }
  }

  lemma {:induction false} Pow2Grows(a: nat, b: nat)
    requires a < b
    ensures Pow2(a) < Pow2(b)
  {
    if b > a + 1 { Pow2Grows(a, b - 1); }
  }

  /** Prior allocations of the same length, all canonical. */
  ghost predicate Uniform(nets: set<Ipv4Net>, prefixLen: nat) {
    forall n :: n in nets ==> Canonical(n) && n.prefixLen == prefixLen
  }

  /**
   * A run of allocations in a cluster that ends below the last IPv4 address: what it hands out lies
   * in the cluster and is disjoint from everything handed out or taken before, and it stops early
   * exactly when every subnet of the cluster is taken.
   */
  method AllocateMany(a: Allocator, wanted: nat) returns (nets: seq<Ipv4Net>)
    requires a.Valid() && a.cluster.prefixLen <= a.prefixLen <= 31 && Broadcast(a.cluster) < ADDRESSES - 1
    requires Uniform(a.reserved, a.prefixLen)
    modifies a
    ensures |nets| <= wanted && a.reserved == old(a.reserved) + set n | n in nets
    ensures Uniform(a.reserved, a.prefixLen)
    ensures forall i :: 0 <= i < |nets| ==> ValidNet(nets[i]) && Inside(nets[i], a.cluster)
    ensures forall i, j :: 0 <= i < j < |nets| ==> Disjoint(nets[i], nets[j])
    ensures forall i, p :: 0 <= i < |nets| && p in old(a.reserved) ==> Disjoint(nets[i], p)
    ensures |nets| < wanted ==>
      forall k: nat :: k < Pow2(a.prefixLen - a.cluster.prefixLen) ==>
        Candidate(a.cluster, a.prefixLen, k) in a.reserved
  {
    nets := [];
    while |nets| < wanted
      invariant |nets| <= wanted && a.reserved == old(a.reserved) + set n | n in nets
      invariant Uniform(a.reserved, a.prefixLen)
      invariant forall i :: 0 <= i < |nets| ==> nets[i] in a.reserved && ValidNet(nets[i]) && Inside(nets[i], a.cluster)
      invariant forall i, j :: 0 <= i < j < |nets| ==> Disjoint(nets[i], nets[j])
      invariant forall i, p :: 0 <= i < |nets| && p in old(a.reserved) ==> Disjoint(nets[i], p)
      decreases wanted - |nets|
    {
      ghost var taken := a.reserved;
      var r := a.Allocate();
      if !r.Given? {
        AllTaken(a);
        return;
      }
      FreshIsDisjoint(a, r.value, taken);
      nets := nets + [r.value];
    }
  }

  lemma AllTaken(a: Allocator)
    requires a.Valid() && a.cluster.prefixLen <= a.prefixLen <= 31
    requires forall k: nat :: Tried(a.cluster, a.prefixLen, k) ==> Candidate(a.cluster, a.prefixLen, k) in a.reserved
    ensures forall k: nat :: k < Pow2(a.prefixLen - a.cluster.prefixLen) ==>
      Candidate(a.cluster, a.prefixLen, k) in a.reserved
  {
    forall k: nat | k < Pow2(a.prefixLen - a.cluster.prefixLen)
      ensures Candidate(a.cluster, a.prefixLen, k) in a.reserved
    {
      TriedExactly(a, k);
    }
  }

  lemma FreshIsDisjoint(a: Allocator, subnet: Ipv4Net, taken: set<Ipv4Net>)
    requires a.Valid() && a.cluster.prefixLen <= a.prefixLen && Uniform(taken, a.prefixLen)
    requires exists k: nat :: Picks(a.cluster, a.prefixLen, subnet, k, taken)
    ensures Canonical(subnet) && subnet.prefixLen == a.prefixLen && subnet !in taken && Inside(subnet, a.cluster)
    ensures forall p :: p in taken ==> Disjoint(subnet, p) && Disjoint(p, subnet)
  {
    var k: nat :| Picks(a.cluster, a.prefixLen, subnet, k, taken);
    TriedExactly(a, k);
    CandidateInside(a.cluster, a.prefixLen, k);
    forall p | p in taken ensures Disjoint(subnet, p) && Disjoint(p, subnet) {
      CanonicalDisjoint(subnet, p);
      CanonicalDisjoint(p, subnet);
    }
  }

  // ---------------------------------------------------------------------------
  // Addresses of a subnet
  // ---------------------------------------------------------------------------

  function MachineIp(subnet: Ipv4Net): nat
    requires ValidNet(subnet)
  {
    Network(subnet) + 1
  }

  function ContainerIp(subnet: Ipv4Net): nat
    requires ValidNet(subnet)
  {
    Network(subnet) + 2
  }

  const FIRST_OFFSET: nat := 3
  const OFFSETS_END: nat := 255

  /** The addresses of a subnet that go to containers. */
  ghost predicate Pooled(subnet: Ipv4Net, ip: nat)
    requires ValidNet(subnet)
  {
    Network(subnet) + FIRST_OFFSET <= ip < Network(subnet) + OFFSETS_END
  }

  /** `reply` is the lowest pooled address that is not taken, or there is none. */
  ghost predicate Granted(subnet: Ipv4Net, taken: set<nat>, reply: Option<nat>)
    requires ValidNet(subnet)
  {
    match reply
    case Some(ip) =>
      && Pooled(subnet, ip) && ip < ADDRESSES && ip !in taken
      && forall lower: nat :: Pooled(subnet, lower) && lower < ip ==> lower in taken
    case None => forall ip: nat :: Pooled(subnet, ip) && ip < ADDRESSES ==> ip in taken
  }

  class SubnetIpam {
    const subnet: Ipv4Net
    var reserved: set<nat>

    constructor (subnet: Ipv4Net, existing: set<nat>)
      ensures this.subnet == subnet && reserved == existing
    {
      this.subnet, reserved := subnet, existing;
    }

    /** The lowest pooled address that is free; failing that, every pooled 32-bit address is taken. */
    method Allocate() returns (r: Allocated<nat>)
      requires ValidNet(subnet)
      modifies this
      ensures Granted(subnet, old(reserved), if r.Given? then Some(r.value) else None)
      ensures reserved == if r.Given? then old(reserved) + {r.value} else old(reserved)
      ensures !r.Given? ==> (r.Overflowed? <==> Network(subnet) + OFFSETS_END > ADDRESSES)
    {
      var base := Network(subnet);
      for offset := FIRST_OFFSET to OFFSETS_END
        invariant reserved == old(reserved) && base + offset <= ADDRESSES + FIRST_OFFSET
        invariant offset > FIRST_OFFSET ==> base + offset <= ADDRESSES
        invariant forall ip :: base + FIRST_OFFSET <= ip < base + offset ==> ip in reserved
      {
        if base + offset >= ADDRESSES {
          return Overflowed;
        }
        var ip := base + offset;
        if ip !in reserved {
          reserved := reserved + {ip};
          return Given(ip);
        }
      }
      return Exhausted;
    }

    method Release(ip: nat)
      modifies this
      ensures reserved == old(reserved) - {ip}
    {
      reserved := reserved - {ip};
    }
  }

  /**
   * In a subnet of /24 or larger every pooled address lies inside and is none of the reserved ones;
   * in a smaller one the pool reaches outside.
   */
  lemma PoolInsideExact(subnet: Ipv4Net)
    requires ValidNet(subnet)
    ensures (forall ip: nat :: Pooled(subnet, ip) ==> Covers(subnet, ip)) <==> subnet.prefixLen <= 24
    ensures forall ip: nat :: Pooled(subnet, ip) ==>
      ip != Network(subnet) && ip != MachineIp(subnet) && ip != ContainerIp(subnet)
    ensures subnet.prefixLen <= 24 ==> forall ip: nat :: Pooled(subnet, ip) ==> ip != Broadcast(subnet)
    ensures subnet.prefixLen <= 24 ==> Network(subnet) + OFFSETS_END <= ADDRESSES
  {
    Tiling(subnet, subnet.prefixLen);
    assert Pow2(8) == 256;
    if subnet.prefixLen < 24 { Pow2Grows(8, 32 - subnet.prefixLen); }
    if subnet.prefixLen > 24 {
      if subnet.prefixLen > 25 { Pow2Grows(32 - subnet.prefixLen, 7); }
      assert Pow2(7) == 128;
      assert Pooled(subnet, Network(subnet) + 254) && !Covers(subnet, Network(subnet) + 254);
    }
  }

  /** Pools of disjoint subnets share no address. */
  lemma PoolsDoNotCollide(a: Ipv4Net, b: Ipv4Net, ip: nat)
    requires ValidNet(a) && ValidNet(b) && a.prefixLen <= 24 && b.prefixLen <= 24 && Disjoint(a, b)
    ensures !(Pooled(a, ip) && Pooled(b, ip))
  {
    PoolInsideExact(a);
    PoolInsideExact(b);
  }

  datatype PoolCall = Take | GiveBack(ip: nat)

  /** The reserved addresses after the first `n` calls. */
  ghost function ReservedAfter(initial: set<nat>, calls: seq<PoolCall>, replies: seq<Option<nat>>, n: nat): set<nat>
    requires n <= |calls| && n <= |replies|
  {
    if n == 0 then initial
    else
      var before := ReservedAfter(initial, calls, replies, n - 1);
      match calls[n - 1]
      case Take => if replies[n - 1].Some? then before + {replies[n - 1].value} else before
      case GiveBack(ip) => before - {ip}
  }

  /** Reply `i` is what the pool grants over what is reserved by then. */
  ghost predicate Replied(subnet: Ipv4Net, initial: set<nat>, calls: seq<PoolCall>, replies: seq<Option<nat>>, i: nat)
    requires ValidNet(subnet) && i < |calls| && i < |replies|
  {
    match calls[i]
    case Take => Granted(subnet, ReservedAfter(initial, calls, replies, i), replies[i])
    case GiveBack(_) => replies[i].None?
  }

  ghost predicate GivenBack(calls: seq<PoolCall>, ip: nat, since: nat, until: nat) {
    exists k :: since <= k < until && k < |calls| && calls[k] == GiveBack(ip)
  }

  lemma {:induction false} StaysReserved(
    initial: set<nat>, calls: seq<PoolCall>, replies: seq<Option<nat>>, ip: nat, since: nat, until: nat)
    requires since <= until <= |calls| && until <= |replies| && ip in ReservedAfter(initial, calls, replies, since)
    requires !GivenBack(calls, ip, since, until)
    ensures ip in ReservedAfter(initial, calls, replies, until)
    decreases until
  {
    if since < until {
      assert !GivenBack(calls, ip, since, until - 1);
      StaysReserved(initial, calls, replies, ip, since, until - 1);
    }
  }

  /** An address granted twice was given back in between. */
  lemma GrantsAreExclusive(
    subnet: Ipv4Net, initial: set<nat>, calls: seq<PoolCall>, replies: seq<Option<nat>>, i: nat, j: nat)
    requires ValidNet(subnet) && i < j < |calls| && |replies| == |calls|
    requires replies[i].Some? && replies[i] == replies[j]
    requires Replied(subnet, initial, calls, replies, i) && Replied(subnet, initial, calls, replies, j)
    ensures GivenBack(calls, replies[i].value, i + 1, j)
  {
    if !GivenBack(calls, replies[i].value, i + 1, j) {
      StaysReserved(initial, calls, replies, replies[i].value, i + 1, j);
    }
  }

  /** An address reserved from the start is granted only after it was given back. */
  lemma GrantsSpareExisting(subnet: Ipv4Net, initial: set<nat>, calls: seq<PoolCall>, replies: seq<Option<nat>>, j: nat)
    requires ValidNet(subnet) && j < |calls| && |replies| == |calls|
    requires replies[j].Some? && replies[j].value in initial && Replied(subnet, initial, calls, replies, j)
    ensures GivenBack(calls, replies[j].value, 0, j)
  {
    if !GivenBack(calls, replies[j].value, 0, j) {
      StaysReserved(initial, calls, replies, replies[j].value, 0, j);
    }
  }

  /**
   * Any history of taking and giving back: every grant is the lowest free pooled address, a grant is
   * refused only when there is none, and no address is granted again before it was given back.
   */
  method PoolHistory(pool: SubnetIpam, calls: seq<PoolCall>) returns (replies: seq<Option<nat>>)
    requires ValidNet(pool.subnet)
    modifies pool
    ensures |replies| == |calls| && pool.reserved == ReservedAfter(old(pool.reserved), calls, replies, |calls|)
    ensures forall i: nat :: i < |calls| ==> Replied(pool.subnet, old(pool.reserved), calls, replies, i)
    ensures forall i: nat, j: nat :: i < j < |calls| && replies[i].Some? && replies[i] == replies[j] ==>
      GivenBack(calls, replies[i].value, i + 1, j)
    ensures forall j: nat :: j < |calls| && replies[j].Some? && replies[j].value in old(pool.reserved) ==>
      GivenBack(calls, replies[j].value, 0, j)
  {
    hide Granted;
    replies := [];
    ghost var initial := pool.reserved;
    for n := 0 to |calls|
      invariant |replies| == n && pool.reserved == ReservedAfter(initial, calls, replies, n)
      invariant forall i: nat :: i < n ==> Replied(pool.subnet, initial, calls, replies, i)
    {
      var reply := None;
      match calls[n] {
        case Take =>
          var r := pool.Allocate();
          reply := if r.Given? then Some(r.value) else None;
        case GiveBack(ip) => pool.Release(ip);
      }
      SameReserved(initial, calls, replies, replies + [reply], n);
      forall i: nat | i < n ensures Replied(pool.subnet, initial, calls, replies + [reply], i) {
        SameReserved(initial, calls, replies, replies + [reply], i);
        assert Replied(pool.subnet, initial, calls, replies, i);
      }
      replies := replies + [reply];
    }
    forall i: nat, j: nat | i < j < |calls| && replies[i].Some? && replies[i] == replies[j]
      ensures GivenBack(calls, replies[i].value, i + 1, j)
    {
      GrantsAreExclusive(pool.subnet, initial, calls, replies, i, j);
    }
    forall j: nat | j < |calls| && replies[j].Some? && replies[j].value in initial
      ensures GivenBack(calls, replies[j].value, 0, j)
    {
      GrantsSpareExisting(pool.subnet, initial, calls, replies, j);
    }
  }

  lemma {:induction false} SameReserved(
    initial: set<nat>, calls: seq<PoolCall>, replies: seq<Option<nat>>, longer: seq<Option<nat>>, n: nat)
    requires n <= |calls| && n <= |replies| && replies <= longer
    ensures ReservedAfter(initial, calls, replies, n) == ReservedAfter(initial, calls, longer, n)
  {
    if n > 0 { SameReserved(initial, calls, replies, longer, n - 1); }
  }

  /** Histories of pools of disjoint subnets never grant a common address. */
  lemma HistoriesDoNotCollide(
    a: Ipv4Net, b: Ipv4Net, initialA: set<nat>, initialB: set<nat>, callsA: seq<PoolCall>, callsB: seq<PoolCall>,
    repliesA: seq<Option<nat>>, repliesB: seq<Option<nat>>, i: nat, j: nat)
    requires ValidNet(a) && ValidNet(b) && a.prefixLen <= 24 && b.prefixLen <= 24 && Disjoint(a, b)
    requires i < |callsA| == |repliesA| && j < |callsB| == |repliesB|
    requires Replied(a, initialA, callsA, repliesA, i) && Replied(b, initialB, callsB, repliesB, j)
    requires repliesA[i].Some? && repliesB[j].Some?
    ensures repliesA[i] != repliesB[j]
  {
    PoolsDoNotCollide(a, b, repliesA[i].value);
  }

  /** The addresses of a subnet, by their distance from its first one. */
  lemma AddressPlan(subnet: Ipv4Net, ip: nat)
    requires ValidNet(subnet)
    ensures MachineIp(subnet) == Network(subnet) + 1 && ContainerIp(subnet) == Network(subnet) + 2
    ensures Pooled(subnet, ip) <==> Network(subnet) + 3 <= ip <= Network(subnet) + 254
    ensures Network(subnet) <= subnet.addr <= Broadcast(subnet) && Network(subnet) % Size(subnet.prefixLen) == 0
    ensures Broadcast(subnet) == Network(subnet) + Size(subnet.prefixLen) - 1
  {
    hide Size;
    var s := Size(subnet.prefixLen);
    DivModOf(Network(subnet), s, subnet.addr / s, 0);
  }

  lemma SizesInUse()
    ensures Size(32) == 1 && Size(31) == 2 && Size(24) == 256 && Size(16) == 0x1_0000 && Size(8) == 0x100_0000
    ensures Size(0) == 0x1_0000_0000
  {
    assert Pow2(8) == 256 && Pow2(16) == 0x1_0000 && Pow2(24) == 0x100_0000 && Pow2(32) == 0x1_0000_0000;
  }
}
