/**
  The identifier pools of the fake log generator and the allocation of one
  Customer from them.  Three pools exist: user ids and device ids numbered
  0 .. numberOfCustomers - 1 and zero-padded to eight digits, and random
  dotted-quad IP addresses with duplicates removed.  Every new Customer pops
  the last entry of each pool, IP first, then user id, then device id; popping
  an empty pool raises IndexError.

  The random octets are parameters (IpDraw), and so is the order in which
  list(set(...)) arranges the de-duplicated addresses.
 */
module FakeLogData {
  import opened Wrappers
  import opened Numerals
  import opened Sequences

  const NumberOfCustomers: nat := 1000
  const IdWidth: nat := 8
  const UserPrefix: string := "user_"
  const DevicePrefix: string := "device_"

  // ---------------------------------------------------------------------------
  // User and device id pools
  // ---------------------------------------------------------------------------

  /** The prefix followed by i in decimal, zero-padded to IdWidth digits. */
  function FormatId(prefix: string, i: nat): string {
    prefix + ZeroPad(Decimal(i), IdWidth)
  }

  /** The pool built by a comprehension over range(n). */
  function IdPool(prefix: string, n: nat): (pool: seq<string>)
    ensures |pool| == n
  {
    seq(n, i requires 0 <= i < n => FormatId(prefix, i))
  }

  /** Entry i of a pool is the prefix followed by digits that spell i;
      below 10^8 there are exactly eight of them. */
  lemma IdPoolEntry(prefix: string, n: nat, i: nat)
    requires i < n
    ensures |prefix| <= |IdPool(prefix, n)[i]|
    ensures IdPool(prefix, n)[i][..|prefix|] == prefix
    ensures ParseNat(IdPool(prefix, n)[i][|prefix|..]) == Some(i)
    ensures i < Pow10(IdWidth) ==> |IdPool(prefix, n)[i]| == |prefix| + IdWidth
  {
    var e := IdPool(prefix, n)[i];
    assert e[|prefix|..] == ZeroPad(Decimal(i), IdWidth);
    ParsePadded(i, IdWidth);
    if i < Pow10(IdWidth) {
      DecimalLength(i, IdWidth);
    }
  }

  /** No id occurs twice in a pool. */
  lemma IdPoolNoDup(prefix: string, n: nat)
    ensures NoDup(IdPool(prefix, n))
  {
    var pool := IdPool(prefix, n);
    forall i, j | 0 <= i < j < n
      ensures pool[i] != pool[j]
    {
      IdPoolEntry(prefix, n, i);
      IdPoolEntry(prefix, n, j);
    }
  }

  // ---------------------------------------------------------------------------
  // IP address pool
  // ---------------------------------------------------------------------------

  type Octet = x: int | 0 <= x < 256

  /** The four values random.randint(0, 255) returned for one address. */
  datatype IpDraw = IpDraw(a: Octet, b: Octet, c: Octet, d: Octet)

  /** "{}.{}.{}.{}".format(a, b, c, d) */
  function FormatIp(q: IpDraw): string {
    Decimal(q.a) + "." + Decimal(q.b) + "." + Decimal(q.c) + "." + Decimal(q.d)
  }

  /** The address list before de-duplication, one entry per draw. */
  function IpCandidates(draws: seq<IpDraw>): (ips: seq<string>)
    ensures |ips| == |draws|
  {
    seq(|draws|, i requires 0 <= i < |draws| => FormatIp(draws[i]))
  }

  /** pool is a value list(set(xs)) may take: every value of xs exactly once,
      in an order Python leaves unspecified. */
  predicate IsDedupOf(pool: seq<string>, xs: seq<string>) {
    NoDup(pool) && Elems(pool) == Elems(xs)
  }

  /** s split at every occurrence of sep, as str.split(sep). */
  function Split(s: string, sep: char): (parts: seq<string>)
    ensures |parts| > 0
  {
    if s == [] then [[]]
    else
      var rest := Split(s[1..], sep);
      if s[0] == sep then [[]] + rest else [[s[0]] + rest[0]] + rest[1..]
  }

  lemma {:induction false} SplitNoSep(a: string, sep: char)
    requires sep !in a
    ensures Split(a, sep) == [a]
  {
    if a != [] {
      SplitNoSep(a[1..], sep);
      assert [a[0]] + a[1..] == a;
    }
  }

  lemma {:induction false} SplitJoin(a: string, sep: char, b: string)
    requires sep !in a
    ensures Split(a + [sep] + b, sep) == [a] + Split(b, sep)
  {
    var s := a + [sep] + b;
    if a == [] {
      assert s[1..] == b;
    } else {
      assert s[1..] == a[1..] + [sep] + b;
      SplitJoin(a[1..], sep, b);
      assert [a[0]] + a[1..] == a;
    }
  }

  function ParseOctet(s: string): Option<Octet> {
    match ParseNat(s)
    case Some(n) => if n < 256 then Some(n) else None
    case None => None
  }

  /** The four numbers of a dotted quad, or None when s is not one. */
  function ParseIp(s: string): Option<IpDraw> {
    var parts := Split(s, '.');
    if |parts| != 4 then None
    else
      match (ParseOctet(parts[0]), ParseOctet(parts[1]), ParseOctet(parts[2]), ParseOctet(parts[3]))
      case (Some(a), Some(b), Some(c), Some(d)) => Some(IpDraw(a, b, c, d))
      case _ => None
  }

  lemma NoDotInDecimal(n: nat)
    ensures '.' !in Decimal(n)
  {
    var s := Decimal(n);
    assert forall k :: 0 <= k < |s| ==> s[k] != '.';
  }

  /** Splitting an address at '.' gives back its four numerals. */
  lemma SplitFormatIp(q: IpDraw)
    ensures Split(FormatIp(q), '.') == [Decimal(q.a), Decimal(q.b), Decimal(q.c), Decimal(q.d)]
  {
    var a, b, c, d := Decimal(q.a), Decimal(q.b), Decimal(q.c), Decimal(q.d);
    NoDotInDecimal(q.a);
    NoDotInDecimal(q.b);
    NoDotInDecimal(q.c);
    NoDotInDecimal(q.d);
    assert FormatIp(q) == a + ['.'] + (b + ['.'] + (c + ['.'] + d));
    SplitJoin(a, '.', b + ['.'] + (c + ['.'] + d));
    SplitJoin(b, '.', c + ['.'] + d);
    SplitJoin(c, '.', d);
    SplitNoSep(d, '.');
  }

  /** Every generated address is four numbers in 0..255 joined by '.',
      and those are the four numbers drawn. */
  lemma ParseFormatIp(q: IpDraw)
    ensures ParseIp(FormatIp(q)) == Some(q)
  {
    SplitFormatIp(q);
    ParseDecimal(q.a);
    ParseDecimal(q.b);
    ParseDecimal(q.c);
    ParseDecimal(q.d);
  }

  /** Whatever order list(set(...)) picks, the IP pool repeats no address,
      holds at most one entry per draw, holds every drawn address, and every
      entry is a dotted quad of octets. */
  lemma IpPoolShape(draws: seq<IpDraw>, pool: seq<string>)
    requires IsDedupOf(pool, IpCandidates(draws))
    ensures NoDup(pool) && |pool| <= |draws|
    ensures forall q :: q in draws ==> FormatIp(q) in pool
    ensures forall ip :: ip in pool ==> ParseIp(ip).Some?
  {
    var xs := IpCandidates(draws);
    ElemsOfNoDup(pool);
    ElemsBound(xs);
    forall q | q in draws
      ensures FormatIp(q) in pool
    {
      var i :| 0 <= i < |draws| && draws[i] == q;
      assert xs[i] in Elems(xs);
    }
    forall ip | ip in pool
      ensures ParseIp(ip).Some?
    {
      assert ip in Elems(xs);
      var i :| 0 <= i < |xs| && xs[i] == ip;
      ParseFormatIp(draws[i]);
    }
  }

  // ---------------------------------------------------------------------------
  // Customers
  // ---------------------------------------------------------------------------

  datatype Customer = Customer(ip: string, userId: string, deviceId: string) {
    /** The text __repr__ returns. */
    function Repr(): string {
      "User " + userId + ": ip = " + ip + "; device = " + deviceId
    }
  }

  /** The position of the first c in s, or |s| when there is none. */
  function IndexOf(s: string, c: char): (k: nat)
    ensures k <= |s| && c !in s[..k]
    ensures k < |s| ==> s[k] == c
  {
    if s == [] then 0
    else if s[0] == c then 0
    else
      var k := IndexOf(s[1..], c);
      assert s[..k + 1] == [s[0]] + s[1..][..k];
      k + 1
  }

  lemma {:induction false} IndexOfJoin(a: string, c: char, b: string)
    requires c !in a
    ensures IndexOf(a + [c] + b, c) == |a|
  {
    if a != [] {
      assert (a + [c] + b)[1..] == a[1..] + [c] + b;
      IndexOfJoin(a[1..], c, b);
    }
  }

  /** What follows lit in s, when s starts with lit. */
  function StripPrefix(s: string, lit: string): Option<string> {
    if |lit| <= |s| && s[..|lit|] == lit then Some(s[|lit|..]) else None
  }

  lemma StripPrefixJoin(lit: string, rest: string)
    ensures StripPrefix(lit + rest, lit) == Some(rest)
  {
    assert (lit + rest)[..|lit|] == lit;
    assert (lit + rest)[|lit|..] == rest;
  }

  /** s cut before its first c (all of s when there is none). */
  function CutAt(s: string, c: char): (string, string) {
    var k := IndexOf(s, c);
    (s[..k], s[k..])
  }

  lemma CutAtJoin(a: string, c: char, b: string)
    requires c !in a
    ensures CutAt(a + [c] + b, c) == (a, [c] + b)
  {
    IndexOfJoin(a, c, b);
    assert (a + [c] + b)[..|a|] == a;
    assert (a + [c] + b)[|a|..] == [c] + b;
  }

  /** Reads a Customer back from its repr text, or None. */
  function ParseRepr(s: string): Option<Customer> {
    match StripPrefix(s, "User ")
    case None => None
    case Some(r1) =>
      var (userId, r2) := CutAt(r1, ':');
      match StripPrefix(r2, ": ip = ")
      case None => None
      case Some(r3) =>
        var (ip, r4) := CutAt(r3, ';');
        match StripPrefix(r4, "; device = ")
        case None => None
        case Some(deviceId) => Some(Customer(ip, userId, deviceId))
  }

  /** The repr text determines the Customer, as long as the user id holds no
      ':' and the address no ';'. */
  lemma ParseReprRoundTrip(c: Customer)
    requires ':' !in c.userId && ';' !in c.ip
    ensures ParseRepr(c.Repr()) == Some(c)
  {
    var r4 := "; device = " + c.deviceId;
    var r3 := c.ip + r4;
    var r2 := ": ip = " + r3;
    var r1 := c.userId + r2;
    assert c.Repr() == "User " + r1;
    StripPrefixJoin("User ", r1);
    assert r1 == c.userId + [':'] + r2[1..];
    CutAtJoin(c.userId, ':', r2[1..]);
    StripPrefixJoin(": ip = ", r3);
    assert r3 == c.ip + [';'] + r4[1..];
    CutAtJoin(c.ip, ';', r4[1..]);
    StripPrefixJoin("; device = ", c.deviceId);
  }

  // ---------------------------------------------------------------------------
  // Allocation, as a function of the pools
  // ---------------------------------------------------------------------------

  /** The contents of the three pools. */
  datatype Pools = Pools(ips: seq<string>, userIds: seq<string>, deviceIds: seq<string>)

  /** Which pop raised IndexError. */
  datatype PoolError = IpPoolEmpty | UserIdPoolEmpty | DeviceIdPoolEmpty

  /** The Customer made (or the error raised) and the pools afterwards. */
  datatype Allocation = Allocation(outcome: Result<Customer, PoolError>, after: Pools)

  /** The pools the module builds, given the arrangement of the IP pool. */
  function InitialPools(ipPool: seq<string>): Pools {
    Pools(ipPool, IdPool(UserPrefix, NumberOfCustomers), IdPool(DevicePrefix, NumberOfCustomers))
  }

  /** One Customer(): pop an IP, then a user id, then a device id. */
  function Allocate(p: Pools): Allocation {
    if p.ips == [] then Allocation(Failure(IpPoolEmpty), p)
    else
      var ip, ips := p.ips[|p.ips| - 1], p.ips[..|p.ips| - 1];
      if p.userIds == [] then Allocation(Failure(UserIdPoolEmpty), p.(ips := ips))
      else
        var userId, userIds := p.userIds[|p.userIds| - 1], p.userIds[..|p.userIds| - 1];
        if p.deviceIds == [] then Allocation(Failure(DeviceIdPoolEmpty), p.(ips := ips, userIds := userIds))
        else
          var deviceId, deviceIds := p.deviceIds[|p.deviceIds| - 1], p.deviceIds[..|p.deviceIds| - 1];
          Allocation(Success(Customer(ip, userId, deviceId)), Pools(ips, userIds, deviceIds))
  }

  /** A Customer is made exactly when no pool is empty, and then each pool
      loses its last entry, which becomes the matching field.  Otherwise the
      first empty pool names the error, and the pops before it stay done. */
  lemma AllocateSpec(p: Pools)
    ensures var a := Allocate(p);
      && (a.outcome.Success? <==> p.ips != [] && p.userIds != [] && p.deviceIds != [])
      && (a.outcome.Success? ==>
            && p.ips == a.after.ips + [a.outcome.value.ip]
            && p.userIds == a.after.userIds + [a.outcome.value.userId]
            && p.deviceIds == a.after.deviceIds + [a.outcome.value.deviceId])
      && (a.outcome == Failure(IpPoolEmpty) <==> p.ips == [])
      && (a.outcome == Failure(IpPoolEmpty) ==> a.after == p)
      && (a.outcome == Failure(UserIdPoolEmpty) <==> p.ips != [] && p.userIds == [])
      && (a.outcome == Failure(UserIdPoolEmpty) ==>
            && |a.after.ips| + 1 == |p.ips| && a.after.ips <= p.ips
            && a.after.userIds == p.userIds && a.after.deviceIds == p.deviceIds)
      && (a.outcome == Failure(DeviceIdPoolEmpty) <==> p.ips != [] && p.userIds != [] && p.deviceIds == [])
      && (a.outcome == Failure(DeviceIdPoolEmpty) ==>
            && |a.after.ips| + 1 == |p.ips| && a.after.ips <= p.ips
            && |a.after.userIds| + 1 == |p.userIds| && a.after.userIds <= p.userIds
            && a.after.deviceIds == p.deviceIds)
  {
  }

  /** The Customers made by k successive Customer() calls, up to the first
      error, the pools afterwards and the error, if any. */
  datatype Run = Run(customers: seq<Customer>, after: Pools, failure: Option<PoolError>)

  function AllocateMany(p: Pools, k: nat): Run
    decreases k
  {
    if k == 0 then Run([], p, None)
    else
      var a := Allocate(p);
      match a.outcome
      case Failure(e) => Run([], a.after, Some(e))
      case Success(c) =>
        var rest := AllocateMany(a.after, k - 1);
        Run([c] + rest.customers, rest.after, rest.failure)
  }

  /** A run fails exactly when some pool holds fewer than k entries;
      otherwise it makes k Customers and leaves each pool without its top k. */
  lemma {:induction false} AllocateManyLength(p: Pools, k: nat)
    ensures var r := AllocateMany(p, k);
      && |r.customers| <= k
      && (r.failure.None? <==> k <= |p.ips| && k <= |p.userIds| && k <= |p.deviceIds|)
      && (r.failure.None? ==>
            && |r.customers| == k
            && r.after == Pools(p.ips[..|p.ips| - k], p.userIds[..|p.userIds| - k], p.deviceIds[..|p.deviceIds| - k]))
    decreases k
  {
    if k > 0 {
      var a := Allocate(p);
      if a.outcome.Success? {
        var q := a.after;
        AllocateManyLength(q, k - 1);
        if AllocateMany(q, k - 1).failure.None? {
          assert q.ips[..|q.ips| - (k - 1)] == p.ips[..|p.ips| - k];
        assert q.userIds[..|q.userIds| - (k - 1)] == p.userIds[..|p.userIds| - k];
          assert q.deviceIds[..|q.deviceIds| - (k - 1)] == p.deviceIds[..|p.deviceIds| - k];
        }
      }
    }
  }

  /** Customer j of a run holds entry j counted from the top of each pool. */
  lemma {:induction false} AllocateManyAt(p: Pools, k: nat, j: nat)
    requires j < |AllocateMany(p, k).customers|
    ensures j < |p.ips| && j < |p.userIds| && j < |p.deviceIds|
    ensures AllocateMany(p, k).customers[j]
         == Customer(p.ips[|p.ips| - 1 - j], p.userIds[|p.userIds| - 1 - j], p.deviceIds[|p.deviceIds| - 1 - j])
    decreases k
  {
    assert k > 0;
    var a := Allocate(p);
    match a.outcome {
      case Failure(_) =>
        assert false;
      case Success(c) =>
        var q := a.after;
        var rest := AllocateMany(q, k - 1);
        assert AllocateMany(p, k).customers == [c] + rest.customers;
        if j > 0 {
          AllocateManyAt(q, k - 1, j - 1);
          assert rest.customers[j - 1] == AllocateMany(p, k).customers[j];
        }
    }
  }

  /** Customers made from pools without repetitions never share an IP, a user
      id or a device id. */
  lemma CustomersDistinct(p: Pools, k: nat)
    requires NoDup(p.ips) && NoDup(p.userIds) && NoDup(p.deviceIds)
    ensures var cs := AllocateMany(p, k).customers;
      forall i, j :: 0 <= i < j < |cs| ==>
        cs[i].ip != cs[j].ip && cs[i].userId != cs[j].userId && cs[i].deviceId != cs[j].deviceId
  {
    var cs := AllocateMany(p, k).customers;
    forall i, j | 0 <= i < j < |cs|
      ensures cs[i].ip != cs[j].ip && cs[i].userId != cs[j].userId && cs[i].deviceId != cs[j].deviceId
    {
      AllocateManyAt(p, k, i);
      AllocateManyAt(p, k, j);
    }
  }

  /** From the module's own pools, Customer j gets user and device number
      NumberOfCustomers - 1 - j: ids are handed out from the top down. */
  lemma IdsFromTheTop(ipPool: seq<string>, k: nat, j: nat)
    requires j < |AllocateMany(InitialPools(ipPool), k).customers|
    ensures j < NumberOfCustomers
    ensures AllocateMany(InitialPools(ipPool), k).customers[j].userId == FormatId(UserPrefix, NumberOfCustomers - 1 - j)
    ensures AllocateMany(InitialPools(ipPool), k).customers[j].deviceId == FormatId(DevicePrefix, NumberOfCustomers - 1 - j)
  {
    var p := InitialPools(ipPool);
    AllocateManyAt(p, k, j);
    assert |p.userIds| == |p.deviceIds| == NumberOfCustomers;
  }

  lemma Padded999()
    ensures ZeroPad(Decimal(999), IdWidth) == "00000999"
  {
    assert Decimal(9) == "9";
    assert Decimal(99) == "99";
    assert Decimal(999) == "999";
    assert Zeros(1) == "0";
    assert Zeros(2) == "00";
    assert Zeros(3) == "000";
    assert Zeros(4) == "0000";
    assert Zeros(5) == "00000";
  }

  /** The first Customer is user_00000999 with device_00000999. */
  lemma FirstCustomer(ipPool: seq<string>)
    requires ipPool != []
    ensures Allocate(InitialPools(ipPool)).outcome
         == Success(Customer(ipPool[|ipPool| - 1], "user_00000999", "device_00000999"))
  {
    var p := InitialPools(ipPool);
    Padded999();
    assert |p.userIds| == |p.deviceIds| == NumberOfCustomers;
    assert p.userIds[NumberOfCustomers - 1] == UserPrefix + "00000999" == "user_00000999";
    assert p.deviceIds[NumberOfCustomers - 1] == DevicePrefix + "00000999" == "device_00000999";
  }

  /** Ids never hold the ':' that ends the user id in the repr text. */
  lemma IdHasNoColon(prefix: string, i: nat)
    requires ':' !in prefix
    ensures ':' !in FormatId(prefix, i)
  {
    var z := ZeroPad(Decimal(i), IdWidth);
    assert forall k :: 0 <= k < |z| ==> IsDigit(z[k]);
    assert ':' !in z;
  }

  /** Addresses never hold the ';' that ends the address in the repr text. */
  lemma IpHasNoSemicolon(q: IpDraw)
    ensures ';' !in FormatIp(q)
  {
    var a, b, c, d := Decimal(q.a), Decimal(q.b), Decimal(q.c), Decimal(q.d);
    assert ';' !in a && ';' !in b && ';' !in c && ';' !in d;
    assert FormatIp(q) == a + "." + b + "." + c + "." + d;
  }

  // ---------------------------------------------------------------------------
  // The pools as module state, updated in place
  // ---------------------------------------------------------------------------

  /** The three module-level lists, and (as ghost state) the Customers made
      from them so far. */
  class Allocator {
    var ipAddressPool: seq<string>
    var userIdPool: seq<string>
    var deviceIdPool: seq<string>
    ghost var issued: seq<Customer>

    function State(): Pools
      reads this
    {
      Pools(ipAddressPool, userIdPool, deviceIdPool)
    }

    /** No pool repeats an entry, no two Customers made so far share an IP,
        user id or device id, and nothing handed out is still in a pool. */
    ghost predicate Valid()
      reads this
    {
      && NoDup(ipAddressPool) && NoDup(userIdPool) && NoDup(deviceIdPool)
      && (forall i, j :: 0 <= i < j < |issued| ==>
            issued[i].ip != issued[j].ip && issued[i].userId != issued[j].userId && issued[i].deviceId != issued[j].deviceId)
      && (forall i :: 0 <= i < |issued| ==>
            issued[i].ip !in ipAddressPool && issued[i].userId !in userIdPool && issued[i].deviceId !in deviceIdPool)
    }

    /** Builds the pools; ipPool is the arrangement list(set(...)) gives the
        addresses formatted from the draws. */
    constructor (draws: seq<IpDraw>, ipPool: seq<string>)
      requires |draws| == NumberOfCustomers * 2
      requires IsDedupOf(ipPool, IpCandidates(draws))
      ensures Valid() && issued == []
      ensures State() == InitialPools(ipPool)
      ensures |ipAddressPool| <= 2 * NumberOfCustomers
    {
      ipAddressPool := ipPool;
      userIdPool := IdPool(UserPrefix, NumberOfCustomers);
      deviceIdPool := IdPool(DevicePrefix, NumberOfCustomers);
      issued := [];
      IpPoolShape(draws, ipPool);
      IdPoolNoDup(UserPrefix, NumberOfCustomers);
      IdPoolNoDup(DevicePrefix, NumberOfCustomers);
    }

    /** Customer(): pops the three pools in order; a pop from an empty pool
        fails and leaves the earlier pops done. */
    method NewCustomer() returns (r: Result<Customer, PoolError>)
      requires Valid()
      modifies this
      ensures Valid()
      ensures Allocation(r, State()) == Allocate(old(State()))
      ensures issued == old(issued) + if r.Success? then [r.value] else []
    {
      if ipAddressPool == [] {
        return Failure(IpPoolEmpty);
      }
      var ip := ipAddressPool[|ipAddressPool| - 1];
      ipAddressPool := ipAddressPool[..|ipAddressPool| - 1];
      if userIdPool == [] {
        return Failure(UserIdPoolEmpty);
      }
      var userId := userIdPool[|userIdPool| - 1];
      userIdPool := userIdPool[..|userIdPool| - 1];
      if deviceIdPool == [] {
        return Failure(DeviceIdPoolEmpty);
      }
      var deviceId := deviceIdPool[|deviceIdPool| - 1];
      deviceIdPool := deviceIdPool[..|deviceIdPool| - 1];
      r := Success(Customer(ip, userId, deviceId));
      issued := issued + [r.value];
    }
  }
}
