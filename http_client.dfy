/**
 * The HTTP client's bookkeeping: which resolved addresses it may connect to,
 * the round-robin choice among them, pending-connect counters, hosts blocked
 * after a bind failure, the idle-connection scan and the per-address pools of
 * keep-alive connections.
 */
module HttpClients {
  import opened Base

  /** The idle time after which a connection is closed, in milliseconds. */
  const MaxIdleConnectionTime: int := 30 * 1000

  // ---------------------------------------------------------------- host validity

  /**
   * `isValidHost`, on the address's bytes (Java's signed bytes): not an IPv4
   * address, or `0.0.0.*`, is invalid; otherwise everything is valid unless
   * local addresses are blocked, and then the loopback address and the host
   * names "localhost" and "127.0.0.1" are invalid.
   */
  function IsValidHost(host: string, addressBytes: seq<int>, blockLocalAddresses: bool): (valid: bool)
    ensures |addressBytes| != 4 ==> !valid
    ensures |addressBytes| == 4 && addressBytes[..3] == [0, 0, 0] ==> !valid
    ensures valid <==>
              && |addressBytes| == 4
              && addressBytes[..3] != [0, 0, 0]
              && (blockLocalAddresses ==> addressBytes != [127, 0, 0, 1] && host != "localhost" && host != "127.0.0.1")
  {
    if |addressBytes| != 4 then false
    else if addressBytes[0] == 0 && addressBytes[1] == 0 && addressBytes[2] == 0 then false
    else if !blockLocalAddresses then true
    else if addressBytes[0] == 127 && addressBytes[1] == 0 && addressBytes[2] == 0 && addressBytes[3] == 1 then false
    else if host == "localhost" || host == "127.0.0.1" then false
    else true
  }

  /** Blocking local addresses only ever rejects more: what is valid with blocking is valid without it. */
  lemma BlockingOnlyRejects(host: string, addressBytes: seq<int>)
    ensures IsValidHost(host, addressBytes, true) ==> IsValidHost(host, addressBytes, false)
    ensures IsValidHost(host, addressBytes, false) && !IsValidHost(host, addressBytes, true) ==>
              addressBytes == [127, 0, 0, 1] || host == "localhost" || host == "127.0.0.1"
  {
  }

  // ---------------------------------------------------------------- round robin

  /** `i & Integer.MAX_VALUE` on a Java `int`: the sign bit cleared. */
  function ClearSignBit(i: int): (r: int)
    requires IsInt32(i)
    ensures 0 <= r <= 0x7fff_ffff
    ensures i >= 0 ==> r == i
    ensures i < 0 ==> r == i + 0x8000_0000
  {
    if i >= 0 then i else i + 0x8000_0000
  }

  /** The array index `getNextInetAddress` reads for a counter value. */
  function AddressIndex(idx: int, length: nat): (r: nat)
    requires IsInt32(idx) && length > 0
    ensures r < length
  {
    ClearSignBit(idx) % length
  }

  /** Below the top of the `int` range, each call moves the index one place on, cyclically. */
  lemma AddressIndexAdvances(idx: int, length: nat)
    requires 0 <= idx < 0x7fff_ffff && length > 0
    ensures AddressIndex(idx + 1, length) == (AddressIndex(idx, length) + 1) % length
  {
    ModNext(idx, length);
  }

  lemma ModNext(x: nat, n: nat)
    requires n > 0
    ensures (x + 1) % n == (x % n + 1) % n
  {
    var q, r := x / n, x % n;
    assert x == q * n + r;
    if r + 1 < n {
      ModUnique(x + 1, n, q, r + 1);
      ModUnique(r + 1, n, 0, r + 1);
    } else {
      assert x + 1 == (q + 1) * n;
      ModUnique(x + 1, n, q + 1, 0);
      ModUnique(r + 1, n, 1, 0);
    }
  }

  lemma ModUnique(a: int, n: int, q: int, r: int)
    requires n > 0 && a == q * n + r && 0 <= r < n
    ensures a % n == r
  {
    var q', r' := a / n, a % n;
    assert a == q' * n + r';
    if q' < q {
      MulLe(q' + 1, q, n);
    } else if q < q' {
      MulLe(q + 1, q', n);
    }
  }

  lemma MulLe(x: int, y: int, n: nat)
    requires x <= y
    ensures x * n <= y * n
  {
    assert y * n - x * n == (y - x) * n;
  }

  /** When the counter wraps past the top of the `int` range, the index starts again from 0. */
  lemma AddressIndexAfterWrap(length: nat)
    requires length > 0
    ensures WrapInt32(0x7fff_ffff + 1) == -0x8000_0000
    ensures AddressIndex(-0x8000_0000, length) == 0
  {
  }

  // ---------------------------------------------------------------- pending connects

  /** `addPendingSocketConnect` on the per-address map: one more for the address, starting from 0. */
  function AddPending<A>(counts: map<A, int>, address: A): (r: map<A, int>)
    ensures r.Keys == counts.Keys + {address}
    ensures r[address] == (if address in counts then counts[address] else 0) + 1
    ensures forall a :: a in counts && a != address ==> r[a] == counts[a]
  {
    counts[address := (if address in counts then counts[address] else 0) + 1]
  }

  /** `removePendingSocketConnect` on the per-address map: one fewer, and the entry goes once it reaches 0. */
  function RemovePending<A>(counts: map<A, int>, address: A): (r: map<A, int>)
    ensures address !in counts ==> r == counts
    ensures address in counts && counts[address] - 1 > 0 ==> r == counts[address := counts[address] - 1]
    ensures address in counts && counts[address] - 1 <= 0 ==> r == counts - {address}
  {
    if address !in counts then counts
    else if counts[address] - 1 > 0 then counts[address := counts[address] - 1]
    else counts - {address}
  }

  ghost predicate AllPositive<A>(counts: map<A, int>) {
    forall a :: a in counts ==> counts[a] > 0
  }

  /** Both operations keep every per-address count positive. */
  lemma PendingStaysPositive<A>(counts: map<A, int>, address: A)
    requires AllPositive(counts)
    ensures AllPositive(AddPending(counts, address))
    ensures AllPositive(RemovePending(counts, address))
  {
  }

  /** A connect that finishes undoes the one that started: add then remove restores the map. */
  lemma RemoveUndoesAdd<A>(counts: map<A, int>, address: A)
    requires AllPositive(counts)
    ensures RemovePending(AddPending(counts, address), address) == counts
  {
    if address !in counts {
      assert AddPending(counts, address) - {address} == counts;
    } else {
      assert AddPending(counts, address)[address := counts[address]] == counts;
    }
  }

  // ---------------------------------------------------------------- bind exceptions

  /**
   * `isBindExceptionBlocked`: never with a zero timeout or without a record;
   * blocked while the time is before the record plus the timeout; past it the
   * record is removed. Yields the answer and the new record map.
   */
  function BindCheck<Ip>(blocked: map<Ip, int>, timeout: int, address: Ip, now: int): (r: (bool, map<Ip, int>))
    ensures r.0 <==> timeout != 0 && address in blocked && now < blocked[address] + timeout
    ensures r.1 == if timeout != 0 && address in blocked && !r.0 then blocked - {address} else blocked
  {
    if timeout == 0 then (false, blocked)
    else if address !in blocked then (false, blocked)
    else if now < blocked[address] + timeout then (true, blocked)
    else (false, blocked - {address})
  }

  /** The connect failure path: with a non-zero timeout, a bind failure records the address with the time. */
  function RecordBindException<Ip>(blocked: map<Ip, int>, timeout: int, address: Ip, now: int): map<Ip, int> {
    if timeout != 0 then blocked[address := now] else blocked
  }

  /** After a bind failure at `t`, the address is blocked exactly until `t` plus the timeout. */
  lemma BlockedForTimeout<Ip>(blocked: map<Ip, int>, timeout: int, address: Ip, t: int, now: int)
    requires timeout != 0
    ensures BindCheck(RecordBindException(blocked, timeout, address, t), timeout, address, now).0 <==> now < t + timeout
  {
  }

  /** Once a check finds the block over, the record is gone and no later check blocks the address. */
  lemma UnblockedStaysUnblocked<Ip>(blocked: map<Ip, int>, timeout: int, address: Ip, now: int, later: int)
    requires !BindCheck(blocked, timeout, address, now).0
    ensures !BindCheck(BindCheck(blocked, timeout, address, now).1, timeout, address, later).0
  {
  }

  // ---------------------------------------------------------------- idle connections

  /** The connections ordered by activity, least recently active first. */
  ghost predicate ActivityOrdered<C>(activityTime: C -> int, connections: seq<C>) {
    forall i, j :: 0 <= i < j < |connections| ==> activityTime(connections[i]) <= activityTime(connections[j])
  }

  /** The longest prefix of connections idle for at least the maximum idle time. */
  function ExpiredPrefix<C>(activityTime: C -> int, connections: seq<C>, now: int): (r: seq<C>)
    ensures |r| <= |connections| && r == connections[..|r|]
    ensures forall i :: 0 <= i < |r| ==> now - activityTime(r[i]) >= MaxIdleConnectionTime
    ensures |r| < |connections| ==> now - activityTime(connections[|r|]) < MaxIdleConnectionTime
  {
    if connections == [] || now - activityTime(connections[0]) < MaxIdleConnectionTime then []
    else [connections[0]] + ExpiredPrefix(activityTime, connections[1..], now)
  }

  lemma ExpiredPrefixStep<C>(activityTime: C -> int, connections: seq<C>, i: nat, now: int)
    requires i < |connections| && now - activityTime(connections[i]) >= MaxIdleConnectionTime
    ensures ExpiredPrefix(activityTime, connections[i..], now) == [connections[i]] + ExpiredPrefix(activityTime, connections[i + 1..], now)
    ensures connections[..i + 1] == connections[..i] + [connections[i]]
  {
    assert connections[i..][1..] == connections[i + 1..];
  }

  /** With the list ordered by activity, the scan closes exactly the connections idle for the maximum time or longer. */
  lemma {:induction false} ExpiredPrefixIsAllExpired<C>(activityTime: C -> int, connections: seq<C>, now: int)
    requires ActivityOrdered(activityTime, connections)
    ensures var r := ExpiredPrefix(activityTime, connections, now);
            forall i :: 0 <= i < |connections| ==>
              (i < |r| <==> now - activityTime(connections[i]) >= MaxIdleConnectionTime)
  {
    var r := ExpiredPrefix(activityTime, connections, now);
    forall i | 0 <= i < |connections|
      ensures i < |r| <==> now - activityTime(connections[i]) >= MaxIdleConnectionTime
    {
      if i < |r| {
        assert connections[i] == r[i];
      } else {
        assert activityTime(connections[|r|]) <= activityTime(connections[i]);
      }
    }
  }

  /** `sendRequest`'s reordering: the connection moves to the tail of the list. */
  function MoveToLast<C(==)>(connections: seq<C>, c: C): (r: seq<C>)
    ensures |r| > 0 && r[|r| - 1] == c
    ensures forall x :: x in r ==> x in connections || x == c
    ensures forall x :: x in connections ==> x in r
  {
    Remove(connections, c) + [c]
  }

  /** In a list without duplicates, moving a member to the tail is a permutation. */
  lemma MoveToLastPermutes<C>(connections: seq<C>, c: C)
    requires c in connections && Distinct(connections)
    ensures multiset(MoveToLast(connections, c)) == multiset(connections)
  {
    RemoveCount(connections, c);
  }

  /** The list without `c`, the others in their order. */
  function Remove<C(==)>(connections: seq<C>, c: C): (r: seq<C>)
    ensures forall x :: x in r ==> x in connections && x != c
    ensures forall x :: x in connections && x != c ==> x in r
    ensures c !in connections ==> r == connections
  {
    if connections == [] then []
    else if connections[0] == c then Remove(connections[1..], c)
    else [connections[0]] + Remove(connections[1..], c)
  }

  /** In a list without duplicates, removing a member takes out exactly that one entry. */
  lemma {:induction false} RemoveCount<C>(connections: seq<C>, c: C)
    requires c in connections && Distinct(connections)
    ensures multiset(Remove(connections, c)) + multiset{c} == multiset(connections)
  {
    DistinctTail(connections);
    assert connections == [connections[0]] + connections[1..];
    if connections[0] != c {
      RemoveCount(connections[1..], c);
    }
  }

  /** Removing keeps the others in their order. */
  lemma {:induction false} RemoveKeepsOrder<C>(activityTime: C -> int, connections: seq<C>, c: C)
    requires ActivityOrdered(activityTime, connections)
    ensures ActivityOrdered(activityTime, Remove(connections, c))
  {
    if connections != [] {
      RemoveKeepsOrder(activityTime, connections[1..], c);
      var rest := Remove(connections[1..], c);
      if connections[0] != c {
        forall x | x in rest ensures activityTime(connections[0]) <= activityTime(x) {
          var k :| 0 <= k < |connections[1..]| && connections[1..][k] == x;
          assert connections[k + 1] == x;
        }
      }
    }
  }

  /** A request stamps the connection as most recently active, so moving it to the tail keeps the list ordered by activity. */
  lemma MoveToLastKeepsOrder<C>(activityTime: C -> int, connections: seq<C>, c: C)
    requires ActivityOrdered(activityTime, connections)
    requires forall x :: x in connections ==> activityTime(x) <= activityTime(c)
    ensures ActivityOrdered(activityTime, MoveToLast(connections, c))
  {
    RemoveKeepsOrder(activityTime, connections, c);
  }

  // ---------------------------------------------------------------- the client

  class HttpClient<Ip(==), A(==), C(==)> {
    /** The address a connection is connected to, if it has one. */
    const remoteAddress: C -> Option<A>
    const activityTime: C -> int
    var blockLocalAddresses: bool
    var bindExceptionBlockTimeout: int
    var inetAddressIdx: int
    var countPendingSocketConnect: int
    var addressPendingConnects: map<A, int>
    var bindExceptionBlockedHosts: map<Ip, int>
    /** All connections, least recently active first. */
    var connectionsList: seq<C>
    /** The keep-alive connections by address. */
    var ipConnectionLists: map<A, seq<C>>
    /** The connections whose pool node is set. */
    var pooled: set<C>

    /**
     * The counter is an `int`; every per-address count is positive; every
     * pooled list holds distinct connections of its own address, each with
     * its pool node set.
     */
    ghost predicate Valid()
      reads this
    {
      && IsInt32(inetAddressIdx)
      && AllPositive(addressPendingConnects)
      && forall a :: a in ipConnectionLists ==> PoolOf(remoteAddress, pooled, a, ipConnectionLists[a])
    }

    /** Defaults: local addresses allowed, a bind failure blocks its host for a day, nothing pending or pooled. */
    constructor (remoteAddress: C -> Option<A>, activityTime: C -> int)
      ensures Valid()
      ensures this.remoteAddress == remoteAddress && this.activityTime == activityTime
      ensures !blockLocalAddresses && bindExceptionBlockTimeout == 24 * 60 * 60 * 1000
      ensures inetAddressIdx == 0 && countPendingSocketConnect == 0
      ensures addressPendingConnects == map[] && bindExceptionBlockedHosts == map[]
      ensures connectionsList == [] && ipConnectionLists == map[] && pooled == {}
    {
      this.remoteAddress := remoteAddress;
      this.activityTime := activityTime;
      blockLocalAddresses := false;
      bindExceptionBlockTimeout := 24 * 60 * 60 * 1000;
      inetAddressIdx := 0;
      countPendingSocketConnect := 0;
      addressPendingConnects := map[];
      bindExceptionBlockedHosts := map[];
      connectionsList := [];
      ipConnectionLists := map[];
      pooled := {};
    }

    /** `getNextInetAddress`: reads the address at the masked counter modulo the length, and bumps the `int` counter. */
    method GetNextInetAddress(inetAddresses: seq<Ip>) returns (address: Ip)
      requires Valid() && |inetAddresses| > 0
      modifies this`inetAddressIdx
      ensures Valid()
      ensures address == inetAddresses[AddressIndex(old(inetAddressIdx), |inetAddresses|)]
      ensures inetAddressIdx == WrapInt32(old(inetAddressIdx) + 1)
    {
      var i := inetAddressIdx;
      inetAddressIdx := WrapInt32(inetAddressIdx + 1);
      address := inetAddresses[ClearSignBit(i) % |inetAddresses|];
    }

    /** `addPendingSocketConnect`: one more pending connect in total and for the address. */
    method AddPendingSocketConnect(address: A)
      requires Valid()
      modifies this`countPendingSocketConnect, this`addressPendingConnects
      ensures Valid()
      ensures countPendingSocketConnect == old(countPendingSocketConnect) + 1
      ensures addressPendingConnects == AddPending(old(addressPendingConnects), address)
    {
      PendingStaysPositive(addressPendingConnects, address);
      countPendingSocketConnect := countPendingSocketConnect + 1;
      var counter := if address in addressPendingConnects then addressPendingConnects[address] else 0;
      counter := counter + 1;
      addressPendingConnects := addressPendingConnects[address := counter];
    }

    /** `removePendingSocketConnect`: one fewer in total; the address's count drops, and its entry goes at 0. */
    method RemovePendingSocketConnect(address: A)
      requires Valid()
      modifies this`countPendingSocketConnect, this`addressPendingConnects
      ensures Valid()
      ensures countPendingSocketConnect == old(countPendingSocketConnect) - 1
      ensures addressPendingConnects == RemovePending(old(addressPendingConnects), address)
    {
      PendingStaysPositive(addressPendingConnects, address);
      countPendingSocketConnect := countPendingSocketConnect - 1;
      if address in addressPendingConnects {
        var counter := addressPendingConnects[address] - 1;
        if counter > 0 {
          addressPendingConnects := addressPendingConnects[address := counter];
        } else {
          addressPendingConnects := addressPendingConnects - {address};
        }
      }
    }

    /** `isBindExceptionBlocked` at time `now`. */
    method IsBindExceptionBlocked(address: Ip, now: int) returns (blocked: bool)
      modifies this`bindExceptionBlockedHosts
      ensures (blocked, bindExceptionBlockedHosts) == BindCheck(old(bindExceptionBlockedHosts), bindExceptionBlockTimeout, address, now)
    {
      if bindExceptionBlockTimeout == 0 {
        return false;
      }
      if address !in bindExceptionBlockedHosts {
        return false;
      }
      if now < bindExceptionBlockedHosts[address] + bindExceptionBlockTimeout {
        return true;
      }
      bindExceptionBlockedHosts := bindExceptionBlockedHosts - {address};
      return false;
    }

    /** The bind-failure branch of the connect callback. */
    method OnBindException(address: Ip, now: int)
      modifies this`bindExceptionBlockedHosts
      ensures bindExceptionBlockedHosts == RecordBindException(old(bindExceptionBlockedHosts), bindExceptionBlockTimeout, address, now)
    {
      if bindExceptionBlockTimeout != 0 {
        bindExceptionBlockedHosts := bindExceptionBlockedHosts[address := now];
      }
    }

    /**
     * `checkExpiredConnections`: walks from the head and closes connections
     * while they have been idle for the maximum time, stopping at the first
     * that has not; returns the connections it closes, in order.
     */
    method CheckExpiredConnections(now: int) returns (closed: seq<C>, count: nat)
      ensures closed == ExpiredPrefix(activityTime, connectionsList, now)
      ensures count == |closed|
    {
      count := 0;
      while count < |connectionsList|
        invariant count <= |connectionsList|
        invariant ExpiredPrefix(activityTime, connectionsList, now) == connectionsList[..count] + ExpiredPrefix(activityTime, connectionsList[count..], now)
      {
        if now - activityTime(connectionsList[count]) < MaxIdleConnectionTime {
          break;
        }
        ExpiredPrefixStep(activityTime, connectionsList, count, now);
        count := count + 1;
      }
      closed := connectionsList[..count];
      assert count == |connectionsList| ==> connectionsList[count..] == [];
    }

    /** `sendRequest`'s bookkeeping: the connection goes to the tail of the activity list. */
    method SendRequest(connection: C)
      modifies this`connectionsList
      ensures connectionsList == MoveToLast(old(connectionsList), connection)
    {
      connectionsList := Remove(connectionsList, connection) + [connection];
    }

    /**
     * `getFreeConnection`: no pool for the address gives nothing; otherwise
     * connections are taken from the head until one is still registered,
     * which is returned with its pool node cleared.
     */
    method GetFreeConnection(address: A, isRegistered: C -> bool) returns (connection: Option<C>)
      requires Valid()
      modifies this`ipConnectionLists, this`pooled
      ensures Valid()
      ensures address !in old(ipConnectionLists) ==> connection == None && unchanged(this`ipConnectionLists, this`pooled)
      ensures address in old(ipConnectionLists) ==>
                var list := old(ipConnectionLists)[address];
                var k := FirstRegistered(isRegistered, list);
                && connection == (if k < |list| then Some(list[k]) else None)
                && ipConnectionLists == old(ipConnectionLists)[address := if k < |list| then list[k + 1..] else []]
                && pooled == if k < |list| then old(pooled) - {list[k]} else old(pooled)
      ensures connection.Some? ==> isRegistered(connection.value) && remoteAddress(connection.value) == Some(address)
    {
      if address !in ipConnectionLists {
        return None;
      }
      var list := ipConnectionLists[address];
      var rest := SkipUnregistered(isRegistered, list);
      ghost var k := FirstRegistered(isRegistered, list);
      if rest == [] {
        ipConnectionLists := ipConnectionLists[address := []];
        assert PoolOf(remoteAddress, pooled, address, []);
        return None;
      }
      var first := rest[0];
      PoolTail(remoteAddress, pooled, address, list, k);
      assert first == list[k] && rest[1..] == list[k + 1..];
      PoolsWithout(remoteAddress, pooled, ipConnectionLists, address, first, rest[1..]);
      ipConnectionLists := ipConnectionLists[address := rest[1..]];
      pooled := pooled - {first};
      return Some(first);
    }

    /**
     * `addToIpPool`: a connection without a remote address is not pooled;
     * otherwise it joins the tail of its address's list, created if missing.
     */
    method AddToIpPool(connection: C)
      requires Valid() && connection !in pooled
      modifies this`ipConnectionLists, this`pooled
      ensures Valid()
      ensures remoteAddress(connection).None? ==> unchanged(this`ipConnectionLists, this`pooled)
      ensures remoteAddress(connection).Some? ==>
                var a := remoteAddress(connection).value;
                && ipConnectionLists == old(ipConnectionLists)[a := (if a in old(ipConnectionLists) then old(ipConnectionLists)[a] else []) + [connection]]
                && pooled == old(pooled) + {connection}
    {
      var address := remoteAddress(connection);
      if address.None? {
        return;
      }
      var list := if address.value in ipConnectionLists then ipConnectionLists[address.value] else [];
      pooled := pooled + {connection};
      ipConnectionLists := ipConnectionLists[address.value := list + [connection]];
    }

    /**
     * `removeFromIpPool`: nothing for a connection without a pool node or
     * whose address has no list; otherwise it leaves its address's list,
     * which is dropped once empty.
     */
    method RemoveFromIpPool(connection: C)
      requires Valid()
      modifies this`ipConnectionLists, this`pooled
      ensures Valid()
      ensures connection !in old(pooled) ==> unchanged(this`ipConnectionLists, this`pooled)
      ensures connection in old(pooled) && (remoteAddress(connection).None? || remoteAddress(connection).value !in old(ipConnectionLists)) ==>
                unchanged(this`ipConnectionLists, this`pooled)
      ensures connection in old(pooled) && remoteAddress(connection).Some? && remoteAddress(connection).value in old(ipConnectionLists) ==>
                var a := remoteAddress(connection).value;
                var rest := Remove(old(ipConnectionLists)[a], connection);
                && pooled == old(pooled) - {connection}
                && ipConnectionLists == if rest == [] then old(ipConnectionLists) - {a} else old(ipConnectionLists)[a := rest]
    {
      if connection !in pooled {
        return;
      }
      var address := remoteAddress(connection);
      if address.None? || address.value !in ipConnectionLists {
        return;
      }
      var list := Remove(ipConnectionLists[address.value], connection);
      RemoveDistinct(ipConnectionLists[address.value], connection);
      assert PoolOf(remoteAddress, pooled, address.value, ipConnectionLists[address.value]);
      assert PoolOf(remoteAddress, pooled, address.value, list);
      PoolsWithout(remoteAddress, pooled, ipConnectionLists, address.value, connection, list);
      pooled := pooled - {connection};
      if list == [] {
        ipConnectionLists := ipConnectionLists - {address.value};
      } else {
        ipConnectionLists := ipConnectionLists[address.value := list];
      }
    }
  }

  /** A pool list: distinct connections of address `a`, each with its pool node set. */
  ghost predicate PoolOf<A, C>(remoteAddress: C -> Option<A>, pooled: set<C>, a: A, list: seq<C>) {
    && Distinct(list)
    && (forall c :: c in list ==> c in pooled && remoteAddress(c) == Some(a))
  }

  /** Taking a connection out of its own pool, leaving `rest` of that pool, keeps every pool list well formed. */
  lemma PoolsWithout<A, C>(remoteAddress: C -> Option<A>, pooled: set<C>, lists: map<A, seq<C>>, a: A, c: C, rest: seq<C>)
    requires forall b :: b in lists ==> PoolOf(remoteAddress, pooled, b, lists[b])
    requires remoteAddress(c) == Some(a) && c !in rest
    requires PoolOf(remoteAddress, pooled, a, rest)
    ensures forall b :: b in lists && b != a ==> PoolOf(remoteAddress, pooled - {c}, b, lists[b])
    ensures PoolOf(remoteAddress, pooled - {c}, a, rest)
  {
  }

  /** The loop of `getFreeConnection`: drops connections from the head until one is registered. */
  method SkipUnregistered<C>(isRegistered: C -> bool, list: seq<C>) returns (rest: seq<C>)
    ensures rest == list[FirstRegistered(isRegistered, list)..]
  {
    rest := list;
    while rest != [] && !isRegistered(rest[0])
      invariant |rest| <= |list| && rest == list[|list| - |rest|..]
      invariant forall i :: 0 <= i < |list| - |rest| ==> !isRegistered(list[i])
    {
      rest := rest[1..];
    }
    assert |list| - |rest| == FirstRegistered(isRegistered, list);
  }

  /** The connection at `k` of a well-formed pool list belongs to that address, is not in the rest, and the rest is a pool list. */
  lemma PoolTail<A, C>(remoteAddress: C -> Option<A>, pooled: set<C>, a: A, list: seq<C>, k: nat)
    requires PoolOf(remoteAddress, pooled, a, list) && k < |list|
    ensures remoteAddress(list[k]) == Some(a) && list[k] !in list[k + 1..]
    ensures PoolOf(remoteAddress, pooled, a, list[k + 1..])
  {
    var rest := list[k + 1..];
    assert list[k] in list;
    forall i, j | 0 <= i < j < |rest| ensures rest[i] != rest[j] {
      assert rest[i] == list[k + 1 + i] && rest[j] == list[k + 1 + j];
    }
    forall j | 0 <= j < |rest| ensures rest[j] != list[k] {
      assert rest[j] == list[k + 1 + j];
    }
  }

  /** The position of the first registered connection, or the length when there is none. */
  function FirstRegistered<C>(isRegistered: C -> bool, list: seq<C>): (k: nat)
    ensures k <= |list|
    ensures forall i :: 0 <= i < k ==> !isRegistered(list[i])
    ensures k < |list| ==> isRegistered(list[k])
  {
    if list == [] then 0
    else if isRegistered(list[0]) then 0
    else 1 + FirstRegistered(isRegistered, list[1..])
  }

  ghost predicate Distinct<C>(s: seq<C>) {
    forall i, j :: 0 <= i < j < |s| ==> s[i] != s[j]
  }

  lemma {:induction false} RemoveDistinct<C>(list: seq<C>, c: C)
    requires Distinct(list)
    ensures Distinct(Remove(list, c))
  {
    if list != [] {
      DistinctTail(list);
      RemoveDistinct(list[1..], c);
      if list[0] != c {
        DistinctCons(list[0], Remove(list[1..], c));
      }
    }
  }

  lemma DistinctTail<C>(list: seq<C>)
    requires Distinct(list) && list != []
    ensures Distinct(list[1..]) && list[0] !in list[1..]
  {
    forall i, j | 0 <= i < j < |list[1..]| ensures list[1..][i] != list[1..][j] {
      assert list[1..][i] == list[i + 1] && list[1..][j] == list[j + 1];
    }
  }

  lemma DistinctCons<C>(x: C, rest: seq<C>)
    requires Distinct(rest) && x !in rest
    ensures Distinct([x] + rest)
  {
    var r := [x] + rest;
    forall i, j | 0 <= i < j < |r| ensures r[i] != r[j] {
      assert r[j] == rest[j - 1];
      if i > 0 {
        assert r[i] == rest[i - 1];
      }
    }
  }
}
