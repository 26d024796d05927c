/**
 * The rendezvous-hashing request sender: a request's hash picks a server from
 * the hash bucket, the call counter of that server goes up, and the request
 * goes to the server's connection; with no server or no connection the
 * callback gets the no-connection error.
 */
module RpcSenders {
  import opened Base

  /** The sender's answer to `sendRequest`: the connection the call goes to, or the no-connection error. */
  datatype SendOutcome<Conn> = CallMethod(connection: Conn) | NoAvailableConnection

  /** A bucket maps each hash to a server index below `n`, or to -1 when no server is active. */
  ghost predicate BucketInRange(bucket: int -> int, n: nat) {
    forall h :: bucket(h) == -1 || 0 <= bucket(h) < n
  }

  lemma BucketAt(bucket: int -> int, n: nat, h: int)
    requires BucketInRange(bucket, n)
    ensures bucket(h) == -1 || 0 <= bucket(h) < n
  {
  }

  /** The counters after a lookup that picked `serverId`: unchanged for -1, else that one `long` counter bumped. */
  function Counted(counters: seq<int>, serverId: int): (r: seq<int>)
    requires serverId == -1 || 0 <= serverId < |counters|
    ensures |r| == |counters|
    ensures serverId == -1 ==> r == counters
    ensures serverId != -1 ==> r[serverId] == WrapInt64(counters[serverId] + 1)
    ensures forall i :: 0 <= i < |r| && i != serverId ==> r[i] == counters[i]
  {
    if serverId == -1 then counters else counters[serverId := WrapInt64(counters[serverId] + 1)]
  }

  function Sum(s: seq<int>): int {
    if s == [] then 0 else Sum(s[..|s| - 1]) + s[|s| - 1]
  }

  lemma {:induction false} SumUpdate(s: seq<int>, i: nat, v: int)
    requires i < |s|
    ensures Sum(s[i := v]) == Sum(s) - s[i] + v
    decreases |s|
  {
    var n := |s| - 1;
    if i < n {
      assert s[i := v][..n] == s[..n][i := v];
      SumUpdate(s[..n], i, v);
    } else {
      assert s[i := v][..n] == s[..n];
    }
  }

  /** Away from the `long` limit, every request routed to a server adds exactly one to the total of the counters. */
  lemma CountedTotal(counters: seq<int>, serverId: int)
    requires 0 <= serverId < |counters| && IsInt64(counters[serverId] + 1)
    ensures Sum(Counted(counters, serverId)) == Sum(counters) + 1
  {
    SumUpdate(counters, serverId, counters[serverId] + 1);
  }

  class RendezvousHashingSender<Req, Addr, Conn> {
    const hashCode: Req -> int
    /** The configured addresses, one call counter each. */
    const addresses: seq<Addr>
    /** The hash bucket's current choice of server index per hash. */
    var bucket: int -> int
    /** The pool's connection per address, if it has one. */
    var connectionOf: Addr -> Option<Conn>
    const callCounters: array<int>

    ghost predicate Valid()
      reads this
    {
      callCounters.Length == |addresses| && BucketInRange(bucket, |addresses|)
    }

    /** One counter per configured address, all zero. */
    constructor (hashCode: Req -> int, addresses: seq<Addr>, bucket: int -> int, connectionOf: Addr -> Option<Conn>)
      requires BucketInRange(bucket, |addresses|)
      ensures Valid() && fresh(callCounters)
      ensures this.hashCode == hashCode && this.addresses == addresses && this.bucket == bucket && this.connectionOf == connectionOf
      ensures callCounters[..] == seq(|addresses|, i => 0)
    {
      this.hashCode := hashCode;
      this.addresses := addresses;
      this.bucket := bucket;
      this.connectionOf := connectionOf;
      callCounters := new int[|addresses|](i => 0);
    }

    /**
     * `getConnection`: no server gives nothing and counts nothing; otherwise
     * the server's counter goes up, even when the pool has no connection for it.
     */
    method GetConnection(request: Req) returns (connection: Option<Conn>)
      requires Valid()
      modifies callCounters
      ensures Valid()
      ensures var serverId := bucket(hashCode(request));
              && (serverId == -1 || 0 <= serverId < |addresses|)
              && callCounters[..] == Counted(old(callCounters[..]), serverId)
              && connection == (if serverId == -1 then None else connectionOf(addresses[serverId]))
    {
      var serverId := bucket(hashCode(request));
      BucketAt(bucket, |addresses|, hashCode(request));
      if serverId == -1 {
        return None;
      }
      callCounters[serverId] := WrapInt64(callCounters[serverId] + 1);
      return connectionOf(addresses[serverId]);
    }

    /** `sendRequest`: the call goes to the chosen connection; without one the callback gets the no-connection error. */
    method SendRequest(request: Req) returns (outcome: SendOutcome<Conn>)
      requires Valid()
      modifies callCounters
      ensures Valid()
      ensures var serverId := bucket(hashCode(request));
              && (serverId == -1 || 0 <= serverId < |addresses|)
              && callCounters[..] == Counted(old(callCounters[..]), serverId)
              && (outcome == NoAvailableConnection <==> serverId == -1 || connectionOf(addresses[serverId]).None?)
              && (outcome.CallMethod? ==> Some(outcome.connection) == connectionOf(addresses[serverId]))
    {
      var connection := GetConnection(request);
      if connection.None? {
        return NoAvailableConnection;
      }
      return CallMethod(connection.value);
    }

    /** `onConnectionsUpdated`: the bucket is rebuilt from the active addresses. */
    method OnConnectionsUpdated(newBucket: int -> int)
      requires Valid() && BucketInRange(newBucket, |addresses|)
      modifies this`bucket
      ensures Valid() && bucket == newBucket
    {
      bucket := newBucket;
    }

    /** `resetStats`: every counter back to zero. */
    method ResetStats()
      requires Valid()
      modifies callCounters
      ensures Valid()
      ensures forall i :: 0 <= i < callCounters.Length ==> callCounters[i] == 0
    {
      var i := 0;
      while i < callCounters.Length
        invariant 0 <= i <= callCounters.Length
        invariant forall j :: 0 <= j < i ==> callCounters[j] == 0
      {
        callCounters[i] := 0;
        i := i + 1;
      }
    }
  }
}
