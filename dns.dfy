/**
 * The TTL resolution cache of backend/dnscache.go: host name -> resolved
 * addresses with an expiry time. The clock is the integer `now` passed to each
 * lookup; the live resolver is the parameter `answer`, what it would return if
 * consulted for that host.
 */
module Dns {
  /** What the live resolver gives for one host. */
  datatype Resolution = Addrs(list: seq<string>) | ResolveError(msg: string)

  datatype Entry = Entry(addrs: seq<string>, expiry: int)

  /** The cache serves `host` at time `now`: there is an entry and `now` is strictly before its expiry. */
  predicate Live(cache: map<string, Entry>, host: string, now: int) {
    host in cache && now < cache[host].expiry
  }

  /** An entry stored at time `t` serves exactly the lookups made before `t + ttl`. */
  lemma StoredEntryLifetime(cache: map<string, Entry>, host: string, addrs: seq<string>, t: int, ttl: nat, later: int)
    ensures Live(cache[host := Entry(addrs, t + ttl)], host, later) <==> later < t + ttl
    ensures ttl == 0 ==> !Live(cache[host := Entry(addrs, t + ttl)], host, t)
  {}

  class DnsCache {
    var cache: map<string, Entry>
    var ttl: nat

    /** newDNSCache: an empty cache whose entries live for `ttl`. */
    constructor (ttl: nat)
      ensures cache == map[] && this.ttl == ttl
    {
      cache := map[];
      this.ttl := ttl;
    }

    /**
     * LookupHost: a live entry answers without the resolver and the cache
     * stays as it is; otherwise the resolver answers, and only a successful
     * answer is stored, for `ttl` from `now`.
     */
    method LookupHost(host: string, now: int, answer: Resolution) returns (r: Resolution)
      modifies this`cache
      ensures Live(old(cache), host, now) ==> r == Addrs(old(cache)[host].addrs) && cache == old(cache)
      ensures !Live(old(cache), host, now) ==> r == answer
      ensures !Live(old(cache), host, now) && answer.ResolveError? ==> cache == old(cache)
      ensures !Live(old(cache), host, now) && answer.Addrs? ==>
                cache == old(cache)[host := Entry(answer.list, now + ttl)]
    {
      if host in cache && now < cache[host].expiry {
        var e := cache[host];
        return Addrs(e.addrs);
      }
      match answer
      case ResolveError(_) =>
        return answer;
      case Addrs(addrs) =>
        cache := cache[host := Entry(addrs, now + ttl)];
        return answer;
    }
  }

  /**
   * backend/main_test.go, TestDNSCache, generalised: on a fresh cache, a lookup
   * at `t1` that resolves is answered again from the cache by a lookup at any
   * `t2` before `t1 + ttl`, whatever the resolver would say then; from
   * `t1 + ttl` on, the resolver is consulted again.
   */
  method TwoLookups(ttl: nat, host: string, t1: int, a1: Resolution, t2: int, a2: Resolution)
    returns (r1: Resolution, r2: Resolution)
    ensures r1 == a1
    ensures a1.Addrs? && t2 < t1 + ttl ==> r2 == a1
    ensures a1.Addrs? && t2 >= t1 + ttl ==> r2 == a2
    ensures a1.ResolveError? ==> r2 == a2
  {
    var d := new DnsCache(ttl);
    r1 := d.LookupHost(host, t1, a1);
    r2 := d.LookupHost(host, t2, a2);
  }
}
