/**
 * The reachability check of the configured units: each entry's address is
 * split at its ':' and the host is pinged `retries` times.
 */
module IpChecker {
  import opened Wrappers

  /** What ping() returns: a round-trip time, None on timeout, or False when the host cannot be resolved. */
  datatype PingResult = Reply(seconds: real) | NoReply | Unresolved

  /** The answer to the attempt-th ping of the entry-th configured address. */
  type Pinger = (nat, nat) -> PingResult

  /** One row of the result: (name, ip_address, status). */
  datatype Status = Status(name: string, ip: string, alive: bool)

  /** Number of occurrences of c in s. */
  function Count(s: string, c: char): nat {
    if s == [] then 0 else Count(s[..|s| - 1], c) + (if s[|s| - 1] == c then 1 else 0)
  }

  lemma {:induction false} CountAppend(a: string, b: string, c: char)
    ensures Count(a + b, c) == Count(a, c) + Count(b, c)
  {
    if b == [] {
      assert a + b == a;
    } else {
      assert (a + b)[..|a + b| - 1] == a + b[..|b| - 1];
      CountAppend(a, b[..|b| - 1], c);
    }
  }

  lemma {:induction false} CountAbsent(s: string, c: char)
    ensures Count(s, c) == 0 <==> c !in s
  {
    if s != [] {
      CountAbsent(s[..|s| - 1], c);
      assert s == s[..|s| - 1] + [s[|s| - 1]];
    }
  }

  /**
   * `ip_address, _ = ips.split(":")`: the text before the colon when there is
   * exactly one; any other count raises ValueError on the unpacking.
   */
  function HostOf(ips: string): (r: Option<string>)
    ensures r.Some? ==> ':' !in r.value && exists k :: 0 <= k < |ips| && ips[k] == ':' && r.value == ips[..k]
  {
    var k := HostEnd(ips);
    if k < |ips| && ':' !in ips[k + 1..] then Some(ips[..k]) else None
  }

  /** The split succeeds exactly for addresses with one colon. */
  lemma HostOfDefined(ips: string)
    ensures HostOf(ips).Some? <==> Count(ips, ':') == 1
  {
    var k := HostEnd(ips);
    if k < |ips| {
      CountSplit(ips, k);
      CountAbsent(ips[k + 1..], ':');
    } else {
      assert ips[..k] == ips;
      CountAbsent(ips, ':');
    }
  }

  /** The index of the first ':' in s, or |s|. */
  function HostEnd(s: string): (k: nat)
    ensures k <= |s| && ':' !in s[..k] && (k < |s| ==> s[k] == ':')
  {
    if s == [] || s[0] == ':' then 0
    else
      assert s[..1 + HostEnd(s[1..])] == [s[0]] + s[1..][..HostEnd(s[1..])];
      1 + HostEnd(s[1..])
  }

  lemma CountSplit(s: string, k: nat)
    requires k < |s| && ':' !in s[..k] && s[k] == ':'
    ensures Count(s, ':') == 1 + Count(s[k + 1..], ':')
  {
    assert s == s[..k] + ([s[k]] + s[k + 1..]);
    CountAppend(s[..k], [s[k]] + s[k + 1..], ':');
    CountAppend([s[k]], s[k + 1..], ':');
    CountAbsent(s[..k], ':');
    assert Count([s[k]], ':') == 1 by {
      assert [s[k]][..0] == [];
    }
  }

  /** An address written host:port with a colon-free host and port gives back the host. */
  lemma HostOfJoin(host: string, port: string)
    requires ':' !in host && ':' !in port
    ensures HostOf(host + ":" + port) == Some(host)
  {
    var s := host + ":" + port;
    assert s[|host|] == ':' && s[..|host|] == host;
    CountSplit(s, |host|);
    assert s[|host| + 1..] == port;
    CountAbsent(port, ':');
  }

  /** The pings among the first `attempts` that got any answer other than None. */
  function Successes(ping: Pinger, entry: nat, attempts: nat): (n: nat)
    ensures n <= attempts
  {
    if attempts == 0 then 0
    else Successes(ping, entry, attempts - 1) + (if ping(entry, attempts - 1) != NoReply then 1 else 0)
  }

  /** range(retries) is empty for a retries below one. */
  function Attempts(retries: int): nat {
    if retries < 0 then 0 else retries
  }

  /** `status = success_count == 2`. */
  predicate Alive(ping: Pinger, entry: nat, retries: int) {
    Successes(ping, entry, Attempts(retries)) == 2
  }

  /** check_ip over the entries of ip_addresses.json, in file order. */
  function CheckIpResult(config: seq<(string, string)>, retries: int, ping: Pinger): (r: Result<seq<Status>>)
    ensures r.Raised? <==> exists k :: 0 <= k < |config| && HostOf(config[k].1).None?
    ensures r.Ok? ==> |r.value| == |config| && forall k :: 0 <= k < |config| ==>
      r.value[k] == Status(config[k].0, HostOf(config[k].1).value, Alive(ping, k, retries))
  {
    if exists k :: 0 <= k < |config| && HostOf(config[k].1).None? then Raised("ValueError: not enough values to unpack")
    else Ok(seq(|config|, k requires 0 <= k < |config| => Status(config[k].0, HostOf(config[k].1).value, Alive(ping, k, retries))))
  }

  /** The inner loop: ping the host `retries` times, counting answers that are not None. */
  method CountReplies(ping: Pinger, entry: nat, retries: int) returns (successCount: nat)
    ensures successCount == Successes(ping, entry, Attempts(retries))
  {
    successCount := 0;
    var a := 0;
    while a < retries
      invariant 0 <= a <= Attempts(retries)
      invariant successCount == Successes(ping, entry, a)
    {
      var responseTime := ping(entry, a);
      if responseTime != NoReply {
        successCount := successCount + 1;
      }
      a := a + 1;
    }
  }

  /** check_ip(retries). */
  method CheckIp(config: seq<(string, string)>, retries: int, ping: Pinger) returns (r: Result<seq<Status>>)
    ensures r == CheckIpResult(config, retries, ping)
  {
    var results: seq<Status> := [];
    var i := 0;
    while i < |config|
      invariant 0 <= i <= |config|
      invariant |results| == i
      invariant forall k :: 0 <= k < i ==> (HostOf(config[k].1).Some? &&
        results[k] == Status(config[k].0, HostOf(config[k].1).value, Alive(ping, k, retries)))
    {
      var (name, ips) := config[i];
      var host := HostOf(ips);
      if host.None? {
        assert HostOf(config[i].1).None?;
        return Raised("ValueError: not enough values to unpack");
      }
      var successCount := CountReplies(ping, i, retries);
      var status := successCount == 2;
      results := results + [Status(name, host.value, status)];
      i := i + 1;
    }
    assert !exists k :: 0 <= k < |config| && HostOf(config[k].1).None?;
    assert results == CheckIpResult(config, retries, ping).value;
    r := Ok(results);
  }

  /** Status is true exactly when two pings were answered: never with fewer than two tries, and not when three of three answer. */
  lemma StatusNeedsExactlyTwo(ping: Pinger, entry: nat, retries: int)
    ensures retries < 2 ==> !Alive(ping, entry, retries)
    ensures retries == 3 && (forall a :: 0 <= a < 3 ==> ping(entry, a) != NoReply) ==> !Alive(ping, entry, retries)
  {
    if retries == 3 && (forall a :: 0 <= a < 3 ==> ping(entry, a) != NoReply) {
      assert ping(entry, 0) != NoReply && ping(entry, 1) != NoReply && ping(entry, 2) != NoReply;
      assert Successes(ping, entry, 1) == 1;
      assert Successes(ping, entry, 2) == 2;
    }
  }

  /** A host that cannot be resolved (ping gives False) still counts as answering. */
  lemma UnresolvedCounts(ping: Pinger, entry: nat)
    requires ping(entry, 0) == Unresolved && ping(entry, 1) == Unresolved
    ensures Alive(ping, entry, 2)
  {
  }
}
