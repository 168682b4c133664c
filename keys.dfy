/** How the gate names a request: the client identifier, the exemption test
    on the path, and the counter key built from the two. */
module Keys {
  import opened Store

  /** Paths with this prefix are never counted. */
  const MetricsPrefix: string := "/metrics"

  /** Every counter key starts with this. */
  const KeyPrefix: string := "ratelimit:"

  /** Stands in for a client whose host is empty. */
  const UnknownClient: string := "unknown"

  /** The client identifier: the client's host, or "unknown" when the host is empty. */
  function ClientIp(host: string): (ip: string)
    ensures ip != []
    ensures host != [] ==> ip == host
    ensures host == [] ==> ip == UnknownClient
  {
    if host == [] then UnknownClient else host
  }

  /** A plain prefix test: "/metrics", "/metrics/x" and "/metricsX" are all exempt. */
  predicate IsExempt(path: string) {
    MetricsPrefix <= path
  }

  /** A path is exempt exactly when its first characters spell "/metrics". */
  lemma ExemptExactly(path: string)
    ensures IsExempt(path) <==>
              |path| >= |MetricsPrefix| && forall i :: 0 <= i < |MetricsPrefix| ==> path[i] == MetricsPrefix[i]
  {
    if |path| >= |MetricsPrefix| && forall i :: 0 <= i < |MetricsPrefix| ==> path[i] == MetricsPrefix[i] {
      assert path[..|MetricsPrefix|] == MetricsPrefix;
    }
  }

  /** The test is on the prefix alone, not on a path segment. */
  lemma ExemptIsPlainPrefix()
    ensures IsExempt("/metrics") && IsExempt("/metrics/x") && IsExempt("/metricsX")
    ensures !IsExempt("/metric") && !IsExempt("/api/metrics") && !IsExempt("/Metrics")
  {
    assert "/api/metrics"[1] != MetricsPrefix[1];
    assert "/Metrics"[1] != MetricsPrefix[1];
  }

  /** The counter key of a (client, path) pair. */
  function Key(ip: string, path: string): string {
    KeyPrefix + ip + ":" + path
  }

  /** The key lays out the prefix, the client, a ':' and the path end to end. */
  lemma KeyLayout(ip: string, path: string)
    ensures var k := Key(ip, path);
            && |k| == |KeyPrefix| + |ip| + 1 + |path|
            && k[..|KeyPrefix|] == KeyPrefix
            && k[|KeyPrefix|..|KeyPrefix| + |ip|] == ip
            && k[|KeyPrefix| + |ip|] == ':'
            && k[|KeyPrefix| + |ip| + 1..] == path
  {
    var k := Key(ip, path);
    assert k == KeyPrefix + (ip + (":" + path));
  }

  /** The counter key of a request from `host` for `path`. */
  function CounterKey(host: string, path: string): string {
    Key(ClientIp(host), path)
  }

  /** The host stands in the counter key, or "unknown" when the host is
      empty; every counter key carries the prefix. */
  lemma CounterKeyOf(host: string, path: string)
    ensures host != [] ==> CounterKey(host, path) == Key(host, path)
    ensures host == [] ==> CounterKey(host, path) == Key(UnknownClient, path)
    ensures KeyPrefix <= CounterKey(host, path)
  {
    KeyLayout(ClientIp(host), path);
  }

  /** The position of the first `c` in `s`, or `|s|` when there is none. */
  function IndexOf(s: string, c: char): (i: nat)
    ensures i <= |s|
    ensures i < |s| ==> s[i] == c
    ensures forall j :: 0 <= j < i ==> s[j] != c
  {
    if s == [] then 0
    else if s[0] == c then 0
    else 1 + IndexOf(s[1..], c)
  }

  /** Reads a counter key back into its client and its path: the path is
      everything from the first '/', and the ':' just before it separates
      the two. */
  function SplitKey(k: string): Option<(string, string)> {
    if !(KeyPrefix <= k) then None
    else
      var rest := k[|KeyPrefix|..];
      var i := IndexOf(rest, '/');
      if i == |rest| || i == 0 || rest[i - 1] != ':' then None
      else Some((rest[..i - 1], rest[i..]))
  }

  /** What holds of real requests: a client address has no '/', and a URL
      path starts with one. */
  predicate WellFormed(ip: string, path: string) {
    '/' !in ip && |path| > 0 && path[0] == '/'
  }

  /** The client and the path can be read back from the key. */
  lemma KeyRoundTrip(ip: string, path: string)
    requires WellFormed(ip, path)
    ensures SplitKey(Key(ip, path)) == Some((ip, path))
  {
    var k := Key(ip, path);
    var rest := ip + ":" + path;
    assert k == KeyPrefix + rest;
    assert KeyPrefix <= k;
    assert k[|KeyPrefix|..] == rest;
    var i := IndexOf(rest, '/');
    assert rest[|ip| + 1] == '/';
    forall j | 0 <= j <= |ip|
      ensures rest[j] != '/'
    {
      if j < |ip| {
        assert rest[j] == ip[j];
      }
    }
    assert i == |ip| + 1;
    assert rest[..i - 1] == ip;
    assert rest[i..] == path;
  }

  /** Distinct (client, path) pairs never share a counter. */
  lemma KeyInjective(ip1: string, path1: string, ip2: string, path2: string)
    requires WellFormed(ip1, path1) && WellFormed(ip2, path2)
    requires Key(ip1, path1) == Key(ip2, path2)
    ensures ip1 == ip2 && path1 == path2
  {
    KeyRoundTrip(ip1, path1);
    KeyRoundTrip(ip2, path2);
  }

  /** Two requests share a counter exactly when their client identifiers and
      paths agree (for hosts without '/' and paths that start with '/'). */
  lemma CounterKeyDistinct(host1: string, path1: string, host2: string, path2: string)
    requires '/' !in host1 && '/' !in host2
    requires |path1| > 0 && path1[0] == '/' && |path2| > 0 && path2[0] == '/'
    ensures CounterKey(host1, path1) == CounterKey(host2, path2)
            <==> ClientIp(host1) == ClientIp(host2) && path1 == path2
  {
    assert '/' !in UnknownClient;
    if CounterKey(host1, path1) == CounterKey(host2, path2) {
      KeyInjective(ClientIp(host1), path1, ClientIp(host2), path2);
    }
  }
}
