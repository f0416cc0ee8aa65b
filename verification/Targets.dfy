/** What a run request must look like before any file is generated from it.  Reading a port number is a
    parameter, as the platform's integer parser is. */
module Targets {
  import opened Wrappers
  import opened Text
  import opened Allowlist
  import opened SshConfig

  datatype Target = Target(name: string, address: string, user: string, port: int)

  type ParseInt = string -> Option<int>

  // ----- host and port -----

  /** The position of the last colon, or the length when there is none. */
  function LastColon(s: string): (i: nat)
    ensures i <= |s| && (i < |s| ==> s[i] == ':' && ':' !in s[i + 1..])
    ensures i == |s| <==> ':' !in s
  {
    if s == "" then 0 else
    var n := |s| - 1;
    if s[n] == ':' then n else
    var i := LastColon(s[..n]);
    assert s == s[..n] + [s[n]];
    if i == n then |s| else
    assert s[i + 1..] == s[..n][i + 1..] + [s[n]];
    i
  }

  const DEFAULT_PORT: int := 22

  function SplitHostPort(s: string, parse: ParseInt): (string, int) {
    var i := LastColon(s);
    if i < |s| && parse(s[i + 1..]).Some? then (s[..i], parse(s[i + 1..]).value) else (s, DEFAULT_PORT)
  }

  /** Host and port come back from the text that names both, whatever the host looks like. */
  lemma HostPortRoundTrip(host: string, port: nat, parse: ParseInt)
    requires parse(Decimal(port)) == Some(port)
    ensures SplitHostPort(host + ":" + Decimal(port), parse) == (host, port)
  {
    assert forall c :: c in Decimal(port) ==> '0' <= c <= '9';
    LastColonAt(host + ":" + Decimal(port), host, Decimal(port));
  }

  /** The text is a host, a colon and a number. */
  predicate NamesPort(s: string, host: string, port: string, parse: ParseInt) {
    s == host + ":" + port && ':' !in port && parse(port).Some?
  }

  /** A text stands for a host alone exactly when it is not some host, a colon and a number.  An IPv6 literal
      whose last group is a number is, and is cut. */
  lemma HostAloneIff(s: string, parse: ParseInt)
    ensures SplitHostPort(s, parse) == (s, 22) <==> !exists host, port :: NamesPort(s, host, port, parse)
  {
    var i := LastColon(s);
    if i < |s| && parse(s[i + 1..]).Some? {
      assert NamesPort(s, s[..i], s[i + 1..], parse);
      assert |s[..i]| < |s|;
    }
    forall host, port | NamesPort(s, host, port, parse) ensures i == |host| && s[i + 1..] == port {
      LastColonAt(s, host, port);
    }
  }

  lemma LastColonAt(s: string, host: string, port: string)
    requires s == host + ":" + port && ':' !in port
    ensures LastColon(s) == |host| && s[..|host|] == host && s[|host| + 1..] == port
  {
    var i := LastColon(s);
    assert s[|host|] == ':' && s[|host| + 1..] == port;
    assert i < |s| by { assert ':' in s; }
    assert !(i < |host|) by { assert s[|host|..][0] == ':'; }
    assert !(i > |host|);
    assert s[..i] == host;
  }

  lemma LiteralIsCut(parse: ParseInt)
    requires parse("1") == Some(1)
    ensures SplitHostPort("fe80::1", parse) == ("fe80:", 1)
  {
    assert Decimal(1) == "1" && "fe80:" + ":" + "1" == "fe80::1";
    HostPortRoundTrip("fe80:", 1, parse);
  }

  // ----- the whole request -----

  datatype Problem = BadName(i: nat) | BadAddress(i: nat) | BadUser(i: nat) | BadPort(i: nat)
                   | BadJumpUser | BadJumpHost | BadJumpPort

  predicate TargetOk(t: Target) { NameOk(t.name) && AddressOk(t.address) && NameOk(t.user) && PortOk(t.port) }

  predicate AllOk(ts: seq<Target>) { forall i :: 0 <= i < |ts| ==> TargetOk(ts[i]) }

  predicate JumpOk(jumpHost: string, parse: ParseInt) {
    var (h, p) := SplitHostPort(jumpHost, parse);
    jumpHost == "" || (AddressOk(h) && PortOk(p))
  }

  /** The problem named is the first one there is: hosts in order, then the jump settings. */
  predicate FirstProblem(p: Problem, ts: seq<Target>, jumpHost: string, jumpUser: string, parse: ParseInt) {
    match p
    case BadName(i) => i < |ts| && AllOk(ts[..i]) && !NameOk(ts[i].name)
    case BadAddress(i) => i < |ts| && AllOk(ts[..i]) && NameOk(ts[i].name) && !AddressOk(ts[i].address)
    case BadUser(i) =>
      i < |ts| && AllOk(ts[..i]) && NameOk(ts[i].name) && AddressOk(ts[i].address) && !NameOk(ts[i].user)
    case BadPort(i) => i < |ts| && AllOk(ts[..i]) && NameOk(ts[i].name) && AddressOk(ts[i].address)
                       && NameOk(ts[i].user) && !PortOk(ts[i].port)
    case BadJumpUser => AllOk(ts) && !NameOk(jumpUser)
    case BadJumpHost => AllOk(ts) && NameOk(jumpUser) && jumpHost != "" && !AddressOk(SplitHostPort(jumpHost, parse).0)
    case BadJumpPort => AllOk(ts) && NameOk(jumpUser) && jumpHost != "" && AddressOk(SplitHostPort(jumpHost, parse).0)
                        && !PortOk(SplitHostPort(jumpHost, parse).1)
  }

  /** Accepts exactly the requests without a problem, and names the first problem of any other. */
  method ValidateTargets(ts: seq<Target>, jumpHost: string, jumpUser: string, parse: ParseInt) returns (bad: Option<Problem>)
    ensures bad.None? <==> AllOk(ts) && NameOk(jumpUser) && JumpOk(jumpHost, parse)
    ensures bad.Some? ==> FirstProblem(bad.value, ts, jumpHost, jumpUser, parse)
  {
    for i := 0 to |ts|
      invariant AllOk(ts[..i])
    {
      var t := ts[i];
      assert !TargetOk(t) ==> !AllOk(ts);
      if !NameOk(t.name) { return Some(BadName(i)); }
      if !AddressOk(t.address) { return Some(BadAddress(i)); }
      if !NameOk(t.user) { return Some(BadUser(i)); }
      if !PortOk(t.port) { return Some(BadPort(i)); }
      assert ts[..i + 1] == ts[..i] + [t];
    }
    assert ts[..|ts|] == ts;
    if !NameOk(jumpUser) { return Some(BadJumpUser); }
    var (h, p) := SplitHostPort(jumpHost, parse);
    if jumpHost != "" && !AddressOk(h) { return Some(BadJumpHost); }
    if jumpHost != "" && !PortOk(p) { return Some(BadJumpPort); }
    return None;
  }

  function TargetsOf(hosts: seq<Host>): seq<Target> {
    seq(|hosts|, i requires 0 <= i < |hosts| => Target(hosts[i].name, hosts[i].address, hosts[i].user, hosts[i].port))
  }

  lemma AcceptedAddress(hosts: seq<Host>, i: nat)
    requires AllOk(TargetsOf(hosts)) && i < |hosts|
    ensures NameOk(hosts[i].name) && AddressOk(hosts[i].address) && NameOk(hosts[i].user)
  {
    assert TargetOk(TargetsOf(hosts)[i]);
  }
}
