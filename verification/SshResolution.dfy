/** What the generated ssh_config means for every host of a run and for the jump host. */
module SshResolution {
  import opened Wrappers
  import opened Text
  import opened Allowlist
  import opened SshConfig
  import opened SshMeaning
  import opened JumpSettings

  // ----- values that may be written into the config -----

  /** Addresses that are written are on the allowlist. */
  predicate Addressed(hosts: seq<Host>) { forall h :: h in hosts && Vaulted(h) ==> Allowed(h.address) }

  predicate PlainFiles(f: Files) {
    OneLine(f.key) && OneLine(f.knownHosts) && forall a :: a in f.vaultKeys ==> OneLine(f.vaultKeys[a])
  }

  /** What the text needs: allowlisted vaulted addresses, a stored key for every key host, and no line feed in
      the paths and, but for one at the end, in the jump settings. */
  predicate Writable(j: Jump, hosts: seq<Host>, f: Files) {
    && Addressed(hosts) && KeysReady(hosts, f) && PlainFiles(f) && OneLine(Chop(j.host)) && OneLine(Chop(j.user))
  }

  /** No host shares its address with a vaulted one. */
  predicate VaultsApart(hosts: seq<Host>) {
    forall i, k :: 0 <= i < |hosts| && 0 <= k < |hosts| && i != k && Vaulted(hosts[i]) ==>
                     hosts[i].address != hosts[k].address
  }

  /** What the hosts need: no vaulted address given twice, none the jump alias. */
  predicate Apart(hosts: seq<Host>) {
    VaultsApart(hosts) && forall i :: 0 <= i < |hosts| ==> hosts[i].address != JUMP
  }

  predicate Proper(j: Jump, hosts: seq<Host>, f: Files) { Writable(j, hosts, f) && Apart(hosts) }

  // ----- patterns without wildcards -----

  predicate Literal(p: string) { '*' !in p && '?' !in p && !Negation(p) }

  lemma {:induction false} GlobLiteral(p: string, s: string)
    requires '*' !in p && '?' !in p
    ensures Glob(p, s) <==> p == s
    decreases |p|
  {
    if p != "" {
      assert p[0] in p;
      if s != "" && p[0] == s[0] {
        GlobLiteral(p[1..], s[1..]);
        assert p == [p[0]] + p[1..] && s == [s[0]] + s[1..];
      }
    }
  }

  lemma {:induction false} GlobStar(s: string)
    ensures Glob("*", s)
    decreases |s|
  {
    if s != "" { GlobStar(s[1..]); }
    else { assert "*"[1..] == ""; }
  }

  lemma AllowedIsLiteral(a: string)
    requires Allowed(a)
    ensures Word(a) && Literal(a)
  {
    assert a[0] in a;
  }

  lemma JumpIsLiteral()
    ensures Word(JUMP) && Literal(JUMP)
  {
    assert forall i :: 0 <= i < |JUMP| ==> AddressChar(JUMP[i]);
    AllowedIsLiteral(JUMP);
  }

  lemma SinglePattern(s: Stanza, p: string, host: string)
    requires s.patterns == [p] && Literal(p)
    ensures Applies(s, host) <==> host == p
  {
    GlobLiteral(p, host);
    assert p in s.patterns;
  }

  // ----- which stanzas apply -----

  lemma {:induction false} SelectedAppend(a: seq<Stanza>, b: seq<Stanza>, host: string)
    ensures Selected(a + b, host) == Selected(a, host) + Selected(b, host)
    decreases |b|
  {
    if b == [] { assert a + b == a; } else {
      assert (a + b)[..|a + b| - 1] == a + b[..|b| - 1];
      SelectedAppend(a, b[..|b| - 1], host);
    }
  }

  lemma {:induction false} NoVaultStanza(hosts: seq<Host>, f: Files, host: string)
    requires KeysReady(hosts, f) && Addressed(hosts)
    requires forall h :: h in hosts && Vaulted(h) ==> h.address != host
    ensures Selected(VaultStanzas(hosts, f), host) == []
    decreases |hosts|
  {
    if hosts != [] {
      var h := hosts[|hosts| - 1];
      assert h in hosts;
      NoVaultStanza(hosts[..|hosts| - 1], f, host);
      if Vaulted(h) { LastVaultStanza(hosts, f, host); }
      else { assert VaultStanzas(hosts[..|hosts| - 1], f) + [] == VaultStanzas(hosts[..|hosts| - 1], f); }
    }
  }

  lemma LastVaultStanza(hosts: seq<Host>, f: Files, host: string)
    requires KeysReady(hosts, f) && Addressed(hosts) && hosts != [] && Vaulted(hosts[|hosts| - 1])
    ensures var h := hosts[|hosts| - 1];
            h in hosts &&
            Selected(VaultStanzas(hosts, f), host)
            == Selected(VaultStanzas(hosts[..|hosts| - 1], f), host) + (if h.address == host then [VaultStanza(h, f)] else [])
  {
    var h := hosts[|hosts| - 1];
    assert h in hosts;
    var s := VaultStanza(h, f);
    AllowedIsLiteral(h.address);
    SinglePattern(s, h.address, host);
    SelectedAppend(VaultStanzas(hosts[..|hosts| - 1], f), [s], host);
    assert [s][..0] == [] && Selected([], host) == [];
  }

  lemma {:induction false} OneVaultStanza(hosts: seq<Host>, f: Files, i: nat)
    requires KeysReady(hosts, f) && Addressed(hosts) && VaultsApart(hosts)
    requires i < |hosts| && Vaulted(hosts[i])
    ensures hosts[i] in hosts && Selected(VaultStanzas(hosts, f), hosts[i].address) == [VaultStanza(hosts[i], f)]
    decreases |hosts|
  {
    var init, h, a := hosts[..|hosts| - 1], hosts[|hosts| - 1], hosts[i].address;
    assert h in hosts && hosts[i] in hosts;
    if i == |hosts| - 1 {
      NoVaultStanza(init, f, a);
      LastVaultStanza(hosts, f, a);
    } else {
      OneVaultStanza(init, f, i);
      if Vaulted(h) { LastVaultStanza(hosts, f, a); }
      else { assert VaultStanzas(init, f) + [] == VaultStanzas(init, f); }
    }
  }

  lemma {:induction false} VaultedAddrsAre(hosts: seq<Host>, a: string)
    ensures a in VaultedAddrs(hosts) <==> exists h :: h in hosts && Vaulted(h) && h.address == a
    decreases |hosts|
  {
    if hosts != [] {
      var init, h := hosts[..|hosts| - 1], hosts[|hosts| - 1];
      VaultedAddrsAre(init, a);
      assert hosts == init + [h];
    }
  }

  lemma {:induction false} NegatedAre(addrs: seq<string>, p: string)
    ensures p in Negated(addrs) <==> Negation(p) && p[1..] in addrs
    decreases |addrs|
  {
    if addrs != [] {
      var init, a := addrs[..|addrs| - 1], addrs[|addrs| - 1];
      NegatedAre(init, p);
      assert addrs == init + [a];
      assert ("!" + a)[1..] == a;
      if Negation(p) && p[1..] == a { assert p == "!" + a; }
    }
  }

  /** The catch-all applies to exactly the hosts without a stanza of their own. */
  lemma CatchAllApplies(hosts: seq<Host>, f: Files, host: string)
    requires Addressed(hosts)
    ensures Applies(CatchAll(hosts, f), host) <==> host != JUMP && host !in VaultedAddrs(hosts)
  {
    var s := CatchAll(hosts, f);
    var addrs := VaultedAddrs(hosts);
    GlobStar(host);
    assert "*" in s.patterns && !Negation("*");
    JumpIsLiteral();
    assert ("!" + JUMP)[1..] == JUMP;
    forall p | p in s.patterns && Negation(p) ensures Glob(p[1..], host) <==> p[1..] == host {
      NegatedAre(addrs, p);
      if p[1..] in addrs {
        VaultedAddrsAre(hosts, p[1..]);
        AllowedIsLiteral(p[1..]);
      } else {
        assert p == "!" + JUMP;
      }
      GlobLiteral(p[1..], host);
    }
    var own := "!" + host;
    assert own[1..] == host && Negation(own);
    NegatedAre(addrs, own);
    if host == JUMP || host in addrs {
      assert own in s.patterns && Glob(own[1..], host);
    } else {
      forall p | p in s.patterns && Negation(p) ensures !Glob(p[1..], host) {
        if p[1..] == host { assert p == own; NegatedAre(addrs, p); assert false; }
      }
    }
  }

  // ----- the generated stanzas are clean, so the text reads back -----

  predicate CleanOptions(os: seq<(string, string)>) {
    forall i :: 0 <= i < |os| ==> Keyword(os[i].0) && OneLine(os[i].1)
  }

  lemma KeywordOf(k: string)
    requires k != "" && k != "Host" && forall i :: 0 <= i < |k| ==> HostnameChar(k[i])
    ensures Keyword(k)
  {
  }

  /** The keywords the generator uses. */
  lemma Keywords()
    ensures Keyword("HostName") && Keyword("Port") && Keyword("User") && Keyword("IdentityFile") && Keyword("ProxyJump")
    ensures Keyword("PubkeyAuthentication") && Keyword("PreferredAuthentications") && Keyword("NumberOfPasswordPrompts")
  {
    KeywordOf("HostName"); KeywordOf("Port"); KeywordOf("User"); KeywordOf("IdentityFile"); KeywordOf("ProxyJump");
    KeywordOf("PubkeyAuthentication"); KeywordOf("PreferredAuthentications"); KeywordOf("NumberOfPasswordPrompts");
  }

  lemma CommonClean(f: Files)
    requires OneLine(f.knownHosts)
    ensures CleanOptions(Common(f))
  {
    KeywordOf("IdentitiesOnly"); KeywordOf("StrictHostKeyChecking"); KeywordOf("UserKnownHostsFile"); KeywordOf("ConnectTimeout");
    assert OneLine("yes") && OneLine("accept-new") && OneLine("15");
  }

  lemma CleanFrom(s: Stanza)
    requires s.patterns != [] && (forall p :: p in s.patterns ==> Word(p)) && CleanOptions(s.options)
    ensures Clean(s)
  {
  }

  lemma JumpClean(j: Jump, hosts: seq<Host>, f: Files)
    requires Writable(j, hosts, f)
    ensures Clean(JumpStanza(ChopJump(j), f))
  {
    Keywords(); CommonClean(f); JumpIsLiteral();
    assert OneLine(Decimal(j.port));
    CleanFrom(JumpStanza(ChopJump(j), f));
  }

  lemma VaultClean(j: Jump, hosts: seq<Host>, f: Files, h: Host)
    requires Writable(j, hosts, f) && h in hosts && Vaulted(h)
    ensures Clean(VaultStanza(h, f))
  {
    Keywords(); CommonClean(f);
    AllowedIsLiteral(h.address);
    assert OneLine(JUMP) && OneLine("no") && OneLine("password,keyboard-interactive") && OneLine("1");
    CleanFrom(VaultStanza(h, f));
  }

  lemma CatchAllPatterns(hosts: seq<Host>, f: Files, p: string)
    requires Addressed(hosts) && p in CatchAll(hosts, f).patterns
    ensures Word(p)
  {
    var addrs := VaultedAddrs(hosts);
    if p in Negated(addrs) {
      NegatedAre(addrs, p);
      VaultedAddrsAre(hosts, p[1..]);
      AllowedIsLiteral(p[1..]);
      assert p == "!" + p[1..];
    } else {
      JumpIsLiteral();
      assert p == "*" || p == "!" + JUMP;
    }
  }

  lemma CatchAllClean(j: Jump, hosts: seq<Host>, f: Files)
    requires Writable(j, hosts, f)
    ensures Clean(CatchAll(hosts, f))
  {
    Keywords(); CommonClean(f);
    assert OneLine(JUMP);
    var s := CatchAll(hosts, f);
    forall p | p in s.patterns ensures Word(p) { CatchAllPatterns(hosts, f, p); }
    CleanFrom(s);
  }

  lemma {:induction false} VaultStanzasFrom(hosts: seq<Host>, f: Files, s: Stanza)
    requires KeysReady(hosts, f) && s in VaultStanzas(hosts, f)
    ensures exists h :: h in hosts && Vaulted(h) && s == VaultStanza(h, f)
    decreases |hosts|
  {
    var init, h := hosts[..|hosts| - 1], hosts[|hosts| - 1];
    assert hosts == init + [h];
    if s in VaultStanzas(init, f) { VaultStanzasFrom(init, f, s); } else { assert h in hosts; }
  }

  /** The generated text, parsed, is the list of stanzas it was generated from, jump settings without a final
      line feed. */
  lemma ConfigReadsBack(j: Jump, hosts: seq<Host>, f: Files)
    requires Writable(j, hosts, f)
    ensures Parse(ConfigText(j, hosts, f)) == Stanzas(ChopJump(j), hosts, f)
  {
    var ss := Stanzas(ChopJump(j), hosts, f);
    forall s | s in ss ensures Clean(s) {
      if s in VaultStanzas(hosts, f) {
        VaultStanzasFrom(hosts, f, s);
        var h :| h in hosts && Vaulted(h) && s == VaultStanza(h, f);
        VaultClean(j, hosts, f, h);
      } else if s == JumpStanza(ChopJump(j), f) {
        JumpClean(j, hosts, f);
      } else {
        CatchAllClean(j, hosts, f);
      }
    }
    ReadsBack(ss);
    ChoppedJumpParses(j, hosts, f);
  }

  // ----- no pattern that is read has a line feed in it -----

  lemma {:induction false} SplitParts(s: string, sep: char)
    ensures forall p :: p in Split(s, sep) ==> sep !in p && forall c :: c in p ==> c in s
  {
    if s != "" { SplitParts(s[1..], sep); }
  }

  lemma {:induction false} NonEmptyFrom(ws: seq<string>)
    ensures forall w :: w in NonEmpty(ws) ==> w in ws
  {
    if ws != [] { NonEmptyFrom(ws[1..]); }
  }

  lemma {:induction false} TrimLeftFrom(s: string)
    ensures forall c :: c in TrimLeft(s) ==> c in s
  {
    if s != "" && IsSpace(s[0]) { TrimLeftFrom(s[1..]); }
  }

  lemma LinePatterns(line: string)
    requires OneLine(line) && ParseLine(line).HostLine?
    ensures forall p :: p in ParseLine(line).patterns ==> OneLine(p)
  {
    TrimLeftFrom(line);
    var t := TrimLeft(line);
    var i := IndexOf(t, ' ');
    var value := if i < |t| then t[i + 1..] else "";
    assert OneLine(value);
    SplitParts(value, ' ');
    NonEmptyFrom(Split(value, ' '));
  }

  predicate PatternsOneLine(ss: seq<Stanza>) {
    forall i :: 0 <= i < |ss| ==> forall p :: p in ss[i].patterns ==> OneLine(p)
  }

  lemma {:induction false} ParsedPatterns(ss: seq<Stanza>, lines: seq<string>)
    requires PatternsOneLine(ss) && forall l :: l in lines ==> OneLine(l)
    ensures PatternsOneLine(ParseFrom(ss, lines))
    decreases |lines|
  {
    if lines != [] {
      assert lines[0] in lines;
      if ParseLine(lines[0]).HostLine? { LinePatterns(lines[0]); }
      ParsedPatterns(Feed(ss, ParseLine(lines[0])), lines[1..]);
    }
  }

  lemma {:induction false} SelectedFrom(ss: seq<Stanza>, host: string, s: Stanza)
    requires s in Selected(ss, host)
    ensures s in ss
    decreases |ss|
  {
    if s in Selected(ss[..|ss| - 1], host) { SelectedFrom(ss[..|ss| - 1], host, s); }
  }

  // ----- what hosts get -----

  function StanzaFor(h: Host, hosts: seq<Host>, f: Files): Stanza
    requires KeysReady(hosts, f) && h in hosts
  {
    if Vaulted(h) then VaultStanza(h, f) else CatchAll(hosts, f)
  }

  lemma SelectedOne(s: Stanza, host: string)
    ensures Selected([s], host) == if Applies(s, host) then [s] else []
  {
    assert [s][..0] == [] && Selected([], host) == [];
  }

  lemma SelectedThree(first: Stanza, mid: seq<Stanza>, last: Stanza, host: string)
    ensures Selected([first] + mid + [last], host)
            == (if Applies(first, host) then [first] else []) + Selected(mid, host)
               + (if Applies(last, host) then [last] else [])
  {
    SelectedAppend([first] + mid, [last], host);
    SelectedAppend([first], mid, host);
    SelectedOne(first, host);
    SelectedOne(last, host);
  }

  lemma JumpApplies(j: Jump, f: Files, host: string)
    ensures Applies(JumpStanza(j, f), host) <==> host == JUMP
  {
    JumpIsLiteral();
    SinglePattern(JumpStanza(j, f), JUMP, host);
  }

  lemma OtherVaultsDiffer(hosts: seq<Host>, i: nat)
    requires VaultsApart(hosts) && i < |hosts| && !Vaulted(hosts[i])
    ensures forall x :: x in hosts && Vaulted(x) ==> x.address != hosts[i].address
  {
    forall x | x in hosts && Vaulted(x) ensures x.address != hosts[i].address {
      var k :| 0 <= k < |hosts| && hosts[k] == x;
    }
  }

  lemma VaultedSelected(j: Jump, hosts: seq<Host>, f: Files, i: nat)
    requires Proper(j, hosts, f) && i < |hosts| && Vaulted(hosts[i])
    ensures hosts[i] in hosts && Selected(Stanzas(j, hosts, f), hosts[i].address) == [VaultStanza(hosts[i], f)]
  {
    var a := hosts[i].address;
    assert hosts[i] in hosts;
    SelectedThree(JumpStanza(j, f), VaultStanzas(hosts, f), CatchAll(hosts, f), a);
    JumpApplies(j, f, a);
    CatchAllApplies(hosts, f, a);
    VaultedAddrsAre(hosts, a);
    OneVaultStanza(hosts, f, i);
  }

  lemma UnvaultedSelected(j: Jump, hosts: seq<Host>, f: Files, i: nat)
    requires Proper(j, hosts, f) && i < |hosts| && !Vaulted(hosts[i])
    ensures Selected(Stanzas(j, hosts, f), hosts[i].address) == [CatchAll(hosts, f)]
  {
    var a := hosts[i].address;
    assert hosts[i] in hosts;
    SelectedThree(JumpStanza(j, f), VaultStanzas(hosts, f), CatchAll(hosts, f), a);
    JumpApplies(j, f, a);
    CatchAllApplies(hosts, f, a);
    VaultedAddrsAre(hosts, a);
    OtherVaultsDiffer(hosts, i);
    NoVaultStanza(hosts, f, a);
  }

  /** Exactly one stanza of the text applies to host `i`, and it is that host's. */
  predicate Served(j: Jump, hosts: seq<Host>, f: Files, i: nat)
    requires KeysReady(hosts, f) && i < |hosts|
  {
    hosts[i] in hosts && Selected(Parse(ConfigText(j, hosts, f)), hosts[i].address) == [StanzaFor(hosts[i], hosts, f)]
  }

  /** Each host of the run is served by exactly one stanza, its own or the catch-all. */
  lemma OneStanzaPerTarget(j: Jump, hosts: seq<Host>, f: Files, i: nat)
    requires Proper(j, hosts, f) && i < |hosts|
    ensures Served(j, hosts, f, i)
  {
    ConfigReadsBack(j, hosts, f);
    if Vaulted(hosts[i]) { VaultedSelected(ChopJump(j), hosts, f, i); } else { UnvaultedSelected(ChopJump(j), hosts, f, i); }
  }

  lemma {:induction false} SelectedHas(ss: seq<Stanza>, s: Stanza, host: string)
    requires s in ss && Applies(s, host)
    ensures s in Selected(ss, host)
    decreases |ss|
  {
    if s in ss[..|ss| - 1] { SelectedHas(ss[..|ss| - 1], s, host); } else { assert s == ss[|ss| - 1]; }
  }

  lemma {:induction false} VaultStanzaThere(hosts: seq<Host>, f: Files, i: nat)
    requires KeysReady(hosts, f) && i < |hosts| && Vaulted(hosts[i])
    ensures hosts[i] in hosts && VaultStanza(hosts[i], f) in VaultStanzas(hosts, f)
    decreases |hosts|
  {
    assert hosts[i] in hosts;
    if i < |hosts| - 1 { VaultStanzaThere(hosts[..|hosts| - 1], f, i); }
  }

  /** Two vaulted hosts at one address have two stanzas that apply to it. */
  lemma {:induction false} TwoVaultStanzas(hosts: seq<Host>, f: Files, i: nat, k: nat)
    requires KeysReady(hosts, f) && Addressed(hosts) && i < k < |hosts|
    requires Vaulted(hosts[i]) && Vaulted(hosts[k]) && hosts[i].address == hosts[k].address
    ensures |Selected(VaultStanzas(hosts, f), hosts[i].address)| >= 2
    decreases |hosts|
  {
    var init, a := hosts[..|hosts| - 1], hosts[i].address;
    assert hosts[i] in hosts;
    if k == |hosts| - 1 {
      VaultStanzaThere(init, f, i);
      AllowedIsLiteral(a);
      SinglePattern(VaultStanza(hosts[i], f), a, a);
      SelectedHas(VaultStanzas(init, f), VaultStanza(hosts[i], f), a);
      LastVaultStanza(hosts, f, a);
    } else {
      TwoVaultStanzas(init, f, i, k);
      if Vaulted(hosts[|hosts| - 1]) { LastVaultStanza(hosts, f, a); }
      else { assert VaultStanzas(init, f) + [] == VaultStanzas(init, f); }
    }
  }

  /** A host at the jump alias is served by the jump stanza, which is not its own. */
  lemma AliasIsNotServed(j: Jump, hosts: seq<Host>, f: Files, i: nat)
    requires Writable(j, hosts, f) && i < |hosts| && hosts[i].address == JUMP
    ensures hosts[i] in hosts && Selected(Stanzas(j, hosts, f), JUMP) != [StanzaFor(hosts[i], hosts, f)]
  {
    assert hosts[i] in hosts;
    JumpApplies(j, f, JUMP);
    SelectedHas(Stanzas(j, hosts, f), JumpStanza(j, f), JUMP);
    assert JumpStanza(j, f).options[0].0 == "HostName" && StanzaFor(hosts[i], hosts, f).options[0].0 == "ProxyJump";
  }

  /** Of two hosts at a vaulted host's address, one is not served by its own stanza alone. */
  lemma SharedIsNotServed(j: Jump, hosts: seq<Host>, f: Files, i: nat, k: nat)
    requires Writable(j, hosts, f) && i < |hosts| && k < |hosts| && i != k
    requires Vaulted(hosts[i]) && hosts[i].address == hosts[k].address
    ensures hosts[k] in hosts && Selected(Stanzas(j, hosts, f), hosts[k].address) != [StanzaFor(hosts[k], hosts, f)]
  {
    var a := hosts[i].address;
    assert hosts[i] in hosts && hosts[k] in hosts;
    if Vaulted(hosts[k]) {
      if i < k { TwoVaultStanzas(hosts, f, i, k); } else { TwoVaultStanzas(hosts, f, k, i); }
      SelectedThree(JumpStanza(j, f), VaultStanzas(hosts, f), CatchAll(hosts, f), a);
    } else {
      VaultStanzaThere(hosts, f, i);
      AllowedIsLiteral(a);
      SinglePattern(VaultStanza(hosts[i], f), a, a);
      SelectedHas(Stanzas(j, hosts, f), VaultStanza(hosts[i], f), a);
      assert |VaultStanza(hosts[i], f).patterns| == 1 && |CatchAll(hosts, f).patterns| >= 2;
    }
  }

  /** Every host is served by exactly its own stanza if and only if no vaulted address is given twice and none
      is the jump alias.  Validation of a request asks for neither. */
  lemma EveryTargetServedIff(j: Jump, hosts: seq<Host>, f: Files)
    requires Writable(j, hosts, f)
    ensures (forall i :: 0 <= i < |hosts| ==> Served(j, hosts, f, i)) <==> Apart(hosts)
  {
    ConfigReadsBack(j, hosts, f);
    if Apart(hosts) {
      forall i | 0 <= i < |hosts| ensures Served(j, hosts, f, i) { OneStanzaPerTarget(j, hosts, f, i); }
    } else if i :| 0 <= i < |hosts| && hosts[i].address == JUMP {
      AliasIsNotServed(ChopJump(j), hosts, f, i);
      assert !Served(j, hosts, f, i);
    } else {
      var i, k :| 0 <= i < |hosts| && 0 <= k < |hosts| && i != k && Vaulted(hosts[i]) && hosts[i].address == hosts[k].address;
      SharedIsNotServed(ChopJump(j), hosts, f, i, k);
      assert !Served(j, hosts, f, k);
    }
  }

  /** A vaulted host whose address has a line feed in it is not served: no pattern that is read has one. */
  lemma BrokenAddressIsNotServed(j: Jump, hosts: seq<Host>, f: Files, i: nat)
    requires KeysReady(hosts, f) && i < |hosts| && Vaulted(hosts[i]) && '\n' in hosts[i].address
    ensures !Served(j, hosts, f, i)
  {
    var text, h := ConfigText(j, hosts, f), hosts[i];
    assert h in hosts;
    SplitParts(text, '\n');
    ParsedPatterns([], Split(text, '\n'));
    var s := VaultStanza(h, f);
    assert h.address in s.patterns;
    assert s !in Parse(text);
    if s in Selected(Parse(text), h.address) { SelectedFrom(Parse(text), h.address, s); }
    assert s in [s];
  }

  /** The jump alias is served by its own stanza alone. */
  lemma OneStanzaForJump(j: Jump, hosts: seq<Host>, f: Files)
    requires Proper(j, hosts, f)
    ensures Selected(Parse(ConfigText(j, hosts, f)), JUMP) == [JumpStanza(ChopJump(j), f)]
  {
    ConfigReadsBack(j, hosts, f);
    SelectedThree(JumpStanza(ChopJump(j), f), VaultStanzas(hosts, f), CatchAll(hosts, f), JUMP);
    JumpApplies(ChopJump(j), f, JUMP);
    CatchAllApplies(hosts, f, JUMP);
    NoVaultStanza(hosts, f, JUMP);
  }

  lemma {:induction false} FirstAt(os: seq<(string, string)>, k: string, i: nat)
    requires i < |os| && os[i].0 == k && forall n :: 0 <= n < i ==> os[n].0 != k
    ensures First(os, k) == Some(os[i].1)
    decreases i
  {
    if i > 0 { FirstAt(os[1..], k, i - 1); }
  }

  lemma {:induction false} FirstNone(os: seq<(string, string)>, k: string)
    requires forall n :: 0 <= n < |os| ==> os[n].0 != k
    ensures First(os, k) == None
  {
    if os != [] { FirstNone(os[1..], k); }
  }

  lemma {:induction false} NoIdentity(os: seq<(string, string)>)
    requires forall n :: 0 <= n < |os| ==> os[n].0 != "IdentityFile"
    ensures Identities(os) == []
  {
    if os != [] { NoIdentity(os[1..]); }
  }

  lemma {:induction false} OneIdentity(os: seq<(string, string)>, i: nat)
    requires i < |os| && os[i].0 == "IdentityFile" && forall n :: 0 <= n < |os| && n != i ==> os[n].0 != "IdentityFile"
    ensures Identities(os) == [os[i].1]
    decreases i
  {
    if i > 0 { OneIdentity(os[1..], i - 1); } else { NoIdentity(os[1..]); }
  }

  lemma OptionsOfOne(s: Stanza)
    ensures Options([s]) == s.options
  {
    assert [s][1..] == [];
    assert s.options + [] == s.options;
  }

  /** A host key seen for the first time is kept in the run's own file; one that has changed is refused. */
  function Trusting(f: Files): Trust { Trust(Some("accept-new"), Some(f.knownHosts), Some("15")) }

  function Unnamed(): Place { Place(None, None, None) }

  /** What the host's auth method asks for.  Every hop is through the jump host, with only the named
      identity offered. */
  function Wanted(h: Host, f: Files): Meaning
    requires h.auth == "vault_ssh_key" ==> h.address in f.vaultKeys
  {
    var fleet := Meaning(Some("fleet-jump"), true, [f.key], true, None, None, Unnamed(), Trusting(f));
    if h.auth == "vault_ssh_key" then fleet.(identities := [f.vaultKeys[h.address]])
    else if h.auth == "vault_password" then
      fleet.(pubkey := false, identities := [], preferred := Some("password,keyboard-interactive"), prompts := Some("1"))
    else fleet
  }

  predicate Lacks(os: seq<(string, string)>, k: string) { forall n :: 0 <= n < |os| ==> os[n].0 != k }

  lemma FirstAfter(pre: seq<(string, string)>, post: seq<(string, string)>, k: string, i: nat)
    requires Lacks(pre, k) && i < |post| && post[i].0 == k && Lacks(post[..i], k)
    ensures First(pre + post, k) == Some(post[i].1)
  {
    var os := pre + post;
    forall n | 0 <= n < |pre| + i ensures os[n].0 != k {
      assert os[n] == if n < |pre| then pre[n] else post[..i][n - |pre|];
    }
    FirstAt(os, k, |pre| + i);
  }

  /** What every stanza ends with. */
  lemma CommonOptions(f: Files, pre: seq<(string, string)>)
    requires Lacks(pre, "IdentitiesOnly") && Lacks(pre, "StrictHostKeyChecking")
    requires Lacks(pre, "UserKnownHostsFile") && Lacks(pre, "ConnectTimeout")
    ensures First(pre + Common(f), "IdentitiesOnly") == Some("yes") && TrustOf(pre + Common(f)) == Trusting(f)
  {
    FirstAfter(pre, Common(f), "IdentitiesOnly", 0);
    FirstAfter(pre, Common(f), "StrictHostKeyChecking", 1);
    FirstAfter(pre, Common(f), "UserKnownHostsFile", 2);
    FirstAfter(pre, Common(f), "ConnectTimeout", 3);
  }

  lemma NoPlace(os: seq<(string, string)>)
    requires Lacks(os, "HostName") && Lacks(os, "Port") && Lacks(os, "User")
    ensures PlaceOf(os) == Unnamed()
  {
    FirstNone(os, "HostName");
    FirstNone(os, "Port");
    FirstNone(os, "User");
  }

  /** Options that jump, then offer one key. */
  lemma KeyOptions(f: Files, key: string, os: seq<(string, string)>)
    requires os == [("ProxyJump", JUMP), ("IdentityFile", key)] + Common(f)
    ensures First(os, "ProxyJump") == Some("fleet-jump") && First(os, "PubkeyAuthentication") == None
    ensures Identities(os) == [key] && First(os, "PreferredAuthentications") == None
    ensures First(os, "NumberOfPasswordPrompts") == None
  {
    FirstAt(os, "ProxyJump", 0);
    FirstNone(os, "PubkeyAuthentication");
    OneIdentity(os, 1);
    FirstNone(os, "PreferredAuthentications");
    FirstNone(os, "NumberOfPasswordPrompts");
  }

  lemma PasswordOptions(h: Host, f: Files, os: seq<(string, string)>)
    requires h.auth == VAULT_PASSWORD && os == VaultStanza(h, f).options
    ensures First(os, "ProxyJump") == Some("fleet-jump") && First(os, "PubkeyAuthentication") == Some("no")
    ensures Identities(os) == [] && First(os, "PreferredAuthentications") == Some("password,keyboard-interactive")
    ensures First(os, "NumberOfPasswordPrompts") == Some("1")
  {
    FirstAt(os, "ProxyJump", 0);
    FirstAt(os, "PubkeyAuthentication", 1);
    NoIdentity(os);
    FirstAt(os, "PreferredAuthentications", 2);
    FirstAt(os, "NumberOfPasswordPrompts", 3);
  }

  /** Nothing is said about the destination, and trust is as in every stanza. */
  predicate GoesThere(os: seq<(string, string)>, f: Files) {
    First(os, "IdentitiesOnly") == Some("yes") && TrustOf(os) == Trusting(f) && PlaceOf(os) == Unnamed()
  }

  lemma KeyGoesThere(f: Files, key: string)
    ensures GoesThere([("ProxyJump", JUMP), ("IdentityFile", key)] + Common(f), f)
  {
    var pre := [("ProxyJump", JUMP), ("IdentityFile", key)];
    CommonOptions(f, pre);
    NoPlace(pre + Common(f));
  }

  lemma PasswordGoesThere(h: Host, f: Files)
    requires h.auth == VAULT_PASSWORD
    ensures GoesThere(VaultStanza(h, f).options, f)
  {
    var pre := [("ProxyJump", JUMP), ("PubkeyAuthentication", "no"),
                ("PreferredAuthentications", "password,keyboard-interactive"), ("NumberOfPasswordPrompts", "1")];
    CommonOptions(f, pre);
    NoPlace(pre + Common(f));
  }

  /** The generated config, read by ssh's rules, authenticates every host of the run in exactly the way
      its auth method asks: its own vaulted key, a password only, or the Fleet certificate.  It goes through the
      jump host to the very address asked for, and keeps host keys in the run's own file. */
  lemma TargetMeans(j: Jump, hosts: seq<Host>, f: Files, i: nat)
    requires Proper(j, hosts, f) && i < |hosts|
    ensures hosts[i] in hosts && MeaningOf(Parse(ConfigText(j, hosts, f)), hosts[i].address) == Wanted(hosts[i], f)
  {
    var h := hosts[i];
    OneStanzaPerTarget(j, hosts, f, i);
    var os := StanzaFor(h, hosts, f).options;
    OptionsOfOne(StanzaFor(h, hosts, f));
    if h.auth == VAULT_KEY {
      KeyOptions(f, f.vaultKeys[h.address], os);
      KeyGoesThere(f, f.vaultKeys[h.address]);
    } else if h.auth == VAULT_PASSWORD {
      PasswordOptions(h, f, os);
      PasswordGoesThere(h, f);
    } else {
      KeyOptions(f, f.key, os);
      KeyGoesThere(f, f.key);
    }
  }

  lemma JumpLacks(j: Jump, f: Files, os: seq<(string, string)>)
    requires os == JumpStanza(j, f).options
    ensures First(os, "ProxyJump") == None && First(os, "PubkeyAuthentication") == None
    ensures First(os, "PreferredAuthentications") == None && First(os, "NumberOfPasswordPrompts") == None
  {
    FirstNone(os, "ProxyJump");
    FirstNone(os, "PubkeyAuthentication");
    FirstNone(os, "PreferredAuthentications");
    FirstNone(os, "NumberOfPasswordPrompts");
  }

  lemma JumpOffers(j: Jump, f: Files, os: seq<(string, string)>)
    requires os == JumpStanza(j, f).options
    ensures Identities(os) == [f.key] && First(os, "IdentitiesOnly") == Some("yes") && TrustOf(os) == Trusting(f)
  {
    OneIdentity(os, 3);
    var pre := os[..4];
    assert os == pre + Common(f);
    CommonOptions(f, pre);
  }

  lemma JumpPlace(j: Jump, f: Files, os: seq<(string, string)>)
    requires os == JumpStanza(j, f).options
    ensures PlaceOf(os) == Place(Some(j.host), Some(Decimal(j.port)), Some(j.user))
  {
    FirstAt(os, "HostName", 0);
    FirstAt(os, "Port", 1);
    FirstAt(os, "User", 2);
  }

  /** The jump hop goes to the requested host, port and user, uses the Fleet certificate and jumps through
      nothing, so following ProxyJump from any host of the run stops after one hop. */
  lemma JumpMeans(j: Jump, hosts: seq<Host>, f: Files)
    requires Proper(j, hosts, f)
    ensures MeaningOf(Parse(ConfigText(j, hosts, f)), "fleet-jump")
            == Meaning(None, true, [f.key], true, None, None,
                       Place(Some(Chop(j.host)), Some(Decimal(j.port)), Some(Chop(j.user))), Trusting(f))
  {
    OneStanzaForJump(j, hosts, f);
    var s := JumpStanza(ChopJump(j), f);
    OptionsOfOne(s);
    JumpLacks(ChopJump(j), f, s.options);
    JumpOffers(ChopJump(j), f, s.options);
    JumpPlace(ChopJump(j), f, s.options);
  }
}
