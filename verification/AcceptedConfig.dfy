/** What ssh reads from the config of an accepted request. */
module AcceptedConfig {
  import opened Wrappers
  import opened Text
  import opened Allowlist
  import opened SshConfig
  import opened SshMeaning
  import opened JumpSettings
  import opened SshResolution
  import opened Targets

  /** The hosts and jump settings of a run whose request was accepted. */
  predicate Accepted(j: Jump, hosts: seq<Host>, jumpHost: string, parse: ParseInt) {
    && AllOk(TargetsOf(hosts)) && NameOk(j.user) && JumpOk(jumpHost, parse)
    && (j.host, j.port as int) == SplitHostPort(jumpHost, parse)
  }

  /** No address written into the config ends in a line feed. */
  predicate VaultsTrimmed(hosts: seq<Host>) {
    forall i :: 0 <= i < |hosts| && Vaulted(hosts[i]) ==> !EndsInLineFeed(hosts[i].address)
  }

  /** An accepted run can be written as a config that reads back exactly when no vaulted address ends in a line
      feed; the jump settings may. */
  lemma WritableIff(j: Jump, hosts: seq<Host>, jumpHost: string, parse: ParseInt, f: Files)
    requires Accepted(j, hosts, jumpHost, parse) && KeysReady(hosts, f) && PlainFiles(f)
    ensures Writable(j, hosts, f) <==> VaultsTrimmed(hosts)
  {
    assert OneLine(Chop(j.user));
    assert jumpHost == "" ==> LastColon(jumpHost) == 0 && j.host == "";
    assert OneLine(Chop(j.host));
    forall i | 0 <= i < |hosts| ensures Allowed(hosts[i].address) <==> !EndsInLineFeed(hosts[i].address) {
      AcceptedAddress(hosts, i);
      AddressOkIff(hosts[i].address);
    }
    if VaultsTrimmed(hosts) {
      forall h | h in hosts && Vaulted(h) ensures Allowed(h.address) {
        var i :| 0 <= i < |hosts| && hosts[i] == h;
      }
    } else {
      var i :| 0 <= i < |hosts| && Vaulted(hosts[i]) && EndsInLineFeed(hosts[i].address);
      assert hosts[i] in hosts;
    }
  }

  /** For an accepted run: every host is served by exactly its own stanza if and only if no vaulted address is
      given twice, none ends in a line feed, and no host is addressed like the jump alias. */
  lemma ServedIff(j: Jump, hosts: seq<Host>, jumpHost: string, parse: ParseInt, f: Files)
    requires Accepted(j, hosts, jumpHost, parse) && KeysReady(hosts, f) && PlainFiles(f)
    ensures (forall i :: 0 <= i < |hosts| ==> Served(j, hosts, f, i)) <==> Apart(hosts) && VaultsTrimmed(hosts)
  {
    WritableIff(j, hosts, jumpHost, parse, f);
    if VaultsTrimmed(hosts) {
      EveryTargetServedIff(j, hosts, f);
    } else {
      var i :| 0 <= i < |hosts| && Vaulted(hosts[i]) && EndsInLineFeed(hosts[i].address);
      assert hosts[i].address[|hosts[i].address| - 1] in hosts[i].address;
      BrokenAddressIsNotServed(j, hosts, f, i);
    }
  }

  // ----- what ssh takes as an option's argument -----

  /** A value that is one plain word: ssh takes it as it stands. */
  predicate Argument(v: string) {
    v != "" && forall c :: c in v ==> !IsSpace(c) && c != '\"' && c != '\'' && c != '\\' && c != '#'
  }

  predicate Arguments(os: seq<(string, string)>) { forall i :: 0 <= i < |os| ==> Argument(os[i].1) }

  predicate ArgumentFiles(f: Files) {
    Argument(f.key) && Argument(f.knownHosts) && forall a :: a in f.vaultKeys ==> Argument(f.vaultKeys[a])
  }

  lemma AllowedIsArgument(v: string)
    requires Allowed(v)
    ensures Argument(v)
  {
  }

  lemma LiteralArgument(v: string)
    requires v != "" && forall i :: 0 <= i < |v| ==> 'a' <= v[i] <= 'z' || '0' <= v[i] <= '9' || v[i] == '-' || v[i] == ','
    ensures Argument(v)
  {
  }

  lemma LiteralArguments()
    ensures Argument("yes") && Argument("accept-new") && Argument("15") && Argument("no") && Argument("1") && Argument(JUMP)
    ensures Argument("password,keyboard-interactive")
  {
    LiteralArgument("yes"); LiteralArgument("accept-new"); LiteralArgument("15"); LiteralArgument("no"); LiteralArgument("1");
    LiteralArgument(JUMP); LiteralArgument("password,keyboard-interactive");
  }

  lemma HostArguments(h: Host, hosts: seq<Host>, f: Files)
    requires KeysReady(hosts, f) && h in hosts && ArgumentFiles(f)
    ensures (Vaulted(h) ==> Arguments(VaultStanza(h, f).options)) && Arguments(CatchAll(hosts, f).options)
  {
    LiteralArguments();
  }

  lemma JumpArguments(j: Jump, f: Files)
    requires ArgumentFiles(f) && Argument(j.user)
    ensures Arguments(JumpStanza(j, f).options) <==> Argument(j.host)
  {
    LiteralArguments();
    AllowedIsArgument(Decimal(j.port));
    assert JumpStanza(j, f).options[0].1 == j.host;
  }

  /** Every option that is read from the config of an accepted run has one plain word for its value, so that it
      is what ssh takes, if and only if the request names a jump host.  Without one, ssh finds an option
      without an argument and stops. */
  lemma ArgumentsIff(j: Jump, hosts: seq<Host>, jumpHost: string, parse: ParseInt, f: Files)
    requires Accepted(j, hosts, jumpHost, parse) && KeysReady(hosts, f) && VaultsTrimmed(hosts)
    requires PlainFiles(f) && ArgumentFiles(f)
    ensures (forall s :: s in Parse(ConfigText(j, hosts, f)) ==> Arguments(s.options)) <==> jumpHost != ""
  {
    WritableIff(j, hosts, jumpHost, parse, f);
    ConfigReadsBack(j, hosts, f);
    JumpSettingArguments(j, hosts, jumpHost, parse);
    JumpArguments(ChopJump(j), f);
    var ss := Stanzas(ChopJump(j), hosts, f);
    assert JumpStanza(ChopJump(j), f) in ss;
    forall s | s in ss && s != JumpStanza(ChopJump(j), f) ensures Arguments(s.options) { OtherArguments(ChopJump(j), hosts, f, s); }
  }

  lemma OtherArguments(j: Jump, hosts: seq<Host>, f: Files, s: Stanza)
    requires KeysReady(hosts, f) && ArgumentFiles(f) && s in Stanzas(j, hosts, f) && s != JumpStanza(j, f)
    ensures Arguments(s.options)
  {
    LiteralArguments();
    if s in VaultStanzas(hosts, f) {
      VaultStanzasFrom(hosts, f, s);
      var h :| h in hosts && Vaulted(h) && s == VaultStanza(h, f);
      HostArguments(h, hosts, f);
    }
  }

  lemma JumpSettingArguments(j: Jump, hosts: seq<Host>, jumpHost: string, parse: ParseInt)
    requires Accepted(j, hosts, jumpHost, parse)
    ensures Argument(Chop(j.user)) && (Argument(Chop(j.host)) <==> jumpHost != "")
  {
    assert Allowed(Chop(j.user));
    AllowedIsArgument(Chop(j.user));
    if jumpHost == "" {
      assert LastColon(jumpHost) == 0 && j.host == "";
    } else {
      AddressOkIff(j.host);
      AllowedIsArgument(Chop(j.host));
    }
  }
}
