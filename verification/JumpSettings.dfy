/** The two settings of the jump host that a request names itself.  Validation lets one final line feed through
    in each; in the generated text it makes a blank line, and blank lines mean nothing. */
module JumpSettings {
  import opened Wrappers
  import opened Text
  import opened Allowlist
  import opened SshConfig
  import opened SshMeaning

  /** The jump settings as they are read. */
  function ChopJump(j: Jump): Jump { j.(host := Chop(j.host), user := Chop(j.user)) }

  lemma SplitBlank(a: string, b: string)
    ensures Split(a + "\n\n" + b, '\n') == Split(a, '\n') + [""] + Split(b, '\n')
    ensures Split(a + "\n" + b, '\n') == Split(a, '\n') + Split(b, '\n')
  {
    assert a + "\n\n" + b == a + ['\n'] + ("" + ['\n'] + b) && a + "\n" + b == a + ['\n'] + b;
    SplitAppend(a, "" + ['\n'] + b, '\n');
    SplitAppend("", b, '\n');
    SplitAppend(a, b, '\n');
    SplitWhole("", '\n');
  }

  /** A blank line means nothing. */
  lemma BlankLineIgnored(a: string, b: string)
    ensures Parse(a + "\n\n" + b) == Parse(a + "\n" + b)
  {
    SplitBlank(a, b);
    var la, lb := Split(a, '\n'), Split(b, '\n');
    ParseAppend([], la + [""], lb);
    ParseAppend([], la, [""]);
    ParseAppend([], la, lb);
    BlankRead(ParseFrom([], la));
  }

  /** So a final line feed in a setting followed by a line feed means nothing either. */
  lemma ChoppedParses(a: string, v: string, b: string)
    ensures Parse(a + v + "\n" + b) == Parse(a + Chop(v) + "\n" + b)
  {
    if EndsInLineFeed(v) {
      assert v == Chop(v) + "\n";
      assert a + v + "\n" + b == (a + Chop(v)) + "\n\n" + b;
      BlankLineIgnored(a + Chop(v), b);
    }
  }

  function JumpHead(): string { "Host " + JUMP + "\n" + "    HostName " }
  function JumpMiddle(j: Jump): string { "    Port " + Decimal(j.port) + "\n" + "    User " }

  lemma JoinCons(a: string, rest: seq<string>)
    requires rest != []
    ensures Join([a] + rest, '\n') == a + "\n" + Join(rest, '\n')
  {
    assert ([a] + rest)[1..] == rest;
  }

  /** The text around the two settings of the jump host. */
  lemma ConfigAround(j: Jump, hosts: seq<Host>, f: Files)
    requires KeysReady(hosts, f)
    ensures ConfigText(j, hosts, f) == JumpHead() + j.host + "\n" + (JumpMiddle(j) + j.user + "\n" + AfterUser(hosts, f))
  {
    WholeConfig(j, hosts, f);
    JumpLines(j, f);
    var more := LinesAfterUser(hosts, f);
    var a, b, c, d := "Host " + JUMP, "    HostName " + j.host, "    Port " + Decimal(j.port), "    User " + j.user;
    LinesTogether(a, b, c, d, OptionLines(LaterOptions(f)) + [""], RenderAll(VaultStanzas(hosts, f)), Render(CatchAll(hosts, f)));
    JoinCons(d, more);
    JoinCons(c, [d] + more);
    JoinCons(b, [c] + ([d] + more));
    JoinCons(a, [b] + ([c] + ([d] + more)));
    Regroup("Host " + JUMP, "    HostName ", j.host, "    Port " + Decimal(j.port), "    User ", j.user, AfterUser(hosts, f));
  }

  lemma LinesTogether(a: string, b: string, c: string, d: string, x: seq<string>, y: seq<string>, z: seq<string>)
    ensures ([a] + ([b] + ([c] + ([d] + x)))) + y + z == [a] + ([b] + ([c] + ([d] + (x + y + z))))
  {
  }

  lemma Regroup(a: string, b: string, host: string, c: string, d: string, user: string, rest: string)
    ensures a + "\n" + ((b + host) + "\n" + (c + "\n" + ((d + user) + "\n" + rest)))
            == (a + "\n" + b) + host + "\n" + ((c + "\n" + d) + user + "\n" + rest)
  {
  }

  function LaterOptions(f: Files): seq<(string, string)> { [("IdentityFile", f.key)] + Common(f) }

  function LinesAfterUser(hosts: seq<Host>, f: Files): seq<string>
    requires KeysReady(hosts, f)
  {
    OptionLines(LaterOptions(f)) + [""] + RenderAll(VaultStanzas(hosts, f)) + Render(CatchAll(hosts, f))
  }

  function AfterUser(hosts: seq<Host>, f: Files): string
    requires KeysReady(hosts, f)
  {
    Join(LinesAfterUser(hosts, f), '\n')
  }

  lemma OptionLinesCons(o: (string, string), os: seq<(string, string)>)
    ensures OptionLines([o] + os) == [OptionLine(o)] + OptionLines(os)
  {
    assert ([o] + os)[1..] == os;
  }

  lemma JumpLines(j: Jump, f: Files)
    ensures Render(JumpStanza(j, f))
            == ["Host " + JUMP] + (["    HostName " + j.host] + (["    Port " + Decimal(j.port)]
                                    + (["    User " + j.user] + (OptionLines(LaterOptions(f)) + [""]))))
  {
    var host, port, user, later := ("HostName", j.host), ("Port", Decimal(j.port)), ("User", j.user), LaterOptions(f);
    assert JumpStanza(j, f).options == [host] + ([port] + ([user] + later));
    OptionLinesCons(user, later);
    OptionLinesCons(port, [user] + later);
    OptionLinesCons(host, [port] + ([user] + later));
    OptionText(j);
    assert Join([JUMP], ' ') == JUMP;
  }

  lemma OptionText(j: Jump)
    ensures OptionLine(("HostName", j.host)) == "    HostName " + j.host
    ensures OptionLine(("Port", Decimal(j.port))) == "    Port " + Decimal(j.port)
    ensures OptionLine(("User", j.user)) == "    User " + j.user
  {
    assert "    " + "HostName" + " " == "    HostName " && "    " + "Port" + " " == "    Port ";
    assert "    " + "User" + " " == "    User ";
  }

  /** Final line feeds in the jump settings do not change what the text says. */
  lemma ChoppedJumpParses(j: Jump, hosts: seq<Host>, f: Files)
    requires KeysReady(hosts, f)
    ensures Parse(ConfigText(j, hosts, f)) == Parse(ConfigText(ChopJump(j), hosts, f))
  {
    var rest := AfterUser(hosts, f);
    var k := j.(host := Chop(j.host));
    ConfigAround(j, hosts, f);
    ConfigAround(k, hosts, f);
    ConfigAround(ChopJump(j), hosts, f);
    ChoppedParses(JumpHead(), j.host, JumpMiddle(j) + j.user + "\n" + rest);
    var head := JumpHead() + k.host + "\n" + JumpMiddle(j);
    ChoppedParses(head, j.user, rest);
    Gather(JumpHead() + k.host + "\n", JumpMiddle(j), j.user, rest);
    Gather(JumpHead() + k.host + "\n", JumpMiddle(j), Chop(j.user), rest);
  }

  lemma Gather(a: string, b: string, v: string, rest: string)
    ensures a + (b + v + "\n" + rest) == a + b + v + "\n" + rest
  {
  }
}
