/** What Ansible reads from the inventory of an accepted request.  Validation lets one final line feed through
    in a name, an address or a user, and says nothing about passwords; each of these can break a line. */
module AcceptedInventory {
  import opened Wrappers
  import opened Text
  import opened Allowlist
  import opened SshConfig
  import opened Inventory
  import opened InventoryFile
  import Targets

  /** The host's name, address and user pass validation, and its key path is plain. */
  predicate HostOk(h: Host, paths: map<string, string>) {
    && NameOk(h.name) && AddressOk(h.address) && NameOk(h.user)
    && (h.address in paths ==> PlainText(paths[h.address]))
  }

  /** A line feed got through in what the request names. */
  predicate Ragged(h: Host) { EndsInLineFeed(h.name) || EndsInLineFeed(h.address) || EndsInLineFeed(h.user) }

  lemma ChoppedPlain(s: string)
    requires AddressOk(s)
    ensures PlainText(Chop(s)) && (!EndsInLineFeed(s) ==> Chop(s) == s)
  {
  }

  lemma NameIsAddress(s: string)
    requires NameOk(s)
    ensures AddressOk(s) && '=' !in Chop(s)
  {
  }

  lemma OkIsPlain(h: Host, paths: map<string, string>)
    requires HostOk(h, paths) && !Ragged(h)
    ensures PlainHost(h, paths)
  {
    NameIsAddress(h.name); NameIsAddress(h.user);
    ChoppedPlain(h.name); ChoppedPlain(h.address); ChoppedPlain(h.user);
  }

  // ----- an entry with a line feed among its first four words -----

  /** The entry's fields before the first such line feed. */
  function Before(h: Host): seq<Field> {
    if EndsInLineFeed(h.name) then []
    else if EndsInLineFeed(h.address) then [Bare(h.name)]
    else [Bare(h.name), Bare("ansible_host=" + h.address), Bare("ansible_port=" + Decimal(h.port))]
  }

  /** The field it is in, without it. */
  function Torn(h: Host): string {
    if EndsInLineFeed(h.name) then Chop(h.name)
    else if EndsInLineFeed(h.address) then "ansible_host=" + Chop(h.address)
    else "ansible_user=" + Chop(h.user)
  }

  /** What is left of the entry on its first line. */
  function Stump(h: Host): seq<Field> { Before(h) + [Bare(Torn(h))] }

  lemma ChopConcat(k: string, v: string)
    requires EndsInLineFeed(v)
    ensures k + v == (k + Chop(v)) + "\n"
  {
    assert v == Chop(v) + "\n";
    assert k + (Chop(v) + "\n") == k + Chop(v) + "\n";
  }

  lemma TornField(h: Host)
    requires Ragged(h)
    ensures |Before(h)| < 4 && Before(h) == BaseFields(h)[..|Before(h)|] && BaseFields(h)[|Before(h)|] == Bare(Torn(h) + "\n")
  {
    if EndsInLineFeed(h.name) {
      ChopConcat("", h.name);
      assert "" + h.name == h.name && "" + Chop(h.name) == Chop(h.name);
    } else if EndsInLineFeed(h.address) {
      ChopConcat("ansible_host=", h.address);
    } else {
      ChopConcat("ansible_user=", h.user);
    }
  }

  lemma Extras(i: nat, h: Host, paths: map<string, string>, become: bool) returns (extras: seq<Field>)
    ensures Fields(i, h, paths, become) == BaseFields(h) + extras
  {
    extras := PasswordField(h) + KeyField(h, paths) + ApiFields(i, h) + BecomeField(h, become);
  }

  lemma EntryTorn(i: nat, h: Host, paths: map<string, string>, become: bool) returns (more: seq<Field>)
    requires Ragged(h)
    ensures Fields(i, h, paths, become) == Before(h) + [Bare(Torn(h) + "\n")] + more
  {
    TornField(h);
    var extras := Extras(i, h, paths, become);
    more := SplitAround(BaseFields(h), |Before(h)|, extras);
  }

  lemma SplitAround(base: seq<Field>, k: nat, extras: seq<Field>) returns (more: seq<Field>)
    requires k < |base|
    ensures base + extras == base[..k] + [base[k]] + more
  {
    more := base[k + 1..] + extras;
  }

  lemma StumpSound(h: Host, paths: map<string, string>)
    requires HostOk(h, paths) && Ragged(h)
    ensures AllSound(Stump(h)) && forall f :: f in Stump(h) ==> f.Bare?
  {
    NameIsAddress(h.name); NameIsAddress(h.user);
    ChoppedPlain(h.name); ChoppedPlain(h.address); ChoppedPlain(h.user);
    BaseKeysPlain();
    PlainConcat("ansible_host=", Chop(h.address));
    PlainConcat("ansible_port=", Decimal(h.port));
    PlainConcat("ansible_user=", Chop(h.user));
  }

  lemma LineWithFeed(fs: seq<Field>, w: string)
    ensures Line(fs + [Bare(w + "\n")]) == Line(fs + [Bare(w)]) + "\n"
  {
    if fs == [] {
      assert fs + [Bare(w + "\n")] == [Bare(w + "\n")] && fs + [Bare(w)] == [Bare(w)];
      OneField(Bare(w + "\n"));
      OneField(Bare(w));
    } else {
      AddField(fs, Bare(w + "\n"));
      AddField(fs, Bare(w));
      var a := Line(fs);
      assert a + " " + (w + "\n") == a + " " + w + "\n";
    }
  }

  /** The entry is its stump, a line feed, and the rest. */
  lemma EntryIsStump(i: nat, h: Host, paths: map<string, string>, become: bool) returns (rest: string)
    requires Ragged(h)
    ensures Line(Fields(i, h, paths, become)) == Line(Stump(h)) + ['\n'] + rest
  {
    var more := EntryTorn(i, h, paths, become);
    rest := LineGrows(Before(h) + [Bare(Torn(h) + "\n")], more);
    LineWithFeed(Before(h), Torn(h));
    assert "\n" == ['\n'];
  }

  /** The stump's words, and any more after them, are not the host's values. */
  lemma StumpIsNotMeant(i: nat, h: Host, paths: map<string, string>, become: bool, words: seq<string>)
    requires Ragged(h) && MeantAll(Stump(h)) <= words
    ensures words != MeantAll(Fields(i, h, paths, become))
  {
    var more := EntryTorn(i, h, paths, become);
    var before, torn := MeantAll(Before(h)), Torn(h);
    MeantAppend(Before(h), [Bare(torn)]);
    OneField(Bare(torn));
    MeantAppend(Before(h) + [Bare(torn + "\n")], more);
    MeantAppend(Before(h), [Bare(torn + "\n")]);
    OneField(Bare(torn + "\n"));
    assert words[|before|] == torn;
    assert MeantAll(Fields(i, h, paths, become))[|before|] == torn + "\n";
    assert |torn + "\n"| == |torn| + 1;
  }

  lemma StumpNoEnds(h: Host, paths: map<string, string>)
    requires HostOk(h, paths) && Ragged(h)
    ensures NoEnds(Line(Stump(h)))
  {
    StumpSound(h, paths);
    forall i | 0 <= i < |Stump(h)| ensures Stump(h)[i].Bare? { assert Stump(h)[i] in Stump(h); }
    AllWrittenNoEnds(Stump(h));
    NoEndsJoin(WrittenAll(Stump(h)));
  }

  lemma SoundMembers(fs: seq<Field>)
    requires AllSound(fs)
    ensures forall f :: f in fs ==> Sound(f)
  {
  }

  /** On its first line such an entry has the stump's words. */
  lemma RaggedFirstLine(i: nat, h: Host, paths: map<string, string>, become: bool, rest: string)
    requires HostOk(h, paths) && Ragged(h)
    ensures var lines := SplitLines(Line(Fields(i, h, paths, become)) + rest);
            lines != [] && Tokens(lines[0]) == Some(MeantAll(Stump(h)))
    ensures !FirstLineReads(i, h, paths, become, rest)
  {
    var tail := EntryIsStump(i, h, paths, become);
    StumpNoEnds(h, paths);
    Regather(Line(Stump(h)), '\n', tail, rest);
    FirstLine(Line(Stump(h)), '\n', tail + rest);
    StumpSound(h, paths);
    SoundMembers(Stump(h));
    LineReadsBack(Stump(h));
    StumpIsNotMeant(i, h, paths, become, MeantAll(Stump(h)));
  }

  // ----- one entry -----

  /** Split into shell words as a whole, an accepted host's entry gives the host's values, passwords of any
      characters included, exactly when no line feed got through in its name, address or user. */
  lemma EntryWordsIff(i: nat, h: Host, paths: map<string, string>, become: bool)
    requires HostOk(h, paths)
    ensures Tokens(Line(Fields(i, h, paths, become))) == Some(MeantAll(Fields(i, h, paths, become))) <==> !Ragged(h)
  {
    if Ragged(h) {
      var rest := EntryIsStump(i, h, paths, become);
      StumpSound(h, paths);
      SoundMembers(Stump(h));
      LineThen(Stump(h), '\n', rest);
      if Tokens(rest).Some? {
        StumpIsNotMeant(i, h, paths, become, MeantAll(Stump(h)) + Tokens(rest).value);
      }
    } else {
      OkIsPlain(h, paths);
      EntryReadsBack(i, h, paths, become);
    }
  }

  /** On its first line it does so exactly when, besides, no password with a line end was written. */
  lemma EntrySurvivesIff(i: nat, h: Host, paths: map<string, string>, become: bool)
    requires HostOk(h, paths)
    ensures FirstLineReads(i, h, paths, become, "\n") <==> !Ragged(h) && !Cut(h)
  {
    if Ragged(h) {
      RaggedFirstLine(i, h, paths, become, "\n");
    } else if Cut(h) {
      OkIsPlain(h, paths);
      CutEntryIsUnreadable(i, h, paths, become, "\n");
    } else {
      OkIsPlain(h, paths);
      var l := Line(Fields(i, h, paths, become));
      EntryNoEnds(i, h, paths, become);
      assert l + "\n" == l + "\n" + "";
      LineFeedSplits(l, "");
      EntryReadsBack(i, h, paths, become);
    }
  }

  /** Validation accepts a host named "db1\n", whose entry breaks after its first word. */
  lemma AcceptedNameBreaks(i: nat, h: Host, paths: map<string, string>, become: bool)
    requires HostOk(h, paths) && h.name == "db1\n"
    ensures var lines := SplitLines(Line(Fields(i, h, paths, become)) + "\n");
            lines != [] && Tokens(lines[0]) == Some(["db1"]) && !FirstLineReads(i, h, paths, become, "\n")
  {
    RaggedFirstLine(i, h, paths, become, "\n");
    assert Chop(h.name) == "db1";
    assert Stump(h) == [Bare("db1")];
    OneField(Bare("db1"));
  }

  // ----- the whole file -----

  predicate AllHostsOk(hosts: seq<Host>, paths: map<string, string>) {
    forall i :: 0 <= i < |hosts| ==> HostOk(hosts[i], paths)
  }

  /** So are the hosts of every request that validation accepts. */
  lemma AcceptedHostsOk(hosts: seq<Host>, paths: map<string, string>)
    requires Targets.AllOk(Targets.TargetsOf(hosts)) && forall a :: a in paths ==> PlainText(paths[a])
    ensures AllHostsOk(hosts, paths)
  {
    forall i | 0 <= i < |hosts| ensures HostOk(hosts[i], paths) { Targets.AcceptedAddress(hosts, i); }
  }

  /** Something breaks the host's entry. */
  predicate Broken(h: Host) { Ragged(h) || Cut(h) }

  lemma {:induction false} FirstBroken(hosts: seq<Host>, n: nat) returns (i: nat)
    requires n < |hosts| && Broken(hosts[n])
    ensures i < |hosts| && Broken(hosts[i]) && forall k :: 0 <= k < i ==> !Broken(hosts[k])
  {
    if k :| 0 <= k < n && Broken(hosts[k]) { i := FirstBroken(hosts, k); } else { i := n; }
  }

  lemma UnbrokenAreWhole(hosts: seq<Host>, paths: map<string, string>, i: nat)
    requires AllHostsOk(hosts, paths) && i <= |hosts| && forall k :: 0 <= k < i ==> !Broken(hosts[k])
    ensures WholeUpTo(hosts, paths, i)
  {
    forall k | 0 <= k < i ensures Whole(hosts[k], paths) { OkIsPlain(hosts[k], paths); }
  }

  lemma BrokenFirstLine(i: nat, h: Host, paths: map<string, string>, become: bool, rest: string)
    requires HostOk(h, paths) && Broken(h)
    ensures !FirstLineReads(i, h, paths, become, rest)
  {
    if Ragged(h) {
      RaggedFirstLine(i, h, paths, become, rest);
    } else {
      OkIsPlain(h, paths);
      CutEntryIsUnreadable(i, h, paths, become, rest);
    }
  }

  /** For accepted hosts: every host's line of the file reads as that host's values if and only if no line feed
      got through in a name, address or user and no password with a line end was written. */
  lemma InventoryReadsBackIff(hosts: seq<Host>, cfg: string, paths: map<string, string>, become: bool)
    requires AllHostsOk(hosts, paths)
    ensures (forall i :: 0 <= i < |hosts| ==> HostReads(hosts, cfg, paths, become, i))
            <==> (forall i :: 0 <= i < |hosts| ==> !Broken(hosts[i]))
  {
    if n :| 0 <= n < |hosts| && Broken(hosts[n]) {
      var i := FirstBroken(hosts, n);
      UnbrokenAreWhole(hosts, paths, i);
      forall rest ensures !FirstLineReads(i, hosts[i], paths, become, rest) {
        BrokenFirstLine(i, hosts[i], paths, become, rest);
      }
      BrokenHostDoesNotRead(hosts, cfg, paths, become, i);
    } else {
      UnbrokenAreWhole(hosts, paths, |hosts|);
      forall i | 0 <= i < |hosts| ensures HostReads(hosts, cfg, paths, become, i) {
        HostReadsBack(hosts, cfg, paths, become, i);
      }
    }
  }

  lemma {:induction false} SplitLinesNoEnds(s: string)
    ensures forall l :: l in SplitLines(s) ==> NoEnds(l)
    decreases |s|
  {
    if s != "" {
      var n := LineLength(s);
      if n < |s| {
        if s[n] == '\r' && n + 1 < |s| && s[n + 1] == '\n' { SplitLinesNoEnds(s[n + 2..]); }
        else { SplitLinesNoEnds(s[n + 1..]); }
      }
    }
  }

  lemma BrokenHasEnd(i: nat, h: Host, paths: map<string, string>, become: bool)
    requires HostOk(h, paths) && Broken(h)
    ensures !NoEnds(Line(Fields(i, h, paths, become)))
  {
    var l := Line(Fields(i, h, paths, become));
    if Ragged(h) {
      var rest := EntryIsStump(i, h, paths, become);
      assert l[|Line(Stump(h))|] == '\n' && '\n' in l;
    } else {
      var rest := EntryAroundEnd(i, h, paths, become);
      var k := LineLength(h.password);
      assert l[|CutHead(h, h.password[..k])|] == h.password[k] && h.password[k] in l;
    }
  }

  /** And the file's lines are the generated ones, group variables included, under the same condition. */
  lemma FileReadsBackIff(hosts: seq<Host>, cfg: string, paths: map<string, string>, become: bool)
    requires AllHostsOk(hosts, paths) && NoEnds(cfg)
    ensures SplitLines(File(hosts, cfg, paths, become)) == InventoryLines(hosts, cfg, paths, become)
            <==> (forall i :: 0 <= i < |hosts| ==> !Broken(hosts[i]))
  {
    if i :| 0 <= i < |hosts| && Broken(hosts[i]) {
      SplitLinesNoEnds(File(hosts, cfg, paths, become));
      EntryLine(hosts, cfg, paths, become, i);
      BrokenHasEnd(i, hosts[i], paths, become);
      assert InventoryLines(hosts, cfg, paths, become)[i + 1] in InventoryLines(hosts, cfg, paths, become);
    } else {
      UnbrokenAreWhole(hosts, paths, |hosts|);
      FileReadsBack(hosts, cfg, paths, become);
    }
  }

  // ----- the password -----

  /** The password's word, evaluated, is the password. */
  predicate PasswordArrives(i: nat, h: Host, paths: map<string, string>, become: bool, evaluate: Evaluate) {
    var lines := SplitLines(Line(Fields(i, h, paths, become)) + "\n");
    lines != [] && Tokens(lines[0]).Some?
    && ValueOf(Tokens(lines[0]).value, PASSWORD_KEY, evaluate) == Some(AsText(h.password))
  }

  lemma StumpWords(h: Host, w: string)
    requires NameOk(h.name) && Ragged(h) && w in MeantAll(Stump(h))
    ensures !(PASSWORD_KEY <= w)
  {
    NameIsAddress(h.name);
    if w == Chop(h.name) {
      assert PASSWORD_KEY[16] == '=';
      assert forall k :: 0 <= k < |w| ==> w[k] in w;
    } else {
      StumpWord(h, w);
      assert PASSWORD_KEY[8] == 'p' && PASSWORD_KEY[9] == 'a';
      if w[8] == 'p' { NotThePassword(w, 9); } else { NotThePassword(w, 8); }
    }
  }

  lemma StumpWord(h: Host, w: string)
    requires Ragged(h) && w in MeantAll(Stump(h)) && w != Chop(h.name)
    ensures |w| > 9 && (w[8] == 'h' || w[8] == 'u' || (w[8] == 'p' && w[9] == 'o'))
  {
    var host, port, user := "ansible_host=", "ansible_port=" + Decimal(h.port), "ansible_user=" + Chop(h.user);
    MeantAppend(Before(h), [Bare(Torn(h))]);
    OneField(Bare(Torn(h)));
    OneField(Bare(h.name));
    if !EndsInLineFeed(h.name) && !EndsInLineFeed(h.address) {
      assert Before(h) == [Bare(h.name)] + ([Bare(host + h.address)] + [Bare(port)]);
      MeantAppend([Bare(h.name)], [Bare(host + h.address)] + [Bare(port)]);
      MeantAppend([Bare(host + h.address)], [Bare(port)]);
      OneField(Bare(host + h.address));
      OneField(Bare(port));
    }
    assert w == host + h.address || w == host + Chop(h.address) || w == port || w == user;
  }

  /** A written password reaches Ansible with its host as itself exactly when no line feed got through in the
      host's name, address or user, the password has no line end, and evaluating it leaves it alone.  A
      password that reads as a number, say, arrives as that number. */
  lemma PasswordArrivesIff(i: nat, h: Host, paths: map<string, string>, become: bool, evaluate: Evaluate)
    requires HostOk(h, paths) && PasswordWritten(h)
    ensures PasswordArrives(i, h, paths, become, evaluate)
            <==> !Ragged(h) && NoEnds(h.password) && evaluate(h.password) == AsText(h.password)
  {
    if Ragged(h) {
      RaggedFirstLine(i, h, paths, become, "\n");
      var words := MeantAll(Stump(h));
      forall w | w in words ensures !(PASSWORD_KEY <= w) { StumpWords(h, w); }
      ValueOfSkips([], words, PASSWORD_KEY, evaluate);
      assert [] + words == words;
    } else if Cut(h) {
      OkIsPlain(h, paths);
      CutEntryIsUnreadable(i, h, paths, become, "\n");
    } else {
      EntrySurvivesIff(i, h, paths, become);
      PasswordValue(i, h, paths, become, evaluate);
    }
  }
}
