/** Reading an ssh_config: lines into stanzas, host patterns, and the options a host ends up with. */
module SshMeaning {
  import opened Wrappers
  import opened Text
  import opened SshConfig

  // ----- lines -----

  datatype Line = Blank | HostLine(patterns: seq<string>) | OptionSet(keyword: string, value: string)

  function Words(v: string): seq<string> { NonEmpty(Split(v, ' ')) }

  function NonEmpty(ws: seq<string>): seq<string> {
    if ws == [] then [] else (if ws[0] == "" then [] else [ws[0]]) + NonEmpty(ws[1..])
  }

  /** Leading white space, blank lines and comments mean nothing; the rest is a keyword and its value. */
  function ParseLine(line: string): Line {
    var t := TrimLeft(line);
    if t == "" || t[0] == '#' then Blank else
    var i := IndexOf(t, ' ');
    var value := if i < |t| then t[i + 1..] else "";
    if t[..i] == "Host" then HostLine(Words(value)) else OptionSet(t[..i], value)
  }

  /** An option belongs to the latest Host line; before the first one it applies to every host. */
  function Feed(ss: seq<Stanza>, line: Line): seq<Stanza> {
    match line
    case Blank => ss
    case HostLine(patterns) => ss + [Stanza(patterns, [])]
    case OptionSet(k, v) =>
      if ss == [] then [Stanza(["*"], [(k, v)])]
      else ss[..|ss| - 1] + [ss[|ss| - 1].(options := ss[|ss| - 1].options + [(k, v)])]
  }

  function ParseFrom(ss: seq<Stanza>, lines: seq<string>): seq<Stanza>
    decreases |lines|
  {
    if lines == [] then ss else ParseFrom(Feed(ss, ParseLine(lines[0])), lines[1..])
  }

  function Parse(text: string): seq<Stanza> { ParseFrom([], Split(text, '\n')) }

  // ----- host patterns -----

  /** `*` stands for any run of characters, `?` for any one. */
  predicate Glob(p: string, s: string)
    decreases |p|, |s|
  {
    if p == "" then s == ""
    else if p[0] == '*' then Glob(p[1..], s) || (s != "" && Glob(p, s[1..]))
    else s != "" && (p[0] == '?' || p[0] == s[0]) && Glob(p[1..], s[1..])
  }

  predicate Negation(p: string) { p != "" && p[0] == '!' }

  /** A Host line applies when some pattern matches and no negated one does. */
  predicate Applies(s: Stanza, host: string) {
    && (exists p :: p in s.patterns && !Negation(p) && Glob(p, host))
    && !(exists p :: p in s.patterns && Negation(p) && Glob(p[1..], host))
  }

  function Selected(ss: seq<Stanza>, host: string): seq<Stanza> {
    if ss == [] then [] else
    Selected(ss[..|ss| - 1], host) + (if Applies(ss[|ss| - 1], host) then [ss[|ss| - 1]] else [])
  }

  // ----- what a host ends up with -----

  function Options(ss: seq<Stanza>): seq<(string, string)> {
    if ss == [] then [] else ss[0].options + Options(ss[1..])
  }

  /** For most keywords the first value obtained is used. */
  function First(os: seq<(string, string)>, k: string): Option<string> {
    if os == [] then None else if os[0].0 == k then Some(os[0].1) else First(os[1..], k)
  }

  /** Every IdentityFile given is tried. */
  function Identities(os: seq<(string, string)>): seq<string> {
    if os == [] then [] else (if os[0].0 == "IdentityFile" then [os[0].1] else []) + Identities(os[1..])
  }

  /** Where a connection goes when that is not the name it was asked for by. */
  datatype Place = Place(hostName: Option<string>, port: Option<string>, user: Option<string>)

  /** How the other end proves itself, and how long it has. */
  datatype Trust = Trust(policy: Option<string>, knownHosts: Option<string>, timeout: Option<string>)

  /** How the connection to a host authenticates, what it goes through, where to, and what it trusts. */
  datatype Meaning = Meaning(jump: Option<string>, pubkey: bool, identities: seq<string>, only: bool,
                             preferred: Option<string>, prompts: Option<string>, place: Place, trust: Trust)

  function PlaceOf(os: seq<(string, string)>): Place {
    Place(First(os, "HostName"), First(os, "Port"), First(os, "User"))
  }

  function TrustOf(os: seq<(string, string)>): Trust {
    Trust(First(os, "StrictHostKeyChecking"), First(os, "UserKnownHostsFile"), First(os, "ConnectTimeout"))
  }

  function MeaningOf(ss: seq<Stanza>, host: string): Meaning {
    var os := Options(Selected(ss, host));
    Meaning(First(os, "ProxyJump"), First(os, "PubkeyAuthentication") != Some("no"), Identities(os),
            First(os, "IdentitiesOnly") == Some("yes"), First(os, "PreferredAuthentications"),
            First(os, "NumberOfPasswordPrompts"), PlaceOf(os), TrustOf(os))
  }

  // ----- written stanzas are read back -----

  predicate Word(w: string) { w != "" && forall c :: c in w ==> !IsSpace(c) }
  predicate Keyword(w: string) { Word(w) && w != "Host" && w[0] != '#' }
  predicate OneLine(v: string) { '\n' !in v }

  predicate Clean(s: Stanza) {
    && s.patterns != [] && (forall p :: p in s.patterns ==> Word(p))
    && (forall o :: o in s.options ==> Keyword(o.0) && OneLine(o.1))
  }

  lemma WordHasNo(w: string, c: char)
    requires Word(w) && IsSpace(c)
    ensures c !in w
  {
  }

  lemma SpaceTrimmed(s: string)
    ensures TrimLeft(" " + s) == TrimLeft(s)
  {
    assert (" " + s)[1..] == s;
  }

  lemma IndentTrimmed(t: string)
    requires t != "" && !IsSpace(t[0])
    ensures TrimLeft("    " + t) == t
  {
    SpaceTrimmed(t);
    SpaceTrimmed(" " + t);
    SpaceTrimmed(" " + (" " + t));
    SpaceTrimmed(" " + (" " + (" " + t)));
    assert "    " + t == " " + (" " + (" " + (" " + t)));
  }

  lemma OptionRead(o: (string, string))
    requires Keyword(o.0)
    ensures ParseLine(OptionLine(o)) == OptionSet(o.0, o.1)
  {
    var t := o.0 + " " + o.1;
    assert OptionLine(o) == "    " + t;
    assert t[0] in o.0;
    IndentTrimmed(t);
    WordHasNo(o.0, ' ');
    assert t[..|o.0|] == o.0 && t[|o.0| + 1..] == o.1;
    IndexOfUnique(t, ' ', |o.0|);
  }

  lemma {:induction false} AllNonEmpty(ws: seq<string>)
    requires "" !in ws
    ensures NonEmpty(ws) == ws
  {
    if ws != [] {
      assert ws[0] in ws;
      AllNonEmpty(ws[1..]);
    }
  }

  lemma HostRead(patterns: seq<string>)
    requires patterns != [] && forall p :: p in patterns ==> Word(p)
    ensures ParseLine("Host " + Join(patterns, ' ')) == HostLine(patterns)
  {
    var v := Join(patterns, ' ');
    var t := "Host " + v;
    assert TrimLeft(t) == t;
    assert t[..4] == "Host" && t[5..] == v;
    IndexOfUnique(t, ' ', 4);
    forall p | p in patterns ensures ' ' !in p && p != "" { WordHasNo(p, ' '); }
    SplitJoin(patterns, ' ');
    AllNonEmpty(patterns);
  }

  lemma {:induction false} ParseAppend(ss: seq<Stanza>, a: seq<string>, b: seq<string>)
    ensures ParseFrom(ss, a + b) == ParseFrom(ParseFrom(ss, a), b)
    decreases |a|
  {
    if a == [] { assert a + b == b; } else {
      assert (a + b)[1..] == a[1..] + b;
      ParseAppend(Feed(ss, ParseLine(a[0])), a[1..], b);
    }
  }

  /** An option joins the stanza that is open. */
  lemma OptionJoins(ss: seq<Stanza>, s: Stanza, o: (string, string))
    ensures Feed(ss + [s], OptionSet(o.0, o.1)) == ss + [s.(options := s.options + [o])]
  {
    assert (ss + [s])[..|ss|] == ss && (o.0, o.1) == o;
  }

  lemma OptionMoves(options: seq<(string, string)>, o: (string, string), os: seq<(string, string)>)
    ensures options + [o] + os == options + ([o] + os)
  {
  }

  lemma {:induction false} OptionsRead(ss: seq<Stanza>, s: Stanza, os: seq<(string, string)>)
    requires forall o :: o in os ==> Keyword(o.0)
    ensures ParseFrom(ss + [s], OptionLines(os)) == ss + [s.(options := s.options + os)]
    decreases |os|
  {
    if os == [] {
      assert s.options + os == s.options;
    } else {
      var o, rest := os[0], os[1..];
      assert o in os && os == [o] + rest;
      OptionRead(o);
      OptionJoins(ss, s, o);
      OptionsRead(ss, s.(options := s.options + [o]), rest);
      OptionMoves(s.options, o, rest);
      assert OptionLines(os) == [OptionLine(o)] + OptionLines(rest);
    }
  }

  lemma StanzaRead(ss: seq<Stanza>, s: Stanza)
    requires Clean(s)
    ensures ParseFrom(ss, Render(s)) == ss + [s]
  {
    var head := "Host " + Join(s.patterns, ' ');
    HostRead(s.patterns);
    var empty := Stanza(s.patterns, []);
    ParseAppend(ss, [head] + OptionLines(s.options), [""]);
    ParseAppend(ss, [head], OptionLines(s.options));
    assert ParseFrom(ss, [head]) == ss + [empty] by { assert [head][1..] == []; }
    OptionsRead(ss, empty, s.options);
    assert [] + s.options == s.options;
    BlankRead(ss + [s]);
  }

  lemma BlankRead(ss: seq<Stanza>)
    ensures ParseFrom(ss, [""]) == ss
  {
    assert TrimLeft("") == "" && [""][1..] == [];
  }

  lemma OneMoreRead(lines: seq<string>, ss: seq<Stanza>, s: Stanza)
    requires ParseFrom([], lines) == ss && Clean(s)
    ensures ParseFrom([], lines + Render(s)) == ss + [s]
  {
    ParseAppend([], lines, Render(s));
    StanzaRead(ss, s);
  }

  lemma {:induction false} AllRead(ss: seq<Stanza>)
    requires forall s :: s in ss ==> Clean(s)
    ensures ParseFrom([], RenderAll(ss)) == ss
    decreases |ss|
  {
    if ss != [] {
      var init, s := ss[..|ss| - 1], ss[|ss| - 1];
      assert s in ss && ss == init + [s];
      RenderAllSnoc(init, s);
      AllRead(init);
      OneMoreRead(RenderAll(init), init, s);
    }
  }

  // ----- no rendered line contains a newline -----

  lemma {:induction false} JoinOneLine(ws: seq<string>)
    requires ws != [] && forall w :: w in ws ==> OneLine(w)
    ensures OneLine(Join(ws, ' '))
  {
    assert ws[0] in ws;
    if |ws| > 1 { JoinOneLine(ws[1..]); }
  }

  lemma {:induction false} OptionsOneLine(os: seq<(string, string)>)
    requires forall o :: o in os ==> Keyword(o.0) && OneLine(o.1)
    ensures forall l :: l in OptionLines(os) ==> OneLine(l)
  {
    if os != [] {
      assert os[0] in os;
      WordHasNo(os[0].0, '\n');
      assert OneLine(OptionLine(os[0]));
      OptionsOneLine(os[1..]);
    }
  }

  lemma RenderOneLine(s: Stanza)
    requires Clean(s)
    ensures forall l :: l in Render(s) ==> OneLine(l)
  {
    forall p | p in s.patterns ensures OneLine(p) { WordHasNo(p, '\n'); }
    JoinOneLine(s.patterns);
    OptionsOneLine(s.options);
    assert OneLine("Host " + Join(s.patterns, ' ')) && OneLine("");
  }

  lemma {:induction false} AllOneLine(ss: seq<Stanza>)
    requires forall s :: s in ss ==> Clean(s)
    ensures forall l :: l in RenderAll(ss) ==> OneLine(l)
    decreases |ss|
  {
    if ss != [] {
      assert ss[|ss| - 1] in ss;
      AllOneLine(ss[..|ss| - 1]);
      RenderOneLine(ss[|ss| - 1]);
    }
  }

  /** Text made from clean stanzas reads back as exactly those stanzas. */
  lemma ReadsBack(ss: seq<Stanza>)
    requires ss != [] && forall s :: s in ss ==> Clean(s)
    ensures RenderAll(ss) != [] && Parse(Join(RenderAll(ss), '\n')) == ss
  {
    AllOneLine(ss);
    AllRead(ss);
    assert ss[|ss| - 1] in ss;
    SplitJoin(RenderAll(ss), '\n');
  }
}
