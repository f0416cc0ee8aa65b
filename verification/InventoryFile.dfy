/** The inventory as a file: cut into lines where Python cuts them, each line into shell words, each value
    evaluated.  When every host's values come through, and exactly when they do not. */
module InventoryFile {
  import opened Wrappers
  import opened Text
  import opened SshConfig
  import opened Inventory

  // ----- lines -----

  predicate NoEnds(s: string) { forall c :: c in s ==> !IsLineEnd(c) }

  /** How many characters come before the first line end. */
  function LineLength(s: string): (n: nat)
    ensures n <= |s| && NoEnds(s[..n]) && (n < |s| ==> IsLineEnd(s[n]))
    ensures n == |s| <==> NoEnds(s)
  {
    if s == "" || IsLineEnd(s[0]) then 0 else
    var n := 1 + LineLength(s[1..]);
    assert s == [s[0]] + s[1..] && s[..n] == [s[0]] + s[1..][..n - 1];
    n
  }

  /** str.splitlines: a carriage return with its line feed is one end, and an end at the very end opens no
      further line. */
  function SplitLines(s: string): seq<string>
    decreases |s|
  {
    if s == "" then [] else
    var n := LineLength(s);
    if n == |s| then [s]
    else if s[n] == '\r' && n + 1 < |s| && s[n + 1] == '\n' then [s[..n]] + SplitLines(s[n + 2..])
    else [s[..n]] + SplitLines(s[n + 1..])
  }

  lemma LineLengthIs(l: string, c: char, rest: string)
    requires NoEnds(l) && IsLineEnd(c)
    ensures LineLength(l + [c] + rest) == |l|
  {
    var s := l + [c] + rest;
    var n := LineLength(s);
    assert s[|l|] == c && s[..|l|] == l;
    assert n < |s| by { assert c in s; }
    assert forall k :: 0 <= k < |l| ==> s[k] == l[k] && s[k] in l;
    assert !(n < |l|);
    assert forall k :: 0 <= k < n ==> s[..n][k] == s[k] && s[k] in s[..n];
    assert !(|l| < n);
  }

  lemma FirstLine(l: string, c: char, rest: string)
    requires NoEnds(l) && IsLineEnd(c)
    ensures SplitLines(l + [c] + rest) != [] && SplitLines(l + [c] + rest)[0] == l
  {
    LineLengthIs(l, c, rest);
    assert (l + [c] + rest)[..|l|] == l;
  }

  lemma LineFeedSplits(l: string, rest: string)
    requires NoEnds(l)
    ensures SplitLines(l + "\n" + rest) == [l] + SplitLines(rest)
  {
    var s := l + ['\n'] + rest;
    assert s == l + "\n" + rest;
    LineLengthIs(l, '\n', rest);
    assert s[|l|] == '\n' && s[..|l|] == l && s[|l| + 1..] == rest;
  }

  /** Each line with its line feed. */
  function Ended(lines: seq<string>): string {
    if lines == [] then "" else lines[0] + "\n" + Ended(lines[1..])
  }

  lemma {:induction false} JoinEnded(lines: seq<string>)
    requires lines != []
    ensures Join(lines, '\n') + "\n" == Ended(lines)
  {
    if |lines| == 1 {
      assert lines[1..] == [] && Ended([]) == "";
      assert lines[0] + "\n" + "" == lines[0] + "\n";
    } else {
      JoinEnded(lines[1..]);
      var a, b := lines[0], Join(lines[1..], '\n');
      assert a + ['\n'] + b + "\n" == a + "\n" + (b + "\n");
    }
  }

  lemma OneEnded(l: string, ls: seq<string>)
    requires NoEnds(l)
    ensures SplitLines(Ended([l] + ls)) == [l] + SplitLines(Ended(ls))
  {
    assert ([l] + ls)[1..] == ls;
    LineFeedSplits(l, Ended(ls));
  }

  predicate AllOneLine(lines: seq<string>) { forall i :: 0 <= i < |lines| ==> NoEnds(lines[i]) }

  /** Lines without line ends in them come back one by one, whatever follows. */
  lemma {:induction false} EndedSplits(lines: seq<string>, rest: seq<string>)
    requires AllOneLine(lines)
    ensures SplitLines(Ended(lines + rest)) == lines + SplitLines(Ended(rest))
    decreases |lines|
  {
    if lines == [] {
      assert lines + rest == rest;
    } else {
      var l, ls := lines[0], lines[1..];
      assert lines == [l] + ls;
      EndedSplits(ls, rest);
      OneEnded(l, ls + rest);
      Shift(l, ls, rest);
      Shift(l, ls, SplitLines(Ended(rest)));
    }
  }

  lemma Shift(l: string, ls: seq<string>, rest: seq<string>)
    ensures [l] + ls + rest == [l] + (ls + rest)
  {
  }

  // ----- which lines have no line end in them -----

  predicate PasswordWritten(h: Host) { h.auth == VAULT_PASSWORD && h.password != "" }

  /** The host's entry is cut: a password with a line end was written into it. */
  predicate Cut(h: Host) { PasswordWritten(h) && !NoEnds(h.password) }

  lemma NoEndsConcat(a: string, b: string)
    requires NoEnds(a) && NoEnds(b)
    ensures NoEnds(a + b)
  {
  }

  lemma NoEndsLiteral(l: string)
    requires forall i :: 0 <= i < |l| ==> ' ' <= l[i] <= '~'
    ensures NoEnds(l)
  {
  }

  lemma {:induction false} NoEndsJoin(ws: seq<string>)
    requires forall w :: w in ws ==> NoEnds(w)
    ensures NoEnds(Join(ws, ' '))
  {
    if ws != [] {
      assert ws[0] in ws;
      NoEndsJoin(ws[1..]);
    }
  }

  lemma {:induction false} NoEndsEscape(v: string)
    requires NoEnds(v)
    ensures NoEnds(Escape(v))
    decreases |v|
  {
    if v != "" {
      assert v == [v[0]] + v[1..] && v[0] in v;
      EscapeStep(v[0], v[1..]);
      NoEndsEscape(v[1..]);
      NoEndsConcat(EscapeChar(v[0]), Escape(v[1..]));
    }
  }

  lemma WrittenNoEnds(f: Field)
    requires Sound(f) && (f.Keyed? ==> NoEnds(f.value))
    ensures NoEnds(Written(f))
  {
    if f.Keyed? {
      NoEndsEscape(f.value);
      NoEndsConcat("\"", Escape(f.value));
      NoEndsConcat("\"" + Escape(f.value), "\"");
      NoEndsConcat(f.key, InvQuote(f.value));
    }
  }

  lemma {:induction false} AllWrittenNoEnds(fs: seq<Field>)
    requires AllSound(fs) && forall i :: 0 <= i < |fs| && fs[i].Keyed? ==> NoEnds(fs[i].value)
    ensures forall w :: w in WrittenAll(fs) ==> NoEnds(w)
  {
    if fs != [] {
      assert Sound(fs[0]);
      WrittenNoEnds(fs[0]);
      assert AllSound(fs[1..]);
      AllWrittenNoEnds(fs[1..]);
    }
  }

  lemma EntryNoEnds(i: nat, h: Host, paths: map<string, string>, become: bool)
    requires PlainHost(h, paths) && !Cut(h)
    ensures NoEnds(Line(Fields(i, h, paths, become)))
  {
    BaseSound(h, paths);
    ExtrasSound(i, h, paths, become);
    var fs := Fields(i, h, paths, become);
    assert AllSound(fs);
    AllWrittenNoEnds(fs);
    NoEndsJoin(WrittenAll(fs));
  }

  lemma ProxyNoEnds(cfg: string)
    requires NoEnds(cfg)
    ensures NoEnds("ansible_paramiko_proxy_command=ssh -F " + cfg + " -W %h:%p " + JUMP)
  {
    NoEndsLiteral("ansible_paramiko_proxy_command=ssh -F ");
    NoEndsLiteral(" -W %h:%p ");
    NoEndsLiteral(JUMP);
    NoEndsConcat("ansible_paramiko_proxy_command=ssh -F ", cfg);
    NoEndsConcat("ansible_paramiko_proxy_command=ssh -F " + cfg, " -W %h:%p ");
    NoEndsConcat("ansible_paramiko_proxy_command=ssh -F " + cfg + " -W %h:%p ", JUMP);
  }

  lemma VarsNoEnds(cfg: string, become: bool, l: string)
    requires NoEnds(cfg) && l in Vars(cfg, become)
    ensures NoEnds(l)
  {
    ProxyNoEnds(cfg);
    NoEndsLiteral("ansible_ssh_common_args=-F ");
    NoEndsConcat("ansible_ssh_common_args=-F ", cfg);
    NoEndsLiteral("[all:vars]");
    NoEndsLiteral("ansible_become_method=sudo");
  }

  // ----- a cut entry -----

  /** The words before a blank do not depend on how the line goes on after it. */
  lemma {:induction false} LineThen(fs: seq<Field>, c: char, rest: string)
    requires fs != [] && Blank(c) && forall f :: f in fs ==> Sound(f)
    ensures Lex(Line(fs) + [c] + rest, None, Plain) == Prefix(MeantAll(fs), Tokens(rest))
    decreases |fs|
  {
    var f := fs[0];
    assert f in fs;
    if |fs| == 1 {
      assert fs == [f];
      OneField(f);
      assert Line(fs) + [c] + rest == Written(f) + ([c] + rest);
      FieldRead(f, [c] + rest);
      assert ([c] + rest)[1..] == rest;
    } else {
      var tail := Line(fs[1..]) + [c] + rest;
      LineUnfolds(fs, c, rest);
      FieldRead(f, " " + tail);
      assert (" " + tail)[1..] == tail;
      LineThen(fs[1..], c, rest);
      PrefixTwice([Meant(f)], MeantAll(fs[1..]), Tokens(rest));
    }
  }

  lemma LineUnfolds(fs: seq<Field>, c: char, rest: string)
    requires |fs| > 1
    ensures Line(fs) + [c] + rest == Written(fs[0]) + (" " + (Line(fs[1..]) + [c] + rest))
  {
    assert WrittenAll(fs)[1..] == WrittenAll(fs[1..]);
    assert |WrittenAll(fs)| > 1;
  }

  lemma PrefixTwice(a: seq<string>, b: seq<string>, r: Option<seq<string>>)
    ensures Prefix(a, Prefix(b, r)) == Prefix(a + b, r)
  {
    if r.Some? { assert a + (b + r.value) == a + b + r.value; }
  }

  /** A key with an opened but unclosed quote has no words. */
  lemma OpenQuote(k: string, v: string)
    requires PlainText(k)
    ensures Tokens(k + "\"" + Escape(v)) == None
  {
    assert k + "\"" + Escape(v) == k + ("\"" + Escape(v));
    PlainStart(k, "\"" + Escape(v));
    assert ("\"" + Escape(v))[1..] == Escape(v) + "";
    EscapedRead(v, "", k);
  }

  lemma {:induction false} EscapeAppend(a: string, b: string)
    ensures Escape(a + b) == Escape(a) + Escape(b)
    decreases |a|
  {
    if a == "" { assert a + b == b; } else {
      assert a == [a[0]] + a[1..] && a + b == [a[0]] + (a[1..] + b);
      EscapeStep(a[0], a[1..] + b);
      EscapeStep(a[0], a[1..]);
      EscapeAppend(a[1..], b);
    }
  }

  lemma {:induction false} LineGrows(fs: seq<Field>, more: seq<Field>) returns (tail: string)
    requires fs != []
    ensures Line(fs + more) == Line(fs) + tail
    decreases |more|
  {
    if more == [] {
      assert fs + more == fs;
      tail := "";
    } else {
      var init, f := more[..|more| - 1], more[|more| - 1];
      var t := LineGrows(fs, init);
      AddField(fs + init, f);
      assert fs + init + [f] == fs + more;
      tail := t + (" " + Written(f));
      Reassociate(Line(fs), t, " ", Written(f));
    }
  }

  lemma Reassociate(a: string, b: string, c: string, d: string)
    ensures a + b + c + d == a + (b + (c + d))
  {
  }

  /** The part of an entry before a line end in its password. */
  function CutHead(h: Host, v: string): string { Line(BaseFields(h)) + " " + ("ansible_password=" + "\"" + Escape(v)) }

  lemma CutHeadHasNoWords(h: Host, paths: map<string, string>, v: string)
    requires PlainHost(h, paths)
    ensures Tokens(CutHead(h, v)) == None
  {
    BaseSound(h, paths);
    BaseKeysPlain();
    LineThen(BaseFields(h), ' ', "ansible_password=" + "\"" + Escape(v));
    assert [' '] == " ";
    OpenQuote("ansible_password=", v);
  }

  lemma EscapeAround(v: string, k: nat)
    requires k < |v| && IsLineEnd(v[k])
    ensures Escape(v) == Escape(v[..k]) + [v[k]] + Escape(v[k + 1..])
  {
    assert v == v[..k] + ([v[k]] + v[k + 1..]);
    EscapeAppend(v[..k], [v[k]] + v[k + 1..]);
    EscapeStep(v[k], v[k + 1..]);
  }

  /** An entry with a password starts with its base fields and the quoted password. */
  lemma EntryHead(i: nat, h: Host, paths: map<string, string>, become: bool) returns (tail: string)
    requires PasswordWritten(h)
    ensures Line(Fields(i, h, paths, become))
            == Line(BaseFields(h)) + " " + ("ansible_password=" + ("\"" + Escape(h.password) + "\"")) + tail
  {
    var pw := Keyed("ansible_password=", h.password);
    var fs := BaseFields(h) + [pw];
    AddField(BaseFields(h), pw);
    var more := KeyField(h, paths) + ApiFields(i, h) + BecomeField(h, become);
    tail := LineGrows(fs, more);
    assert fs + more == Fields(i, h, paths, become);
  }

  lemma Regroup(base: string, key: string, v1: string, c: char, v2: string, tail: string)
    ensures base + " " + (key + ("\"" + (v1 + [c] + v2) + "\"")) + tail
            == base + " " + (key + "\"" + v1) + [c] + (v2 + "\"" + tail)
  {
  }

  lemma EntryAroundEnd(i: nat, h: Host, paths: map<string, string>, become: bool) returns (rest: string)
    requires Cut(h)
    ensures var k := LineLength(h.password);
            k < |h.password|
            && Line(Fields(i, h, paths, become)) == CutHead(h, h.password[..k]) + [h.password[k]] + rest
  {
    var k := LineLength(h.password);
    var v1, v2 := Escape(h.password[..k]), Escape(h.password[k + 1..]);
    EscapeAround(h.password, k);
    var tail := EntryHead(i, h, paths, become);
    rest := v2 + "\"" + tail;
    Regroup(Line(BaseFields(h)), "ansible_password=", v1, h.password[k], v2, tail);
  }

  lemma HeadNoEnds(h: Host, paths: map<string, string>, v: string)
    requires PlainHost(h, paths) && NoEnds(v)
    ensures NoEnds(CutHead(h, v))
  {
    BaseSound(h, paths);
    AllWrittenNoEnds(BaseFields(h));
    NoEndsJoin(WrittenAll(BaseFields(h)));
    NoEndsEscape(v);
    NoEndsLiteral("ansible_password=");
    NoEndsConcat("ansible_password=" + "\"", Escape(v));
    NoEndsConcat(Line(BaseFields(h)), " ");
    NoEndsConcat(Line(BaseFields(h)) + " ", "ansible_password=" + "\"" + Escape(v));
  }

  lemma Regather(head: string, c: char, tail: string, rest: string)
    ensures head + [c] + tail + rest == head + [c] + (tail + rest)
  {
  }

  /** What is left of a cut entry on its first line has no words: a quote stays open. */
  lemma CutEntryIsUnreadable(i: nat, h: Host, paths: map<string, string>, become: bool, rest: string)
    requires PlainHost(h, paths) && Cut(h)
    ensures var lines := SplitLines(Line(Fields(i, h, paths, become)) + rest);
            lines != [] && Tokens(lines[0]) == None
  {
    var k := LineLength(h.password);
    var head := CutHead(h, h.password[..k]);
    CutHeadHasNoWords(h, paths, h.password[..k]);
    HeadNoEnds(h, paths, h.password[..k]);
    var tail := EntryAroundEnd(i, h, paths, become);
    Regather(head, h.password[k], tail, rest);
    FirstLine(head, h.password[k], tail + rest);
  }

  // ----- the whole file -----

  function File(hosts: seq<Host>, cfg: string, paths: map<string, string>, become: bool): string {
    Join(InventoryLines(hosts, cfg, paths, become), '\n') + "\n"
  }

  /** Line i + 1 of the file splits into host i's values. */
  predicate HostReads(hosts: seq<Host>, cfg: string, paths: map<string, string>, become: bool, i: nat)
    requires i < |hosts|
  {
    var lines := SplitLines(File(hosts, cfg, paths, become));
    i + 1 < |lines| && Tokens(lines[i + 1]) == Some(MeantAll(Fields(i, hosts[i], paths, become)))
  }

  /** The host's entry is one line of plain words. */
  predicate Whole(h: Host, paths: map<string, string>) { PlainHost(h, paths) && !Cut(h) }

  predicate WholeUpTo(hosts: seq<Host>, paths: map<string, string>, i: nat)
    requires i <= |hosts|
  {
    forall k :: 0 <= k < i ==> Whole(hosts[k], paths)
  }

  lemma EntryLine(hosts: seq<Host>, cfg: string, paths: map<string, string>, become: bool, i: nat)
    requires i < |hosts|
    ensures var lines := InventoryLines(hosts, cfg, paths, become);
            i + 1 < |lines| && lines[i + 1] == Line(Fields(i, hosts[i], paths, become))
  {
    assert Entries(hosts, paths, become)[i] == Line(Fields(i, hosts[i], paths, become));
  }

  lemma HeaderLine(hosts: seq<Host>, cfg: string, paths: map<string, string>, become: bool)
    ensures InventoryLines(hosts, cfg, paths, become)[0] == "[all]" && NoEnds("[all]")
  {
    NoEndsLiteral("[all]");
  }

  lemma LinesBefore(hosts: seq<Host>, cfg: string, paths: map<string, string>, become: bool, n: nat)
    requires n <= |hosts| && (n > 0 ==> Whole(hosts[n - 1], paths))
    ensures n < |InventoryLines(hosts, cfg, paths, become)| && NoEnds(InventoryLines(hosts, cfg, paths, become)[n])
  {
    if n == 0 {
      HeaderLine(hosts, cfg, paths, become);
    } else {
      EntryNoEnds(n - 1, hosts[n - 1], paths, become);
      EntryLine(hosts, cfg, paths, become, n - 1);
    }
  }

  /** Up to the first cut entry the file's lines are the generated ones, and what follows is the rest of the
      text. */
  lemma FileFrom(hosts: seq<Host>, cfg: string, paths: map<string, string>, become: bool, i: nat)
    requires i <= |hosts| && WholeUpTo(hosts, paths, i)
    ensures var lines := InventoryLines(hosts, cfg, paths, become);
            SplitLines(File(hosts, cfg, paths, become)) == lines[..i + 1] + SplitLines(Ended(lines[i + 1..]))
  {
    var lines := InventoryLines(hosts, cfg, paths, become);
    forall n | 0 <= n < i + 1 ensures NoEnds(lines[n]) { LinesBefore(hosts, cfg, paths, become, n); }
    JoinEnded(lines);
    assert lines == lines[..i + 1] + lines[i + 1..];
    EndedSplits(lines[..i + 1], lines[i + 1..]);
  }

  lemma HostReadsBack(hosts: seq<Host>, cfg: string, paths: map<string, string>, become: bool, i: nat)
    requires i < |hosts| && WholeUpTo(hosts, paths, i + 1)
    ensures HostReads(hosts, cfg, paths, become, i)
  {
    FileFrom(hosts, cfg, paths, become, i + 1);
    EntryLine(hosts, cfg, paths, become, i);
    EntryReadsBack(i, hosts[i], paths, become);
  }

  /** A host whose entry does not read on its own first line, after entries that do, does not read in the
      file. */
  lemma BrokenHostDoesNotRead(hosts: seq<Host>, cfg: string, paths: map<string, string>, become: bool, i: nat)
    requires i < |hosts| && WholeUpTo(hosts, paths, i)
    requires forall rest :: !FirstLineReads(i, hosts[i], paths, become, rest)
    ensures !HostReads(hosts, cfg, paths, become, i)
  {
    FileFrom(hosts, cfg, paths, become, i);
    EntryLine(hosts, cfg, paths, become, i);
    var after := InventoryLines(hosts, cfg, paths, become)[i + 1..];
    var more := EndedFirst(after);
    assert !FirstLineReads(i, hosts[i], paths, become, more);
  }

  /** The first line of the host's entry, whatever follows it, splits into the host's values. */
  predicate FirstLineReads(i: nat, h: Host, paths: map<string, string>, become: bool, rest: string) {
    var lines := SplitLines(Line(Fields(i, h, paths, become)) + rest);
    lines != [] && Tokens(lines[0]) == Some(MeantAll(Fields(i, h, paths, become)))
  }

  lemma EndedFirst(lines: seq<string>) returns (more: string)
    requires lines != []
    ensures Ended(lines) == lines[0] + more
  {
    more := "\n" + Ended(lines[1..]);
    assert lines[0] + "\n" + Ended(lines[1..]) == lines[0] + more;
  }

  /** The variables after the hosts come back too. */
  lemma FileReadsBack(hosts: seq<Host>, cfg: string, paths: map<string, string>, become: bool)
    requires WholeUpTo(hosts, paths, |hosts|) && NoEnds(cfg)
    ensures SplitLines(File(hosts, cfg, paths, become)) == InventoryLines(hosts, cfg, paths, become)
  {
    var lines := InventoryLines(hosts, cfg, paths, become);
    FileFrom(hosts, cfg, paths, become, |hosts|);
    var vars := lines[|hosts| + 1..];
    assert vars == Vars(cfg, become);
    forall n | 0 <= n < |vars| ensures NoEnds(vars[n]) { VarsNoEnds(cfg, become, vars[n]); }
    EndedSplits(vars, []);
    assert vars + [] == vars && SplitLines(Ended([])) == [];
  }

  // ----- what a value becomes -----

  /** The reader evaluates each value as a Python literal where it can: the text, or something else. */
  datatype PyValue = AsText(text: string) | Other
  type Evaluate = string -> PyValue

  /** The value the words after the host's name give a variable; `key` ends in the equals sign. */
  function ValueOf(words: seq<string>, key: string, evaluate: Evaluate): Option<PyValue> {
    if words == [] then None
    else if key <= words[|words| - 1] then Some(evaluate(words[|words| - 1][|key|..]))
    else ValueOf(words[..|words| - 1], key, evaluate)
  }

  lemma {:induction false} ValueOfSkips(words: seq<string>, more: seq<string>, key: string, evaluate: Evaluate)
    requires forall w :: w in more ==> !(key <= w)
    ensures ValueOf(words + more, key, evaluate) == ValueOf(words, key, evaluate)
    decreases |more|
  {
    if more == [] { assert words + more == words; } else {
      var init, w := more[..|more| - 1], more[|more| - 1];
      assert w in more && (forall x :: x in init ==> x in more) && (words + more)[..|words + more| - 1] == words + init;
      ValueOfSkips(words, init, key, evaluate);
    }
  }

  lemma {:induction false} MeantAppend(a: seq<Field>, b: seq<Field>)
    ensures MeantAll(a + b) == MeantAll(a) + MeantAll(b)
    decreases |a|
  {
    if a == [] { assert a + b == b; } else {
      assert (a + b)[1..] == a[1..] + b;
      MeantAppend(a[1..], b);
    }
  }

  const PASSWORD_KEY := "ansible_password="

  lemma NotThePassword(w: string, k: nat)
    requires k < |w| && k < |PASSWORD_KEY| && w[k] != PASSWORD_KEY[k]
    ensures !(PASSWORD_KEY <= w)
  {
  }

  lemma ApiWords(i: nat, h: Host, w: string)
    requires w in MeantAll(ApiFields(i, h))
    ensures !(PASSWORD_KEY <= w)
  {
    var a, b := Bare("fleet_api_host=127.0.0.1"), Bare("fleet_api_port=" + Decimal(ApiLocalPort(i)));
    if h.apiTunnel {
      assert ApiFields(i, h) == [a] + [b];
      MeantAppend([a], [b]);
      OneField(a);
      OneField(b);
      assert w[0] == 'f';
      NotThePassword(w, 0);
    }
  }

  lemma BecomeWords(h: Host, become: bool, w: string)
    requires w in MeantAll(BecomeField(h, become))
    ensures !(PASSWORD_KEY <= w)
  {
    OneField(Bare("ansible_become=true"));
    OneField(Bare("ansible_become=false"));
    assert w == "ansible_become=true" || w == "ansible_become=false";
    assert w[8] == 'b';
    NotThePassword(w, 8);
  }

  lemma PasswordValue(i: nat, h: Host, paths: map<string, string>, become: bool, evaluate: Evaluate)
    requires PasswordWritten(h)
    ensures ValueOf(MeantAll(Fields(i, h, paths, become)), PASSWORD_KEY, evaluate) == Some(evaluate(h.password))
  {
    var base, pw := BaseFields(h), Keyed(PASSWORD_KEY, h.password);
    var api, up := ApiFields(i, h), BecomeField(h, become);
    WordsOf(i, h, paths, become);
    forall w | w in MeantAll(up) ensures !(PASSWORD_KEY <= w) { BecomeWords(h, become, w); }
    forall w | w in MeantAll(api) ensures !(PASSWORD_KEY <= w) { ApiWords(i, h, w); }
    ValueOfSkips(MeantAll(base) + [Meant(pw)] + MeantAll(api), MeantAll(up), PASSWORD_KEY, evaluate);
    ValueOfSkips(MeantAll(base) + [Meant(pw)], MeantAll(api), PASSWORD_KEY, evaluate);
    ValueOfLast(MeantAll(base), h.password, evaluate);
  }

  lemma ValueOfLast(words: seq<string>, v: string, evaluate: Evaluate)
    ensures ValueOf(words + [PASSWORD_KEY + v], PASSWORD_KEY, evaluate) == Some(evaluate(v))
  {
    assert (PASSWORD_KEY + v)[|PASSWORD_KEY|..] == v;
  }

  lemma WordsOf(i: nat, h: Host, paths: map<string, string>, become: bool)
    requires PasswordWritten(h)
    ensures MeantAll(Fields(i, h, paths, become))
            == MeantAll(BaseFields(h)) + [PASSWORD_KEY + h.password] + MeantAll(ApiFields(i, h)) + MeantAll(BecomeField(h, become))
  {
    var base, pw, api, up := BaseFields(h), [Keyed(PASSWORD_KEY, h.password)], ApiFields(i, h), BecomeField(h, become);
    assert KeyField(h, paths) == [] && base + pw + [] == base + pw;
    MeantAppend(base + pw + api, up);
    MeantAppend(base + pw, api);
    MeantAppend(base, pw);
    OneField(pw[0]);
  }
}
