/** The Ansible inventory of a run: one line of words per host, read back the way a POSIX shell
    splits words, so a password with spaces, quotes or backslashes arrives intact. */
module Inventory {
  import opened Wrappers
  import opened Text
  import opened SshConfig

  // ----- quoting, as two replacement passes -----

  function Replace(s: string, c: char, r: string): string {
    if s == "" then "" else (if s[0] == c then r else [s[0]]) + Replace(s[1..], c, r)
  }

  function Escape(v: string): string { Replace(Replace(v, '\\', "\\\\"), '\"', "\\\"") }

  function InvQuote(v: string): string { "\"" + Escape(v) + "\"" }

  function EscapeChar(c: char): string {
    if c == '\\' then "\\\\" else if c == '\"' then "\\\"" else [c]
  }

  lemma {:induction false} ReplaceAppend(a: string, b: string, c: char, r: string)
    ensures Replace(a + b, c, r) == Replace(a, c, r) + Replace(b, c, r)
  {
    if a == "" { assert a + b == b; } else {
      assert (a + b)[1..] == a[1..] + b;
      ReplaceAppend(a[1..], b, c, r);
    }
  }

  lemma ReplaceOne(x: char, c: char, r: string)
    ensures Replace([x], c, r) == if x == c then r else [x]
  {
    assert [x][1..] == "";
  }

  /** The two passes together escape character by character. */
  lemma EscapeStep(c: char, v: string)
    ensures Escape([c] + v) == EscapeChar(c) + Escape(v)
  {
    var pass1 := Replace([c], '\\', "\\\\");
    ReplaceOne(c, '\\', "\\\\");
    ReplaceAppend([c], v, '\\', "\\\\");
    ReplaceAppend(pass1, Replace(v, '\\', "\\\\"), '\"', "\\\"");
    if c == '\\' {
      assert pass1 == ['\\'] + ['\\'];
      ReplaceAppend(['\\'], ['\\'], '\"', "\\\"");
      ReplaceOne('\\', '\"', "\\\"");
    } else {
      ReplaceOne(c, '\"', "\\\"");
    }
  }

  // ----- splitting a line into words -----

  datatype Mode = Plain | Double | Single

  predicate Blank(c: char) { c == ' ' || c == '\t' || c == '\r' || c == '\n' }

  function Grow(word: Option<string>, c: char): Option<string> {
    Some((if word.Some? then word.value else "") + [c])
  }

  function Emit(word: Option<string>): seq<string> { if word.Some? then [word.value] else [] }

  /** The words of a line; `None` when a quote or an escape is left open. */
  function Lex(s: string, word: Option<string>, mode: Mode): Option<seq<string>>
    decreases |s|
  {
    if s == "" then (if mode == Plain then Some(Emit(word)) else None)
    else match mode
      case Double =>
        if s[0] == '\"' then Lex(s[1..], word, Plain)
        else if s[0] == '\\' && |s| < 2 then None
        else if s[0] == '\\' && (s[1] == '\\' || s[1] == '\"') then Lex(s[2..], Grow(word, s[1]), Double)
        else Lex(s[1..], Grow(word, s[0]), Double)
      case Single =>
        if s[0] == '\'' then Lex(s[1..], word, Plain) else Lex(s[1..], Grow(word, s[0]), Single)
      case Plain =>
        if Blank(s[0]) then Prefix(Emit(word), Lex(s[1..], None, Plain))
        else if s[0] == '#' then Some(Emit(word))
        else if s[0] == '\"' then Lex(s[1..], Some(if word.Some? then word.value else ""), Double)
        else if s[0] == '\'' then Lex(s[1..], Some(if word.Some? then word.value else ""), Single)
        else if s[0] == '\\' then (if |s| < 2 then None else Lex(s[2..], Grow(word, s[1]), Plain))
        else Lex(s[1..], Grow(word, s[0]), Plain)
  }

  function Prefix(ws: seq<string>, r: Option<seq<string>>): Option<seq<string>> {
    if r.None? then None else Some(ws + r.value)
  }

  function Tokens(line: string): Option<seq<string>> { Lex(line, None, Plain) }

  // ----- quoting round-trips -----

  lemma EscapedCharRead(c: char, rest: string, w: string)
    ensures Lex(EscapeChar(c) + rest, Some(w), Double) == Lex(rest, Some(w + [c]), Double)
  {
    var s := EscapeChar(c) + rest;
    if c == '\\' || c == '\"' { assert s[2..] == rest; } else { assert s[1..] == rest; }
  }

  /** Inside double quotes the escaped text stands for the original, and nothing in it ends the quotes. */
  lemma {:induction false} EscapedRead(v: string, rest: string, w: string)
    ensures Lex(Escape(v) + rest, Some(w), Double) == Lex(rest, Some(w + v), Double)
    decreases |v|
  {
    if v == "" {
      assert Escape(v) + rest == rest && w + v == w;
    } else {
      assert v == [v[0]] + v[1..];
      EscapeStep(v[0], v[1..]);
      assert Escape(v) + rest == EscapeChar(v[0]) + (Escape(v[1..]) + rest);
      EscapedCharRead(v[0], Escape(v[1..]) + rest, w);
      EscapedRead(v[1..], rest, w + [v[0]]);
      assert w + [v[0]] + v[1..] == w + v;
    }
  }

  /** A quoted value following a prefix reads as the prefix and the original value, in one word. */
  lemma QuotedRead(v: string, rest: string, w: string)
    ensures Lex(InvQuote(v) + rest, Some(w), Plain) == Lex(rest, Some(w + v), Plain)
  {
    var s := InvQuote(v) + rest;
    assert s[1..] == Escape(v) + ("\"" + rest);
    EscapedRead(v, "\"" + rest, w);
    assert ("\"" + rest)[1..] == rest;
  }

  /** For every string, quoting and reading back gives one word: the string itself. */
  lemma QuoteRoundTrip(v: string)
    ensures Tokens(InvQuote(v)) == Some([v])
  {
    var s := InvQuote(v);
    assert s[1..] == Escape(v) + "\"";
    EscapedRead(v, "\"", "");
    assert "\""[1..] == "" && "" + v == v;
  }

  // ----- a host's line -----

  /** One word of the line: plain text, or a plain key with a quoted value. */
  datatype Field = Bare(text: string) | Keyed(key: string, value: string)

  predicate PlainChar(c: char) { !Blank(c) && !IsLineEnd(c) && c != '#' && c != '\"' && c != '\'' && c != '\\' }
  predicate PlainText(s: string) { s != "" && forall c :: c in s ==> PlainChar(c) }

  predicate Sound(f: Field) { if f.Bare? then PlainText(f.text) else PlainText(f.key) }

  function Written(f: Field): string { if f.Bare? then f.text else f.key + InvQuote(f.value) }
  function Meant(f: Field): string { if f.Bare? then f.text else f.key + f.value }

  function WrittenAll(fs: seq<Field>): seq<string> {
    if fs == [] then [] else [Written(fs[0])] + WrittenAll(fs[1..])
  }

  function MeantAll(fs: seq<Field>): seq<string> {
    if fs == [] then [] else [Meant(fs[0])] + MeantAll(fs[1..])
  }

  lemma {:induction false} PlainRead(t: string, rest: string, w: string)
    requires forall c :: c in t ==> PlainChar(c)
    ensures Lex(t + rest, Some(w), Plain) == Lex(rest, Some(w + t), Plain)
    decreases |t|
  {
    if t == "" {
      assert t + rest == rest && w + t == w;
    } else {
      assert t[0] in t && (t + rest)[1..] == t[1..] + rest;
      PlainRead(t[1..], rest, w + [t[0]]);
      assert w + [t[0]] + t[1..] == w + t;
    }
  }

  lemma PlainStart(t: string, rest: string)
    requires PlainText(t)
    ensures Lex(t + rest, None, Plain) == Lex(rest, Some(t), Plain)
  {
    assert t[0] in t && (t + rest)[1..] == t[1..] + rest;
    PlainRead(t[1..], rest, [t[0]]);
    assert [t[0]] + t[1..] == t && "" + [t[0]] == [t[0]];
  }

  lemma FieldRead(f: Field, rest: string)
    requires Sound(f)
    ensures Lex(Written(f) + rest, None, Plain) == Lex(rest, Some(Meant(f)), Plain)
  {
    if f.Bare? {
      PlainStart(f.text, rest);
    } else {
      assert Written(f) + rest == f.key + (InvQuote(f.value) + rest);
      PlainStart(f.key, InvQuote(f.value) + rest);
      QuotedRead(f.value, rest, f.key);
    }
  }

  lemma OneField(f: Field)
    ensures WrittenAll([f]) == [Written(f)] && MeantAll([f]) == [Meant(f)]
  {
    assert [f][1..] == [];
    assert WrittenAll([]) == [] && MeantAll([]) == [];
  }

  /** A line of fields splits into exactly what its fields mean. */
  lemma {:induction false} LineReadsBack(fs: seq<Field>)
    requires fs != [] && forall f :: f in fs ==> Sound(f)
    ensures Tokens(Join(WrittenAll(fs), ' ')) == Some(MeantAll(fs))
    decreases |fs|
  {
    var f := fs[0];
    assert f in fs;
    if |fs| == 1 {
      assert fs == [f];
      OneField(f);
      assert Written(f) + "" == Written(f);
      FieldRead(f, "");
    } else {
      LineReadsBack(fs[1..]);
      var rest := Join(WrittenAll(fs[1..]), ' ');
      assert Join(WrittenAll(fs), ' ') == Written(f) + (" " + rest) by {
        assert WrittenAll(fs)[1..] == WrittenAll(fs[1..]) && |WrittenAll(fs)| > 1;
        assert Written(f) + [' '] + rest == Written(f) + (" " + rest);
      }
      FieldRead(f, " " + rest);
      assert (" " + rest)[1..] == rest;
    }
  }

  // ----- what the line says -----

  const FIRST_API_PORT: nat := 18728

  function ApiLocalPort(i: nat): nat { FIRST_API_PORT + i }

  function BaseFields(h: Host): seq<Field> {
    [Bare(h.name), Bare("ansible_host=" + h.address), Bare("ansible_port=" + Decimal(h.port)), Bare("ansible_user=" + h.user)]
  }

  function PasswordField(h: Host): seq<Field> {
    if h.auth == VAULT_PASSWORD && h.password != "" then [Keyed("ansible_password=", h.password)] else []
  }

  /** For connections that do not read the ssh_config. */
  function KeyField(h: Host, paths: map<string, string>): seq<Field> {
    if h.auth == VAULT_KEY && h.address in paths then [Bare("ansible_ssh_private_key_file=" + paths[h.address])] else []
  }

  function ApiFields(i: nat, h: Host): seq<Field> {
    if h.apiTunnel then [Bare("fleet_api_host=127.0.0.1"), Bare("fleet_api_port=" + Decimal(ApiLocalPort(i)))] else []
  }

  /** Vaulted hosts are typically appliances without sudo. */
  function BecomeField(h: Host, become: bool): seq<Field> {
    if !become then []
    else if h.auth == "" || h.auth == "fleet_cert" then [Bare("ansible_become=true")]
    else [Bare("ansible_become=false")]
  }

  function Fields(i: nat, h: Host, paths: map<string, string>, become: bool): seq<Field> {
    BaseFields(h) + PasswordField(h) + KeyField(h, paths) + ApiFields(i, h) + BecomeField(h, become)
  }

  function Line(fs: seq<Field>): string { Join(WrittenAll(fs), ' ') }

  lemma {:induction false} JoinSnoc(ws: seq<string>, w: string)
    requires ws != []
    ensures Join(ws + [w], ' ') == Join(ws, ' ') + " " + w
    decreases |ws|
  {
    if |ws| == 1 {
      assert (ws + [w])[1..] == [w];
    } else {
      assert (ws + [w])[1..] == ws[1..] + [w];
      JoinSnoc(ws[1..], w);
      assert ws[0] + [' '] + (Join(ws[1..], ' ') + " " + w) == (ws[0] + [' '] + Join(ws[1..], ' ')) + " " + w;
    }
  }

  lemma {:induction false} WrittenSnoc(fs: seq<Field>, f: Field)
    ensures WrittenAll(fs + [f]) == WrittenAll(fs) + [Written(f)]
    decreases |fs|
  {
    if fs != [] {
      assert (fs + [f])[1..] == fs[1..] + [f];
      WrittenSnoc(fs[1..], f);
    }
  }

  lemma AddField(fs: seq<Field>, f: Field)
    requires fs != []
    ensures Line(fs + [f]) == Line(fs) + " " + Written(f)
  {
    WrittenSnoc(fs, f);
    assert WrittenAll(fs) != [];
    JoinSnoc(WrittenAll(fs), Written(f));
  }

  /** Appends fields to a line, one after the other. */
  method Extend(entry: string, ghost fs: seq<Field>, more: seq<Field>) returns (out: string)
    requires fs != [] && entry == Line(fs)
    ensures out == Line(fs + more)
  {
    out := entry;
    assert fs + more[..0] == fs;
    for n := 0 to |more|
      invariant out == Line(fs + more[..n])
    {
      AddField(fs + more[..n], more[n]);
      out := out + " " + Written(more[n]);
      assert fs + more[..n + 1] == fs + more[..n] + [more[n]];
    }
    assert more[..|more|] == more;
  }

  method BuildEntry(i: nat, h: Host, paths: map<string, string>, become: bool) returns (entry: string)
    ensures entry == Line(Fields(i, h, paths, become))
  {
    ghost var fs := BaseFields(h);
    entry := Line(BaseFields(h));
    entry := Extend(entry, fs, PasswordField(h));
    fs := fs + PasswordField(h);
    entry := Extend(entry, fs, KeyField(h, paths));
    fs := fs + KeyField(h, paths);
    entry := Extend(entry, fs, ApiFields(i, h));
    fs := fs + ApiFields(i, h);
    entry := Extend(entry, fs, BecomeField(h, become));
  }

  // ----- the whole inventory -----

  function Entries(hosts: seq<Host>, paths: map<string, string>, become: bool): seq<string> {
    seq(|hosts|, i requires 0 <= i < |hosts| => Line(Fields(i, hosts[i], paths, become)))
  }

  function Vars(cfg: string, become: bool): seq<string> {
    ["", "[all:vars]", "ansible_ssh_common_args=-F " + cfg,
     "ansible_paramiko_proxy_command=ssh -F " + cfg + " -W %h:%p " + JUMP]
    + (if become then ["ansible_become_method=sudo"] else [])
  }

  function InventoryLines(hosts: seq<Host>, cfg: string, paths: map<string, string>, become: bool): seq<string> {
    ["[all]"] + Entries(hosts, paths, become) + Vars(cfg, become)
  }

  method BuildInventory(hosts: seq<Host>, cfg: string, paths: map<string, string>, become: bool) returns (text: string)
    ensures text == Join(InventoryLines(hosts, cfg, paths, become), '\n') + "\n"
  {
    var lines := ["[all]"];
    ghost var es := Entries(hosts, paths, become);
    for n := 0 to |hosts|
      invariant lines == ["[all]"] + es[..n]
    {
      var entry := BuildEntry(n, hosts[n], paths, become);
      assert entry == es[n] && es[..n + 1] == es[..n] + [es[n]];
      lines := lines + [entry];
    }
    assert es[..|hosts|] == es;
    lines := lines + Vars(cfg, become);
    return Join(lines, '\n') + "\n";
  }

  // ----- what Ansible gets -----

  /** Names, addresses and users on the allowlist, plain paths. */
  predicate PlainHost(h: Host, paths: map<string, string>) {
    PlainText(h.name) && PlainText(h.address) && PlainText(h.user) && (h.address in paths ==> PlainText(paths[h.address]))
  }

  lemma PlainConcat(k: string, v: string)
    requires PlainText(k) && forall c :: c in v ==> PlainChar(c)
    ensures PlainText(k + v)
  {
  }

  lemma PlainKey(k: string)
    requires k != "" && forall i :: 0 <= i < |k| ==> PlainChar(k[i])
    ensures PlainText(k)
  {
  }

  lemma BaseKeysPlain()
    ensures PlainText("ansible_host=") && PlainText("ansible_port=") && PlainText("ansible_user=") && PlainText("ansible_password=")
  {
    PlainKey("ansible_host="); PlainKey("ansible_port="); PlainKey("ansible_user="); PlainKey("ansible_password=");
  }

  lemma ExtraKeysPlain()
    ensures PlainText("ansible_ssh_private_key_file=") && PlainText("fleet_api_host=127.0.0.1") && PlainText("fleet_api_port=")
    ensures PlainText("ansible_become=true") && PlainText("ansible_become=false")
  {
    PlainKey("ansible_ssh_private_key_file="); PlainKey("fleet_api_host=127.0.0.1"); PlainKey("fleet_api_port=");
    PlainKey("ansible_become=true"); PlainKey("ansible_become=false");
  }

  predicate AllSound(fs: seq<Field>) { forall i :: 0 <= i < |fs| ==> Sound(fs[i]) }

  lemma BaseSound(h: Host, paths: map<string, string>)
    requires PlainHost(h, paths)
    ensures AllSound(BaseFields(h))
  {
    BaseKeysPlain();
    PlainConcat("ansible_host=", h.address);
    PlainConcat("ansible_port=", Decimal(h.port));
    PlainConcat("ansible_user=", h.user);
  }

  lemma ExtrasSound(i: nat, h: Host, paths: map<string, string>, become: bool)
    requires PlainHost(h, paths)
    ensures AllSound(PasswordField(h)) && AllSound(KeyField(h, paths)) && AllSound(ApiFields(i, h))
            && AllSound(BecomeField(h, become))
  {
    BaseKeysPlain();
    ExtraKeysPlain();
    if h.address in paths { PlainConcat("ansible_ssh_private_key_file=", paths[h.address]); }
    PlainConcat("fleet_api_port=", Decimal(ApiLocalPort(i)));
  }

  /** A host's entry, split into shell words, gives the host's values as they are: the password too,
      whatever characters it has, as long as the entry is still one line. */
  lemma EntryReadsBack(i: nat, h: Host, paths: map<string, string>, become: bool)
    requires PlainHost(h, paths)
    ensures Tokens(Line(Fields(i, h, paths, become))) == Some(MeantAll(Fields(i, h, paths, become)))
  {
    BaseSound(h, paths);
    ExtrasSound(i, h, paths, become);
    var fs := Fields(i, h, paths, become);
    forall f | f in fs ensures Sound(f) { }
    LineReadsBack(fs);
  }
}
