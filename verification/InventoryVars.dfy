/** Which variables the inventory gives a host, and which it gives all of them: what is assigned on the lines of
    the generated file. */
module InventoryVars {
  import opened Wrappers
  import opened Text
  import opened SshConfig
  import opened Inventory
  import opened InventoryFile

  /** A word assigns what comes after its first equals sign to what comes before it; a later word wins. */
  function VarsOf(words: seq<string>): map<string, string> {
    if words == [] then map[] else
    var w, vars := words[|words| - 1], VarsOf(words[..|words| - 1]);
    var i := IndexOf(w, '=');
    if i < |w| then vars[w[..i] := w[i + 1..]] else vars
  }

  function When(c: bool, k: string, v: string): map<string, string> { if c then map[k := v] else map[] }

  predicate Managed(h: Host) { h.auth == "" || h.auth == "fleet_cert" }

  /** Every host has its address, port and user.  A password host has its password, a key host the path of its
      key, a tunnelled host its own local port.  Only managed hosts use sudo, and only when the run does. */
  function HostVars(i: nat, h: Host, paths: map<string, string>, become: bool): map<string, string> {
    map["ansible_host" := h.address] + map["ansible_port" := Decimal(h.port)] + map["ansible_user" := h.user]
    + When(h.auth == "vault_password" && h.password != "", "ansible_password", h.password)
    + (if h.auth == "vault_ssh_key" && h.address in paths
       then map["ansible_ssh_private_key_file" := paths[h.address]] else map[])
    + When(h.apiTunnel, "fleet_api_host", "127.0.0.1") + When(h.apiTunnel, "fleet_api_port", Decimal(18728 + i))
    + When(become, "ansible_become", if Managed(h) then "true" else "false")
  }

  /** Every connection reads the run's ssh_config. */
  function GroupVars(cfg: string, become: bool): map<string, string> {
    map["ansible_ssh_common_args" := "-F " + cfg]
    + map["ansible_paramiko_proxy_command" := "ssh -F " + cfg + " -W %h:%p fleet-jump"]
    + When(become, "ansible_become_method", "sudo")
  }

  // ----- reading assignments -----

  lemma {:induction false} VarsAppend(a: seq<string>, b: seq<string>)
    ensures VarsOf(a + b) == VarsOf(a) + VarsOf(b)
    decreases |b|
  {
    if b == [] { assert a + b == a; } else {
      assert (a + b)[..|a + b| - 1] == a + b[..|b| - 1];
      VarsAppend(a, b[..|b| - 1]);
    }
  }

  lemma Assigns(k: string, v: string)
    requires '=' !in k
    ensures VarsOf([k + "=" + v]) == map[k := v]
  {
    var w := k + "=" + v;
    assert w[..|k|] == k && w[|k| + 1..] == v;
    IndexOfUnique(w, '=', |k|);
    assert [w][..0] == [] && VarsOf([]) == map[];
  }

  lemma NoEquals(k: string)
    requires forall i :: 0 <= i < |k| ==> k[i] != '='
    ensures '=' !in k
  {
  }

  /** What one field assigns. */
  lemma FieldAssigns(f: Field, k: string, v: string)
    requires '=' !in k && Meant(f) == k + "=" + v
    ensures VarsOf(MeantAll([f])) == map[k := v]
  {
    OneField(f);
    Assigns(k, v);
  }

  lemma FieldsAssign(a: seq<Field>, b: seq<Field>)
    ensures VarsOf(MeantAll(a + b)) == VarsOf(MeantAll(a)) + VarsOf(MeantAll(b))
  {
    MeantAppend(a, b);
    VarsAppend(MeantAll(a), MeantAll(b));
  }

  // ----- a host's variables -----

  /** What a field with a plain value assigns; `word` is its key with the equals sign. */
  lemma BareAssigns(k: string, word: string, v: string)
    requires k + "=" == word && forall i :: 0 <= i < |k| ==> k[i] != '='
    ensures VarsOf(MeantAll([Bare(word + v)])) == map[k := v]
  {
    NoEquals(k);
    FieldAssigns(Bare(word + v), k, v);
  }

  lemma ThreeAssign(a: seq<Field>, b: seq<Field>, c: seq<Field>)
    ensures VarsOf(MeantAll(a + b + c)) == VarsOf(MeantAll(a)) + VarsOf(MeantAll(b)) + VarsOf(MeantAll(c))
  {
    FieldsAssign(a, b);
    FieldsAssign(a + b, c);
  }

  lemma FiveAssign(a: seq<Field>, b: seq<Field>, c: seq<Field>, d: seq<Field>, e: seq<Field>)
    ensures VarsOf(MeantAll(a + b + c + d + e))
            == VarsOf(MeantAll(a)) + VarsOf(MeantAll(b)) + VarsOf(MeantAll(c)) + VarsOf(MeantAll(d)) + VarsOf(MeantAll(e))
  {
    ThreeAssign(a, b, c);
    FieldsAssign(a + b + c, d);
    FieldsAssign(a + b + c + d, e);
  }

  lemma AddressAssigns(v: string)
    ensures VarsOf(MeantAll([Bare("ansible_host=" + v)])) == map["ansible_host" := v]
  {
    BareAssigns("ansible_host", "ansible_host=", v);
  }

  lemma PortAssigns(v: string)
    ensures VarsOf(MeantAll([Bare("ansible_port=" + v)])) == map["ansible_port" := v]
  {
    BareAssigns("ansible_port", "ansible_port=", v);
  }

  lemma UserAssigns(v: string)
    ensures VarsOf(MeantAll([Bare("ansible_user=" + v)])) == map["ansible_user" := v]
  {
    BareAssigns("ansible_user", "ansible_user=", v);
  }

  lemma TailOfFour(x: Field, a: Field, b: Field, c: Field)
    ensures [x, a, b, c][1..] == [a] + [b] + [c]
  {
  }

  lemma BaseAssigns(h: Host)
    ensures VarsOf(MeantAll(BaseFields(h)[1..]))
            == map["ansible_host" := h.address] + map["ansible_port" := Decimal(h.port)] + map["ansible_user" := h.user]
  {
    var a, p, u := Bare("ansible_host=" + h.address), Bare("ansible_port=" + Decimal(h.port)), Bare("ansible_user=" + h.user);
    TailOfFour(Bare(h.name), a, p, u);
    ThreeAssign([a], [p], [u]);
    AddressAssigns(h.address);
    PortAssigns(Decimal(h.port));
    UserAssigns(h.user);
  }

  lemma NoFields()
    ensures VarsOf(MeantAll([])) == map[]
  {
  }

  lemma PasswordAssigns(h: Host)
    ensures VarsOf(MeantAll(PasswordField(h)))
            == When(h.auth == "vault_password" && h.password != "", "ansible_password", h.password)
  {
    NoFields();
    NoEquals("ansible_password");
    assert "ansible_password" + "=" == "ansible_password=";
    FieldAssigns(Keyed("ansible_password=", h.password), "ansible_password", h.password);
  }

  lemma KeyAssigns(h: Host, paths: map<string, string>)
    ensures VarsOf(MeantAll(KeyField(h, paths)))
            == if h.auth == "vault_ssh_key" && h.address in paths
               then map["ansible_ssh_private_key_file" := paths[h.address]] else map[]
  {
    NoFields();
    NoEquals("ansible_ssh_private_key_file");
    assert "ansible_ssh_private_key_file" + "=" == "ansible_ssh_private_key_file=";
    if h.address in paths {
      FieldAssigns(Bare("ansible_ssh_private_key_file=" + paths[h.address]), "ansible_ssh_private_key_file", paths[h.address]);
    }
  }

  lemma ApiHostAssigns()
    ensures VarsOf(MeantAll([Bare("fleet_api_host=127.0.0.1")])) == map["fleet_api_host" := "127.0.0.1"]
  {
    BareAssigns("fleet_api_host", "fleet_api_host=", "127.0.0.1");
    assert "fleet_api_host=" + "127.0.0.1" == "fleet_api_host=127.0.0.1";
  }

  lemma ApiPortAssigns(v: string)
    ensures VarsOf(MeantAll([Bare("fleet_api_port=" + v)])) == map["fleet_api_port" := v]
  {
    BareAssigns("fleet_api_port", "fleet_api_port=", v);
  }

  lemma ApiAssigns(i: nat, h: Host)
    ensures VarsOf(MeantAll(ApiFields(i, h)))
            == When(h.apiTunnel, "fleet_api_host", "127.0.0.1") + When(h.apiTunnel, "fleet_api_port", Decimal(18728 + i))
  {
    NoFields();
    var a, b := Bare("fleet_api_host=127.0.0.1"), Bare("fleet_api_port=" + Decimal(18728 + i));
    ApiHostAssigns();
    ApiPortAssigns(Decimal(18728 + i));
    FieldsAssign([a], [b]);
    assert [a] + [b] == [a, b];
  }

  lemma BecomeAssigns(h: Host, become: bool)
    ensures VarsOf(MeantAll(BecomeField(h, become))) == When(become, "ansible_become", if Managed(h) then "true" else "false")
  {
    NoFields();
    NoEquals("ansible_become");
    assert "ansible_become" + "=" + "true" == "ansible_become=true" && "ansible_become" + "=" + "false" == "ansible_become=false";
    FieldAssigns(Bare("ansible_become=true"), "ansible_become", "true");
    FieldAssigns(Bare("ansible_become=false"), "ansible_become", "false");
  }

  lemma TailOfSum(x: seq<Field>, a: seq<Field>, b: seq<Field>, c: seq<Field>, d: seq<Field>)
    requires x != []
    ensures (x + a + b + c + d)[1..] == x[1..] + a + b + c + d && (x + a + b + c + d)[0] == x[0]
  {
  }

  /** An entry names the host and assigns exactly its variables. */
  lemma EntryAssigns(i: nat, h: Host, paths: map<string, string>, become: bool)
    ensures var words := MeantAll(Fields(i, h, paths, become));
            words != [] && words[0] == h.name && VarsOf(words[1..]) == HostVars(i, h, paths, become)
  {
    TailOfSum(BaseFields(h), PasswordField(h), KeyField(h, paths), ApiFields(i, h), BecomeField(h, become));
    FiveAssign(BaseFields(h)[1..], PasswordField(h), KeyField(h, paths), ApiFields(i, h), BecomeField(h, become));
    BaseAssigns(h);
    PasswordAssigns(h);
    KeyAssigns(h, paths);
    ApiAssigns(i, h);
    BecomeAssigns(h, become);
    PlusThree(VarsOf(MeantAll(BaseFields(h)[1..])), VarsOf(MeantAll(PasswordField(h))), VarsOf(MeantAll(KeyField(h, paths))),
              When(h.apiTunnel, "fleet_api_host", "127.0.0.1"), When(h.apiTunnel, "fleet_api_port", Decimal(18728 + i)));
  }

  lemma PlusThree(a: map<string, string>, b: map<string, string>, c: map<string, string>, x: map<string, string>,
                  y: map<string, string>)
    ensures a + b + c + (x + y) == a + b + c + x + y
  {
  }

  /** Host i's line of the file names that host and gives it exactly its variables. */
  lemma HostGets(hosts: seq<Host>, cfg: string, paths: map<string, string>, become: bool, i: nat)
    requires i < |hosts| && WholeUpTo(hosts, paths, i + 1)
    ensures var lines := SplitLines(File(hosts, cfg, paths, become));
            i + 1 < |lines| && Tokens(lines[i + 1]).Some? && Tokens(lines[i + 1]).value != []
    ensures var words := Tokens(SplitLines(File(hosts, cfg, paths, become))[i + 1]).value;
            words[0] == hosts[i].name && VarsOf(words[1..]) == HostVars(i, hosts[i], paths, become)
  {
    HostReadsBack(hosts, cfg, paths, become, i);
    EntryAssigns(i, hosts[i], paths, become);
  }

  // ----- everybody's variables -----

  lemma SudoLine()
    ensures VarsOf(["ansible_become_method=sudo"]) == map["ansible_become_method" := "sudo"]
  {
    NoEquals("ansible_become_method");
    assert "ansible_become_method" + "=" + "sudo" == "ansible_become_method=sudo";
    Assigns("ansible_become_method", "sudo");
  }

  lemma TailOfVars(x: string, y: string, a: string, p: string, more: seq<string>)
    ensures ([x, y, a, p] + more)[2..] == [a] + [p] + more
  {
  }

  lemma VarLines(cfg: string, become: bool)
    ensures VarsOf(Vars(cfg, become)[2..]) == GroupVars(cfg, become)
  {
    var a, p, b := "ansible_ssh_common_args=-F " + cfg, ProxyLine(cfg), "ansible_become_method=sudo";
    var more := if become then [b] else [];
    CommonArgs(cfg);
    ProxyCommand(cfg);
    SudoLine();
    VarsAppend([a], [p]);
    VarsAppend([a] + [p], more);
    TailOfVars("", "[all:vars]", a, p, more);
  }

  function ProxyLine(cfg: string): string { "ansible_paramiko_proxy_command=ssh -F " + cfg + " -W %h:%p " + JUMP }

  lemma CommonArgs(cfg: string)
    ensures VarsOf(["ansible_ssh_common_args=-F " + cfg]) == map["ansible_ssh_common_args" := "-F " + cfg]
  {
    NoEquals("ansible_ssh_common_args");
    assert "ansible_ssh_common_args" + "=" + "-F " == "ansible_ssh_common_args=-F ";
    assert "ansible_ssh_common_args=-F " + cfg == "ansible_ssh_common_args" + "=" + ("-F " + cfg);
    Assigns("ansible_ssh_common_args", "-F " + cfg);
  }

  lemma ProxyCommand(cfg: string)
    ensures VarsOf([ProxyLine(cfg)])
            == map["ansible_paramiko_proxy_command" := "ssh -F " + cfg + " -W %h:%p fleet-jump"]
  {
    var k, v := "ansible_paramiko_proxy_command", "ssh -F " + cfg + " -W %h:%p fleet-jump";
    NoEquals(k);
    assert k + "=" + "ssh -F " == "ansible_paramiko_proxy_command=ssh -F ";
    assert " -W %h:%p " + JUMP == " -W %h:%p fleet-jump";
    assert ProxyLine(cfg) == k + "=" + v;
    Assigns(k, v);
  }

  /** After the hosts, the file gives all of them the variables of the run. */
  lemma AllGet(hosts: seq<Host>, cfg: string, paths: map<string, string>, become: bool)
    requires WholeUpTo(hosts, paths, |hosts|) && NoEnds(cfg)
    ensures var lines := SplitLines(File(hosts, cfg, paths, become));
            |lines| >= |hosts| + 3 && lines[0] == "[all]" && lines[|hosts| + 1..|hosts| + 3] == ["", "[all:vars]"]
            && VarsOf(lines[|hosts| + 3..]) == GroupVars(cfg, become)
  {
    FileReadsBack(hosts, cfg, paths, become);
    var lines, vars := InventoryLines(hosts, cfg, paths, become), Vars(cfg, become);
    assert lines[|hosts| + 1..] == vars && lines[|hosts| + 3..] == vars[2..];
    assert lines[|hosts| + 1..|hosts| + 3] == vars[..2];
    VarLines(cfg, become);
  }
}
