/** The per-host private keys a run writes out, and the promise that ssh uses each for its own host. */
module VaultKeys {
  import opened Text
  import opened SshConfig
  import opened SshMeaning
  import opened SshResolution

  function KeyPath(dir: string, i: nat): string { dir + "/key_" + Decimal(i) }

  lemma KeyPathInjective(dir: string, i: nat, j: nat)
    requires KeyPath(dir, i) == KeyPath(dir, j)
    ensures i == j
  {
    var p := dir + "/key_";
    assert KeyPath(dir, i)[|p|..] == Decimal(i) && KeyPath(dir, j)[|p|..] == Decimal(j);
    DecimalInjective(i, j);
  }

  /** The key with a line feed at its end, which it gets only if it has none. */
  function EndLine(key: string): (text: string)
    ensures text != "" && text[|text| - 1] == '\n' && (text == key || text == key + "\n")
    ensures key != "" && key[|key| - 1] == '\n' ==> text == key
  {
    if key != "" && key[|key| - 1] == '\n' then key else key + "\n"
  }

  predicate Stored(h: Host) { h.auth == VAULT_KEY && h.key != "" }

  /** Host `i`'s key is in its own file, under its own address. */
  predicate KeyInPlace(dir: string, paths: map<string, string>, files: map<string, string>, hosts: seq<Host>, i: nat)
    requires i < |hosts|
  {
    && hosts[i].address in paths && paths[hosts[i].address] == KeyPath(dir, i)
    && KeyPath(dir, i) in files && files[KeyPath(dir, i)] == EndLine(hosts[i].key)
  }

  /** Writes one file per key host that has a key, and the address-to-file map the generators use. */
  method WriteVaultKeys(hosts: seq<Host>, dir: string) returns (paths: map<string, string>, files: map<string, string>)
    ensures VaultsApart(hosts) ==> forall i :: 0 <= i < |hosts| && Stored(hosts[i]) ==> KeyInPlace(dir, paths, files, hosts, i)
    ensures forall a :: a in paths ==> exists i :: 0 <= i < |hosts| && Stored(hosts[i]) && hosts[i].address == a
                                                   && paths[a] == KeyPath(dir, i)
  {
    paths, files := map[], map[];
    for n := 0 to |hosts|
      invariant VaultsApart(hosts) ==> forall i :: 0 <= i < n && Stored(hosts[i]) ==> KeyInPlace(dir, paths, files, hosts, i)
      invariant forall a :: a in paths ==> exists i :: 0 <= i < n && Stored(hosts[i]) && hosts[i].address == a
                                                       && paths[a] == KeyPath(dir, i)
    {
      if hosts[n].auth == VAULT_KEY && hosts[n].key != "" {
        var p := KeyPath(dir, n);
        forall i | 0 <= i < n && KeyPath(dir, i) == p ensures false { KeyPathInjective(dir, i, n); }
        paths, files := paths[hosts[n].address := p], files[p := EndLine(hosts[n].key)];
      }
    }
  }

  /** Given a key for every key host, the config exists, and a key host's connection offers exactly one
      identity: a file holding that host's own key. */
  lemma KeyHostOffersOwnKey(j: Jump, hosts: seq<Host>, f: Files, files: map<string, string>, dir: string, i: nat)
    requires Proper(j, hosts, f) && i < |hosts| && Stored(hosts[i])
    requires forall k :: 0 <= k < |hosts| && Stored(hosts[k]) ==> KeyInPlace(dir, f.vaultKeys, files, hosts, k)
    ensures var m := MeaningOf(Parse(ConfigText(j, hosts, f)), hosts[i].address);
            |m.identities| == 1 && m.only && m.pubkey && m.identities[0] in files
            && files[m.identities[0]] == EndLine(hosts[i].key)
  {
    TargetMeans(j, hosts, f, i);
    assert KeyInPlace(dir, f.vaultKeys, files, hosts, i);
  }
}
