/** The allowlists for what a run request may name, and what the patterns that check them really admit. */
module Allowlist {
  import opened Wrappers
  import opened Text

  predicate HostnameChar(c: char) {
    'A' <= c <= 'Z' || 'a' <= c <= 'z' || '0' <= c <= '9' || c == '.' || c == '_' || c == '-'
  }

  predicate AddressChar(c: char) { HostnameChar(c) || c == ':' }

  predicate Allowed(a: string) { a != "" && forall c :: c in a ==> AddressChar(c) }

  predicate EndsInLineFeed(s: string) { s != "" && s[|s| - 1] == '\n' }

  /** The text without one final line feed. */
  function Chop(s: string): string { if EndsInLineFeed(s) then s[..|s| - 1] else s }

  /** `^[class]+$` as Python's re.match takes it: `$` also matches before one final line feed. */
  predicate MatchesAll(s: string, allowed: char -> bool) {
    Chop(s) != "" && forall c :: c in Chop(s) ==> allowed(c)
  }

  predicate NameOk(s: string) { MatchesAll(s, HostnameChar) }
  predicate AddressOk(s: string) { MatchesAll(s, AddressChar) }
  predicate PortOk(p: int) { 0 < p < 65536 }

  /** The address pattern keeps to the allowlist exactly for texts that do not end in a line feed. */
  lemma AddressOkIff(s: string)
    ensures Allowed(s) <==> AddressOk(s) && !EndsInLineFeed(s)
    ensures AddressOk(s) ==> Allowed(Chop(s))
  {
    if s != "" { assert s[|s| - 1] in s; }
  }

  /** One final line feed gets past the pattern. */
  lemma FinalLineFeedPasses()
    ensures AddressOk("db1\n") && !Allowed("db1\n") && NameOk("db1\n")
  {
    var s := "db1\n";
    assert s[..3] == "db1";
    assert s[3] in s;
  }
}
