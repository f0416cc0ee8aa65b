/** Attribute-based access control: contextual rules that can only deny. */
module AccessPolicy {

  const DAY: int := 1440

  /** A compiled rule; empty match lists are wildcards. */
  datatype Rule = Rule(id: string, name: string, environments: seq<string>, tags: seq<string>, protocols: seq<string>,
                       exemptRoles: seq<string>, days: seq<nat>, start: nat, end: nat, denyMessage: string)

  datatype Subject = Subject(roles: seq<string>, isSuper: bool)
  datatype Host = Host(environment: string, tags: seq<string>, protocol: string)
  datatype Moment = Moment(weekday: nat, minute: nat)
  datatype Decision = Allow | Deny(ruleId: string, ruleName: string, reason: string)

  /** Case folding, by which environments, protocols and tags are compared. */
  type Fold = string -> string

  // ----- what a rule means -----

  predicate InWindow(start: nat, end: nat, m: nat) {
    if start == end then true
    else if start < end then start <= m < end
    else m >= start || m < end
  }

  predicate TimeActive(r: Rule, now: Moment) {
    (r.days == [] || now.weekday in r.days) && InWindow(r.start, r.end, now.minute)
  }

  predicate ContainsFold(fold: Fold, xs: seq<string>, v: string) { exists x :: x in xs && fold(x) == fold(v) }

  predicate Overlap(a: seq<string>, b: seq<string>) { exists x :: x in a && x in b }

  predicate OverlapFold(fold: Fold, a: seq<string>, b: seq<string>) { exists x :: x in a && ContainsFold(fold, b, x) }

  predicate Matches(fold: Fold, r: Rule, s: Subject, h: Host, now: Moment) {
    && !Overlap(s.roles, r.exemptRoles)
    && (r.environments == [] || ContainsFold(fold, r.environments, h.environment))
    && (r.protocols == [] || ContainsFold(fold, r.protocols, h.protocol))
    && (r.tags == [] || OverlapFold(fold, h.tags, r.tags))
    && TimeActive(r, now)
  }

  predicate Denied(fold: Fold, rules: seq<Rule>, s: Subject, h: Host, now: Moment) {
    !s.isSuper && exists r :: r in rules && Matches(fold, r, s, h, now)
  }

  // ----- the engine: searches with early return -----

  method AnyOverlap(a: seq<string>, b: seq<string>) returns (found: bool)
    ensures found <==> Overlap(a, b)
  {
    for i := 0 to |a|
      invariant !Overlap(a[..i], b)
    {
      for j := 0 to |b|
        invariant a[i] !in b[..j]
      {
        if a[i] == b[j] { assert a[i] in a && a[i] in b; return true; }
      }
      assert b[..|b|] == b && a[..i + 1] == a[..i] + [a[i]];
    }
    assert a[..|a|] == a;
    return false;
  }

  method FindFold(fold: Fold, xs: seq<string>, v: string) returns (found: bool)
    ensures found <==> ContainsFold(fold, xs, v)
  {
    for i := 0 to |xs|
      invariant !ContainsFold(fold, xs[..i], v)
    {
      if fold(xs[i]) == fold(v) { return true; }
      assert xs[..i + 1] == xs[..i] + [xs[i]];
    }
    assert xs[..|xs|] == xs;
    return false;
  }

  method AnyOverlapFold(fold: Fold, a: seq<string>, b: seq<string>) returns (found: bool)
    ensures found <==> OverlapFold(fold, a, b)
  {
    for i := 0 to |a|
      invariant !OverlapFold(fold, a[..i], b)
    {
      found := FindFold(fold, b, a[i]);
      if found { return; }
      assert a[..i + 1] == a[..i] + [a[i]];
    }
    assert a[..|a|] == a;
    return false;
  }

  method CheckTime(r: Rule, now: Moment) returns (active: bool)
    ensures active <==> TimeActive(r, now)
  {
    if |r.days| > 0 {
      var found := false;
      for i := 0 to |r.days|
        invariant found <==> now.weekday in r.days[..i]
      {
        if r.days[i] == now.weekday { found := true; break; }
      }
      if !found { return false; }
    }
    if r.start == r.end { return true; }
    if r.start < r.end { return now.minute >= r.start && now.minute < r.end; }
    return now.minute >= r.start || now.minute < r.end;
  }

  method CheckRule(fold: Fold, r: Rule, s: Subject, h: Host, now: Moment) returns (matches: bool)
    ensures matches <==> Matches(fold, r, s, h, now)
  {
    var hit := AnyOverlap(s.roles, r.exemptRoles);
    if hit { return false; }
    if |r.environments| > 0 { hit := FindFold(fold, r.environments, h.environment); if !hit { return false; } }
    if |r.protocols| > 0 { hit := FindFold(fold, r.protocols, h.protocol); if !hit { return false; } }
    if |r.tags| > 0 { hit := AnyOverlapFold(fold, h.tags, r.tags); if !hit { return false; } }
    matches := CheckTime(r, now);
  }

  predicate FirstMatch(fold: Fold, rules: seq<Rule>, s: Subject, h: Host, now: Moment, i: nat) {
    && i < |rules| && Matches(fold, rules[i], s, h, now)
    && forall j :: 0 <= j < i ==> !Matches(fold, rules[j], s, h, now)
  }

  /** The denial names the rule and gives its message, or one made from its name. */
  predicate Names(d: Decision, r: Rule) {
    && d.Deny? && d.ruleId == r.id && d.ruleName == r.name
    && (r.denyMessage != "" ==> d.reason == r.denyMessage)
    && (r.denyMessage == "" ==> d.reason == "Access denied by policy: " + r.name)
  }

  /** The decision of the first matching rule; super administrators are never denied. */
  method Evaluate(fold: Fold, rules: seq<Rule>, s: Subject, h: Host, now: Moment) returns (d: Decision)
    ensures d.Deny? <==> Denied(fold, rules, s, h, now)
    ensures d.Deny? ==> exists i :: 0 <= i < |rules| && FirstMatch(fold, rules, s, h, now, i) && Names(d, rules[i])
  {
    if s.isSuper { return Allow; }
    for i := 0 to |rules|
      invariant forall j :: 0 <= j < i ==> !Matches(fold, rules[j], s, h, now)
    {
      var hit := CheckRule(fold, rules[i], s, h, now);
      if hit {
        var reason := rules[i].denyMessage;
        if reason == "" { reason := "Access denied by policy: " + rules[i].name; }
        assert FirstMatch(fold, rules, s, h, now, i);
        return Deny(rules[i].id, rules[i].name, reason);
      }
    }
    return Allow;
  }

  // ----- what stands between a rule and a match -----

  /** The rule says which hosts and times it is for, and this is not one of them; or it spares the subject. */
  predicate Spares(fold: Fold, r: Rule, s: Subject, h: Host, now: Moment) {
    || (exists role :: role in s.roles && role in r.exemptRoles)
    || (r.environments != [] && forall e :: e in r.environments ==> fold(e) != fold(h.environment))
    || (r.protocols != [] && forall p :: p in r.protocols ==> fold(p) != fold(h.protocol))
    || (r.tags != [] && forall t :: t in h.tags ==> forall u :: u in r.tags ==> fold(t) != fold(u))
    || (r.days != [] && now.weekday !in r.days)
    || !InWindow(r.start, r.end, now.minute)
  }

  /** A rule matches exactly when nothing in it spares the request. */
  lemma MatchesUnlessSpared(fold: Fold, r: Rule, s: Subject, h: Host, now: Moment)
    ensures Matches(fold, r, s, h, now) <==> !Spares(fold, r, s, h, now)
  {
    if OverlapFold(fold, h.tags, r.tags) {
      var t :| t in h.tags && ContainsFold(fold, r.tags, t);
      var u :| u in r.tags && fold(u) == fold(t);
      assert r.tags != [];
    }
  }

  // ----- windows -----

  /** An intra-day window is the minutes at circular distance less than its length from its start. */
  lemma WindowIsModular(start: nat, end: nat, m: nat)
    requires start < DAY && end < DAY && m < DAY && start != end
    ensures InWindow(start, end, m) <==> (m - start) % DAY < (end - start) % DAY
  {
    Residue(m - start);
    Residue(end - start);
  }

  lemma Residue(d: int)
    requires -DAY < d < DAY
    ensures d % DAY == if d >= 0 then d else d + DAY
  {
  }

  /** Swapping start and end gives exactly the other minutes. */
  lemma SwappedWindowsAreComplements(start: nat, end: nat, m: nat)
    requires start != end
    ensures InWindow(start, end, m) <==> !InWindow(end, start, m)
  {
  }

  // ----- how verdicts move -----

  predicate Superset(a: seq<string>, b: seq<string>) { forall x :: x in b ==> x in a }

  /** The verdict depends only on which rules there are, not on their order or repetition, and more rules
      never turn a denial into an allowance. */
  lemma MoreRulesDenyMore(fold: Fold, rules: seq<Rule>, more: seq<Rule>, s: Subject, h: Host, now: Moment)
    requires forall r :: r in rules ==> r in more
    ensures Denied(fold, rules, s, h, now) ==> Denied(fold, more, s, h, now)
    ensures (forall r :: r in more ==> r in rules) ==> (Denied(fold, rules, s, h, now) <==> Denied(fold, more, s, h, now))
  {
  }

  lemma MoreTagsMatchMore(fold: Fold, r: Rule, s: Subject, h: Host, tags: seq<string>, now: Moment)
    requires Superset(tags, h.tags) && Matches(fold, r, s, h, now)
    ensures Matches(fold, r, s, h.(tags := tags), now)
  {
  }

  /** Tagging a host further never turns a denial into an allowance. */
  lemma MoreTagsDenyMore(fold: Fold, rules: seq<Rule>, s: Subject, h: Host, tags: seq<string>, now: Moment)
    requires Superset(tags, h.tags) && Denied(fold, rules, s, h, now)
    ensures Denied(fold, rules, s, h.(tags := tags), now)
  {
    var r :| r in rules && Matches(fold, r, s, h, now);
    MoreTagsMatchMore(fold, r, s, h, tags, now);
  }

  /** Gaining roles never turns an allowance into a denial. */
  lemma MoreRolesDenyLess(fold: Fold, rules: seq<Rule>, s: Subject, roles: seq<string>, h: Host, now: Moment)
    requires Superset(roles, s.roles) && Denied(fold, rules, s.(roles := roles), h, now)
    ensures Denied(fold, rules, s, h, now)
  {
    var r :| r in rules && Matches(fold, r, s.(roles := roles), h, now);
    assert Matches(fold, r, s, h, now);
  }
}
