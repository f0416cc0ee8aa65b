/** Ranking sections against a query, and what the ranking returns. */
module DocSearch {
  import opened DocIndex

  ghost predicate LogLike(ln: real -> real) { forall x: real :: x > 1.0 ==> ln(x) > 0.0 }

  predicate Shares(s: Section, terms: seq<string>) { exists t :: t in terms && t in s.tokens }

  // ----- scores -----

  function Idf(ln: real -> real, n: nat, df: nat): real {
    ln(1.0 + (n as real - df as real + 0.5) / (df as real + 0.5))
  }

  /** The length-normalised denominator, with k1 = 1.5 and b = 0.75. */
  function Denom(tf: nat, length: nat, avgLen: real): real
    requires avgLen > 0.0
  {
    tf as real + 1.5 * (1.0 - 0.75 + 0.75 * length as real / avgLen)
  }

  lemma QuotientPositive(a: real, b: real)
    requires a > 0.0 && b > 0.0
    ensures a / b > 0.0
  {
  }

  lemma QuotientNonNegative(a: real, b: real)
    requires a >= 0.0 && b > 0.0
    ensures a / b >= 0.0
  {
  }

  lemma DenomPositive(tf: nat, length: nat, avgLen: real)
    requires avgLen > 0.0
    ensures Denom(tf, length, avgLen) > 0.0
  {
    QuotientNonNegative(0.75 * length as real, avgLen);
  }

  function TermScore(ln: real -> real, n: nat, df: nat, tf: nat, length: nat, avgLen: real): real
    requires tf > 0 ==> avgLen > 0.0
  {
    if tf == 0 then 0.0 else
    DenomPositive(tf, length, avgLen);
    Idf(ln, n, df) * (tf as real * 2.5) / Denom(tf, length, avgLen)
  }

  predicate Measurable(s: Section, avgLen: real) { s.tokens != map[] ==> avgLen > 0.0 }

  function Score(ln: real -> real, n: nat, df: map<string, nat>, avgLen: real, s: Section, terms: seq<string>): real
    requires Measurable(s, avgLen)
  {
    if terms == [] then 0.0 else
    var t := terms[|terms| - 1];
    Score(ln, n, df, avgLen, s, terms[..|terms| - 1]) + TermScore(ln, n, Get(df, t), Get(s.tokens, t), s.length, avgLen)
  }

  /** A document frequency never exceeds the number of sections, so the logarithm's argument exceeds one. */
  lemma IdfPositive(ln: real -> real, n: nat, df: nat)
    requires LogLike(ln) && df <= n
    ensures Idf(ln, n, df) > 0.0
  {
    QuotientPositive(n as real - df as real + 0.5, df as real + 0.5);
  }

  lemma ProductPositive(a: real, b: real)
    requires a > 0.0 && b > 0.0
    ensures a * b > 0.0
  {
  }

  lemma TermScorePositive(ln: real -> real, n: nat, df: nat, tf: nat, length: nat, avgLen: real)
    requires LogLike(ln) && df <= n && tf > 0 && avgLen > 0.0
    ensures TermScore(ln, n, df, tf, length, avgLen) > 0.0
  {
    IdfPositive(ln, n, df);
    DenomPositive(tf, length, avgLen);
    ProductPositive(Idf(ln, n, df), tf as real * 2.5);
    QuotientPositive(Idf(ln, n, df) * (tf as real * 2.5), Denom(tf, length, avgLen));
  }

  /** In an index that agrees with its sections the average length is positive whenever it is needed. */
  lemma SectionsMeasurable(ss: seq<Section>, df: map<string, nat>, avgLen: real, i: nat)
    requires Agrees(ss, df, avgLen) && i < |ss|
    ensures Measurable(ss[i], avgLen)
  {
    if ss[i].tokens != map[] {
      LengthsHas(ss, i);
      assert WellFormed(ss[i]);
      QuotientPositive(Lengths(ss) as real, |ss| as real);
    }
  }

  /** A section scores above zero exactly when it shares a term with the query, and never below. */
  lemma {:induction false} ScorePositiveIff(ln: real -> real, ss: seq<Section>, df: map<string, nat>, avgLen: real, i: nat,
                                            terms: seq<string>)
    requires LogLike(ln) && Agrees(ss, df, avgLen) && i < |ss| && Measurable(ss[i], avgLen)
    ensures Score(ln, |ss|, df, avgLen, ss[i], terms) >= 0.0
    ensures Score(ln, |ss|, df, avgLen, ss[i], terms) > 0.0 <==> Shares(ss[i], terms)
    decreases |terms|
  {
    if terms != [] {
      var init, t := terms[..|terms| - 1], terms[|terms| - 1];
      assert terms == init + [t];
      ScorePositiveIff(ln, ss, df, avgLen, i, init);
      assert Shares(ss[i], terms) <==> Shares(ss[i], init) || t in ss[i].tokens;
      if t in ss[i].tokens {
        assert WellFormed(ss[i]);
        DocFreqBounds(ss, t);
        TermScorePositive(ln, |ss|, Get(df, t), ss[i].tokens[t], ss[i].length, avgLen);
      }
    }
  }

  // ----- ranking -----

  datatype Scored = Scored(i: nat, score: real)

  /** Higher scores first; equal scores keep the sections' order. */
  predicate Before(a: Scored, b: Scored) { a.score > b.score || (a.score == b.score && a.i < b.i) }

  predicate Ranked(r: seq<Scored>) { forall a, b :: 0 <= a < b < |r| ==> Before(r[a], r[b]) }

  function Insert(x: Scored, r: seq<Scored>): seq<Scored> {
    if r == [] then [x] else if r[0].score >= x.score then [r[0]] + Insert(x, r[1..]) else [x] + r
  }

  lemma {:induction false} InsertMembers(x: Scored, r: seq<Scored>)
    ensures multiset(Insert(x, r)) == multiset(r) + multiset{x}
  {
    if r != [] && r[0].score >= x.score {
      InsertMembers(x, r[1..]);
      assert r == [r[0]] + r[1..];
    }
  }

  lemma {:induction false} InsertRanks(x: Scored, r: seq<Scored>)
    requires Ranked(r) && forall y :: y in r ==> y.i < x.i
    ensures Ranked(Insert(x, r))
  {
    if r != [] && r[0].score >= x.score {
      InsertRanks(x, r[1..]);
      InsertMembers(x, r[1..]);
      var rest := Insert(x, r[1..]);
      forall b | 0 <= b < |rest| ensures Before(r[0], rest[b]) {
        assert rest[b] in multiset(rest);
        if rest[b] != x { assert rest[b] in r[1..]; } else { assert r[0] in r; }
      }
    }
  }

  /** A stable sort by falling score of entries that come in the sections' order. */
  method StableSort(entries: seq<Scored>) returns (r: seq<Scored>)
    requires forall a, b :: 0 <= a < b < |entries| ==> entries[a].i < entries[b].i
    ensures Ranked(r) && multiset(r) == multiset(entries)
  {
    r := [];
    for n := 0 to |entries|
      invariant Ranked(r) && multiset(r) == multiset(entries[..n])
    {
      forall y | y in r ensures y.i < entries[n].i {
        assert y in multiset(r) && y in entries[..n];
      }
      InsertRanks(entries[n], r);
      InsertMembers(entries[n], r);
      r := Insert(entries[n], r);
      assert entries[..n + 1] == entries[..n] + [entries[n]];
    }
    assert entries[..|entries|] == entries;
  }

  function Entry(ln: real -> real, ss: seq<Section>, df: map<string, nat>, avgLen: real, i: nat, terms: seq<string>): Scored
    requires i < |ss| && Measurable(ss[i], avgLen)
  {
    Scored(i, Score(ln, |ss|, df, avgLen, ss[i], terms))
  }

  ghost predicate Hit(ln: real -> real, ss: seq<Section>, df: map<string, nat>, avgLen: real, terms: seq<string>, e: Scored) {
    e.i < |ss| && Measurable(ss[e.i], avgLen) && e == Entry(ln, ss, df, avgLen, e.i, terms) && Shares(ss[e.i], terms)
  }

  /** Scores every section and keeps those above zero. */
  method Hits(ln: real -> real, ss: seq<Section>, df: map<string, nat>, avgLen: real, terms: seq<string>)
    returns (hits: seq<Scored>)
    requires LogLike(ln) && Agrees(ss, df, avgLen)
    ensures forall a, b :: 0 <= a < b < |hits| ==> hits[a].i < hits[b].i
    ensures forall e :: e in hits <==> Hit(ln, ss, df, avgLen, terms, e)
  {
    hits := [];
    for i := 0 to |ss|
      invariant forall a, b :: 0 <= a < b < |hits| ==> hits[a].i < hits[b].i
      invariant forall e :: e in hits <==> e.i < i && Hit(ln, ss, df, avgLen, terms, e)
    {
      SectionsMeasurable(ss, df, avgLen, i);
      ScorePositiveIff(ln, ss, df, avgLen, i, terms);
      var e := Entry(ln, ss, df, avgLen, i, terms);
      if e.score > 0.0 { hits := hits + [e]; }
    }
  }

  /** In rank order, each sharing a term with the query; there are `k` of them unless fewer sections match, and
      no matching section that was left out outranks one returned. */
  ghost predicate BestOf(ln: real -> real, ss: seq<Section>, df: map<string, nat>, avgLen: real, terms: seq<string>, k: nat,
                         best: seq<Scored>)
  {
    && Ranked(best) && |best| <= k
    && (forall e :: e in best ==> Hit(ln, ss, df, avgLen, terms, e))
    && forall e :: Hit(ln, ss, df, avgLen, terms, e) ==>
                     e in best || (|best| == k && forall b :: b in best ==> Before(b, e))
  }

  /** The best `k` sections. */
  method Search(ln: real -> real, ss: seq<Section>, df: map<string, nat>, avgLen: real, terms: seq<string>, k: nat)
    returns (best: seq<Scored>)
    requires LogLike(ln) && Agrees(ss, df, avgLen)
    ensures BestOf(ln, ss, df, avgLen, terms, k, best)
  {
    if |terms| == 0 || |ss| == 0 { return []; }
    var hits := Hits(ln, ss, df, avgLen, terms);
    var ranked := StableSort(hits);
    assert forall e :: e in ranked <==> e in hits by {
      forall e ensures e in ranked <==> e in hits { assert e in ranked <==> e in multiset(ranked); }
    }
    best := if |ranked| > k then ranked[..k] else ranked;
    forall e | Hit(ln, ss, df, avgLen, terms, e) && e !in best ensures forall b :: b in best ==> Before(b, e) {
      var n :| 0 <= n < |ranked| && ranked[n] == e;
      assert n >= |best|;
    }
  }
}
