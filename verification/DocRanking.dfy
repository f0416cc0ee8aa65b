/** What makes one section rank above another: a rarer term, more occurrences, a shorter section. */
module DocRanking {
  import opened DocIndex
  import opened DocSearch

  /** As a logarithm is: positive above one, and strictly increasing. */
  ghost predicate Logarithm(ln: real -> real) {
    LogLike(ln) && forall x: real, y: real :: 0.0 < x < y ==> ln(x) < ln(y)
  }

  // ----- quotients -----

  lemma ProductRises(a: real, b: real, c: real)
    requires a < b && c > 0.0
    ensures a * c < b * c
  {
  }

  lemma Cross(x: real, b: real, y: real, d: real)
    requires b > 0.0 && d > 0.0 && (x * b) * d < (y * d) * b
    ensures x < y
  {
    var m := b * d;
    assert m > 0.0 && (x * b) * d == x * m && (y * d) * b == y * m;
    if x >= y { ProductAtLeast(y, x, m); }
  }

  lemma QuotientOrder(a: real, b: real, c: real, d: real)
    requires b > 0.0 && d > 0.0 && a * d < c * b
    ensures a / b < c / d
  {
    assert a == (a / b) * b && c == (c / d) * d;
    Cross(a / b, b, c / d, d);
  }

  lemma QuotientIs(a: real, b: real, q: real)
    requires b > 0.0 && a == q * b
    ensures a / b == q
  {
  }

  lemma ProductAtLeast(a: real, b: real, c: real)
    requires a <= b && c >= 0.0
    ensures a * c <= b * c
  {
  }

  /** A smaller numerator over a larger denominator. */
  lemma QuotientFalls(a: real, b: real, c: real, d: real)
    requires 0.0 < a <= c && 0.0 < d <= b && (a < c || d < b)
    ensures a / b < c / d
  {
    ProductAtLeast(a, c, d);
    ProductAtLeast(d, b, c);
    if a < c { ProductRises(a, c, d); } else { ProductRises(d, b, c); }
    QuotientOrder(a, b, c, d);
  }

  // ----- one term -----

  /** The rarer the term, the more it counts. */
  lemma IdfFalls(ln: real -> real, n: nat, rare: nat, common: nat)
    requires Logarithm(ln) && rare < common <= n
    ensures Idf(ln, n, common) < Idf(ln, n, rare)
  {
    var a, b := n as real - common as real + 0.5, common as real + 0.5;
    var c, d := n as real - rare as real + 0.5, rare as real + 0.5;
    QuotientFalls(a, b, c, d);
    QuotientPositive(a, b);
    assert 1.0 + a / b < 1.0 + c / d;
  }

  /** The inverse document frequency is the logarithm of (n + 1) / (df + 1/2). */
  lemma IdfIs(ln: real -> real, n: nat, df: nat)
    ensures Idf(ln, n, df) == ln((n as real + 1.0) / (df as real + 0.5))
  {
    var p, d := n as real - df as real + 0.5, df as real + 0.5;
    var q := p / d;
    assert p == q * d && (1.0 + q) * d == d + p;
    QuotientIs(n as real + 1.0, d, 1.0 + q);
  }

  /** What is added to the count in the denominator. */
  function Slack(length: nat, avgLen: real): real
    requires avgLen > 0.0
  {
    Denom(0, length, avgLen)
  }

  lemma SlackPositive(length: nat, avgLen: real)
    requires avgLen > 0.0
    ensures Slack(length, avgLen) > 0.0
  {
    DenomPositive(0, length, avgLen);
  }

  lemma SlackGrows(short: nat, long: nat, avgLen: real)
    requires avgLen > 0.0 && short < long
    ensures Slack(short, avgLen) < Slack(long, avgLen)
  {
    var a, b := 0.75 * short as real, 0.75 * long as real;
    ProductRises(a, b, avgLen);
    QuotientOrder(a, avgLen, b, avgLen);
  }

  /** The share of its full weight a term that occurs gets. */
  function Share(tf: nat, length: nat, avgLen: real): real
    requires avgLen > 0.0 && tf > 0
  {
    SlackPositive(length, avgLen);
    tf as real / (tf as real + Slack(length, avgLen))
  }

  lemma CrossProducts(p: real, q: real, s: real, l: real)
    requires 0.0 < q <= p && 0.0 < s <= l && (q < p || s < l)
    ensures q * (p + s) < p * (q + l)
  {
    ProductAtLeast(s, l, q);
    ProductAtLeast(q, p, l);
    if s < l { ProductRises(s, l, q); } else { ProductRises(q, p, l); }
    assert s * q < p * l;
    Distribute(q, p, s);
    Distribute(p, q, l);
  }

  lemma Distribute(a: real, b: real, c: real)
    ensures a * (b + c) == a * b + c * a
  {
  }

  lemma FractionRises(p: real, q: real, s: real, l: real)
    requires 0.0 < q <= p && 0.0 < s <= l && (q < p || s < l)
    ensures 0.0 < q / (q + l) < p / (p + s)
  {
    CrossProducts(p, q, s, l);
    QuotientOrder(q, q + l, p, p + s);
    QuotientPositive(q, q + l);
  }

  lemma ShareRises(more: nat, fewer: nat, short: nat, long: nat, avgLen: real)
    requires avgLen > 0.0 && 0 < fewer <= more && short <= long && (fewer < more || short < long)
    ensures 0.0 < Share(fewer, long, avgLen) < Share(more, short, avgLen)
  {
    SlackPositive(short, avgLen);
    SlackPositive(long, avgLen);
    if short < long { SlackGrows(short, long, avgLen); }
    FractionRises(more as real, fewer as real, Slack(short, avgLen), Slack(long, avgLen));
  }

  /** A term's contribution is 2.5 times its inverse document frequency, times its share. */
  lemma TermScoreIs(ln: real -> real, n: nat, df: nat, tf: nat, length: nat, avgLen: real)
    requires avgLen > 0.0 && tf > 0
    ensures TermScore(ln, n, df, tf, length, avgLen) == 2.5 * Idf(ln, n, df) * Share(tf, length, avgLen)
  {
    var t, d, idf := tf as real, Denom(tf, length, avgLen), Idf(ln, n, df);
    DenomPositive(tf, length, avgLen);
    SlackPositive(length, avgLen);
    assert d == t + Slack(length, avgLen);
    MoveFactor(idf, t, d);
  }

  lemma MoveFactor(idf: real, t: real, d: real)
    requires d > 0.0
    ensures idf * (t * 2.5) / d == 2.5 * idf * (t / d)
  {
    var q := t / d;
    assert t == q * d;
    assert idf * (t * 2.5) == (2.5 * idf * q) * d;
  }

  /** More occurrences in a section no longer count for more, and as many in a shorter one. */
  lemma TermScoreRises(ln: real -> real, n: nat, df: nat, more: nat, fewer: nat, short: nat, long: nat, avgLen: real)
    requires LogLike(ln) && df <= n && avgLen > 0.0 && more > 0 && fewer <= more && short <= long
    requires fewer < more || short < long
    ensures TermScore(ln, n, df, fewer, long, avgLen) < TermScore(ln, n, df, more, short, avgLen)
  {
    if fewer == 0 {
      TermScorePositive(ln, n, df, more, short, avgLen);
    } else {
      IdfPositive(ln, n, df);
      TermScoreIs(ln, n, df, fewer, long, avgLen);
      TermScoreIs(ln, n, df, more, short, avgLen);
      ShareRises(more, fewer, short, long, avgLen);
      ProductRises(Share(fewer, long, avgLen), Share(more, short, avgLen), 2.5 * Idf(ln, n, df));
    }
  }

  /** The rarer of two terms that occur as often in as long a section counts for more. */
  lemma TermScoreFalls(ln: real -> real, n: nat, rare: nat, common: nat, tf: nat, length: nat, avgLen: real)
    requires Logarithm(ln) && rare < common <= n && avgLen > 0.0 && tf > 0
    ensures TermScore(ln, n, common, tf, length, avgLen) < TermScore(ln, n, rare, tf, length, avgLen)
  {
    IdfFalls(ln, n, rare, common);
    TermScoreIs(ln, n, rare, tf, length, avgLen);
    TermScoreIs(ln, n, common, tf, length, avgLen);
    ShareRises(tf, tf, length, length + 1, avgLen);
    ProductRises(2.5 * Idf(ln, n, common), 2.5 * Idf(ln, n, rare), Share(tf, length, avgLen));
  }

  lemma ShareBelowOne(t: real, s: real)
    requires t > 0.0 && s > 0.0
    ensures t / (t + s) < 1.0
  {
    QuotientOrder(t, t + s, 1.0, 1.0);
  }

  lemma ShareOfOne(length: nat, avgLen: real)
    requires avgLen > 0.0
    ensures length as real == avgLen ==> Share(1, length, avgLen) == 1.0 / 2.5
    ensures length as real == 2.0 * avgLen ==> Share(1, length, avgLen) == 1.0 / 3.625
  {
    SlackAt(length, avgLen);
  }

  /** One occurrence in a section of average length contributes just the inverse document frequency, and in one of
      twice that length 20/29 of it; however often a term occurs, it stays below two and a half times it. */
  lemma Calibration(ln: real -> real, n: nat, df: nat, tf: nat, length: nat, avgLen: real)
    requires LogLike(ln) && df <= n && avgLen > 0.0 && tf > 0
    ensures length as real == avgLen ==> TermScore(ln, n, df, 1, length, avgLen) == Idf(ln, n, df)
    ensures length as real == 2.0 * avgLen ==> 29.0 * TermScore(ln, n, df, 1, length, avgLen) == 20.0 * Idf(ln, n, df)
    ensures TermScore(ln, n, df, tf, length, avgLen) < 2.5 * Idf(ln, n, df)
  {
    TermScoreIs(ln, n, df, 1, length, avgLen);
    TermScoreIs(ln, n, df, tf, length, avgLen);
    IdfPositive(ln, n, df);
    ShareOfOne(length, avgLen);
    SlackPositive(length, avgLen);
    ShareBelowOne(tf as real, Slack(length, avgLen));
    ProductRises(Share(tf, length, avgLen), 1.0, 2.5 * Idf(ln, n, df));
  }

  lemma SlackAt(length: nat, avgLen: real)
    requires avgLen > 0.0
    ensures length as real == avgLen ==> Slack(length, avgLen) == 1.5
    ensures length as real == 2.0 * avgLen ==> Slack(length, avgLen) == 2.625
  {
    if length as real == avgLen { assert 0.75 * length as real / avgLen == 0.75; }
    if length as real == 2.0 * avgLen { assert 0.75 * length as real / avgLen == 1.5; }
  }

  // ----- whole sections -----

  /** Every query term occurs at least as often in `a`, which is no longer. */
  predicate NoLess(a: Section, b: Section, terms: seq<string>) {
    a.length <= b.length && forall t :: t in terms ==> Get(a.tokens, t) >= Get(b.tokens, t)
  }

  /** And for a term that occurs there `a` has more of them or is shorter. */
  predicate Outdoes(a: Section, b: Section, terms: seq<string>) {
    && NoLess(a, b, terms)
    && exists t :: t in terms && Get(a.tokens, t) > 0 && (Get(a.tokens, t) > Get(b.tokens, t) || a.length < b.length)
  }

  lemma OneTerm(ln: real -> real, n: nat, df: nat, avgLen: real, a: Section, b: Section, t: string)
    requires LogLike(ln) && df <= n && Measurable(a, avgLen) && Measurable(b, avgLen)
    requires a.length <= b.length && Get(a.tokens, t) >= Get(b.tokens, t)
    ensures var x := TermScore(ln, n, df, Get(a.tokens, t), a.length, avgLen);
            var y := TermScore(ln, n, df, Get(b.tokens, t), b.length, avgLen);
            && y <= x
            && (Get(a.tokens, t) > 0 && (Get(a.tokens, t) > Get(b.tokens, t) || a.length < b.length) ==> y < x)
  {
    if Get(a.tokens, t) > 0 && (Get(a.tokens, t) > Get(b.tokens, t) || a.length < b.length) {
      TermScoreRises(ln, n, df, Get(a.tokens, t), Get(b.tokens, t), a.length, b.length, avgLen);
    }
  }

  lemma {:induction false} ScoreRises(ln: real -> real, n: nat, df: map<string, nat>, avgLen: real, a: Section, b: Section,
                                      terms: seq<string>)
    requires LogLike(ln) && Measurable(a, avgLen) && Measurable(b, avgLen) && (forall t :: Get(df, t) <= n)
    requires NoLess(a, b, terms)
    ensures Score(ln, n, df, avgLen, b, terms) <= Score(ln, n, df, avgLen, a, terms)
    ensures Outdoes(a, b, terms) ==> Score(ln, n, df, avgLen, b, terms) < Score(ln, n, df, avgLen, a, terms)
    decreases |terms|
  {
    if terms != [] {
      var init, t := terms[..|terms| - 1], terms[|terms| - 1];
      assert terms == init + [t] && t in terms;
      assert NoLess(a, b, init) by { assert forall x :: x in init ==> x in terms; }
      ScoreRises(ln, n, df, avgLen, a, b, init);
      OneTerm(ln, n, Get(df, t), avgLen, a, b, t);
      if Outdoes(a, b, terms) { OutdoesLast(a, b, init, t); }
    }
  }

  lemma OutdoesLast(a: Section, b: Section, init: seq<string>, t: string)
    requires Outdoes(a, b, init + [t])
    ensures Outdoes(a, b, init) || (Get(a.tokens, t) > 0 && (Get(a.tokens, t) > Get(b.tokens, t) || a.length < b.length))
  {
    assert forall x :: x in init ==> x in init + [t];
  }

  /** The sections differ, as far as the query goes, in that `a` has a term where `b` has a commoner one. */
  predicate Rarer(df: map<string, nat>, a: Section, b: Section, terms: seq<string>, rare: string, common: string) {
    && Get(df, rare) < Get(df, common) && a.length == b.length
    && Get(a.tokens, rare) == Get(b.tokens, common) > 0 && Get(a.tokens, common) == Get(b.tokens, rare) == 0
    && (forall t :: t in terms && t != rare && t != common ==> Get(a.tokens, t) == Get(b.tokens, t))
    && 0 < Count(terms, common) <= Count(terms, rare)
  }

  /** What a section's terms are worth to it. */
  function Worth(ln: real -> real, n: nat, df: map<string, nat>, avgLen: real, s: Section): string -> real {
    (t: string) => if Measurable(s, avgLen) then TermScore(ln, n, Get(df, t), Get(s.tokens, t), s.length, avgLen) else 0.0
  }

  function Total(f: string -> real, terms: seq<string>): real {
    if terms == [] then 0.0 else Total(f, terms[..|terms| - 1]) + f(terms[|terms| - 1])
  }

  lemma {:induction false} ScoreIsTotal(ln: real -> real, n: nat, df: map<string, nat>, avgLen: real, s: Section,
                                        terms: seq<string>)
    requires Measurable(s, avgLen)
    ensures Score(ln, n, df, avgLen, s, terms) == Total(Worth(ln, n, df, avgLen, s), terms)
    decreases |terms|
  {
    if terms != [] { ScoreIsTotal(ln, n, df, avgLen, s, terms[..|terms| - 1]); }
  }

  /** `k` times `x`. */
  function Times(k: nat, x: real): real { if k == 0 then 0.0 else Times(k - 1, x) + x }

  lemma {:induction false} Outweighs(p: nat, q: nat, x: real, y: real)
    requires q <= p && 0.0 < y < x
    ensures Times(p, x) >= Times(q, y) >= 0.0
    ensures q > 0 ==> Times(p, x) > Times(q, y)
  {
    if q > 0 { Outweighs(p - 1, q - 1, x, y); }
    else if p > 0 { Outweighs(p - 1, q, x, y); }
  }

  /** The sums agree but for two terms, of which each has one. */
  ghost predicate Swapped(f: string -> real, g: string -> real, terms: seq<string>, rare: string, common: string) {
    && rare != common && f(common) == 0.0 && g(rare) == 0.0
    && forall t :: t in terms && t != rare && t != common ==> f(t) == g(t)
  }

  lemma {:induction false} Difference(f: string -> real, g: string -> real, terms: seq<string>, rare: string, common: string)
    requires Swapped(f, g, terms, rare, common)
    ensures Total(f, terms) - Total(g, terms) == Times(Count(terms, rare), f(rare)) - Times(Count(terms, common), g(common))
    decreases |terms|
  {
    if terms != [] {
      var init, t := terms[..|terms| - 1], terms[|terms| - 1];
      assert terms == init + [t];
      assert forall u :: u in init ==> u in terms;
      Difference(f, g, init, rare, common);
      CountLast(init, t, rare);
      CountLast(init, t, common);
    }
  }

  lemma CountLast(init: seq<string>, t: string, x: string)
    ensures Count(init + [t], x) == Count(init, x) + if t == x then 1 else 0
  {
    assert multiset(init + [t]) == multiset(init) + multiset{t};
  }

  lemma RarerTerms(ln: real -> real, n: nat, df: map<string, nat>, avgLen: real, a: Section, b: Section, terms: seq<string>,
                   rare: string, common: string)
    requires Logarithm(ln) && Measurable(a, avgLen) && Measurable(b, avgLen) && (forall t :: Get(df, t) <= n)
    requires Rarer(df, a, b, terms, rare, common)
    ensures var f, g := Worth(ln, n, df, avgLen, a), Worth(ln, n, df, avgLen, b);
            Swapped(f, g, terms, rare, common) && 0.0 < g(common) < f(rare)
  {
    var tf := Get(a.tokens, rare);
    TermScoreFalls(ln, n, Get(df, rare), Get(df, common), tf, a.length, avgLen);
    TermScorePositive(ln, n, Get(df, common), tf, a.length, avgLen);
  }

  lemma RarerScores(ln: real -> real, n: nat, df: map<string, nat>, avgLen: real, a: Section, b: Section, terms: seq<string>,
                    rare: string, common: string)
    requires Logarithm(ln) && Measurable(a, avgLen) && Measurable(b, avgLen) && (forall t :: Get(df, t) <= n)
    requires Rarer(df, a, b, terms, rare, common)
    ensures Score(ln, n, df, avgLen, b, terms) < Score(ln, n, df, avgLen, a, terms)
  {
    var f, g := Worth(ln, n, df, avgLen, a), Worth(ln, n, df, avgLen, b);
    ScoreIsTotal(ln, n, df, avgLen, a, terms);
    ScoreIsTotal(ln, n, df, avgLen, b, terms);
    RarerTerms(ln, n, df, avgLen, a, b, terms, rare, common);
    Difference(f, g, terms, rare, common);
    Outweighs(Count(terms, rare), Count(terms, common), f(rare), g(common));
  }

  // ----- the ranking -----

  /** Wherever section j is among the best, section i is there before it. */
  predicate ComesFirst(best: seq<Scored>, i: nat, j: nat) {
    forall q :: 0 <= q < |best| && best[q].i == j ==> exists p :: 0 <= p < q && best[p].i == i
  }

  lemma HigherComesFirst(ln: real -> real, ss: seq<Section>, df: map<string, nat>, avgLen: real, terms: seq<string>, k: nat,
                         best: seq<Scored>, i: nat, j: nat)
    requires LogLike(ln) && Agrees(ss, df, avgLen) && BestOf(ln, ss, df, avgLen, terms, k, best)
    requires i < |ss| && j < |ss| && Measurable(ss[i], avgLen) && Measurable(ss[j], avgLen)
    requires Score(ln, |ss|, df, avgLen, ss[j], terms) < Score(ln, |ss|, df, avgLen, ss[i], terms)
    ensures ComesFirst(best, i, j)
  {
    ScorePositiveIff(ln, ss, df, avgLen, i, terms);
    ScorePositiveIff(ln, ss, df, avgLen, j, terms);
    var e := Entry(ln, ss, df, avgLen, i, terms);
    assert Hit(ln, ss, df, avgLen, terms, e);
    forall q | 0 <= q < |best| && best[q].i == j ensures exists p :: 0 <= p < q && best[p].i == i {
      assert best[q] in best && Hit(ln, ss, df, avgLen, terms, best[q]);
      assert !Before(best[q], e);
      var p :| 0 <= p < |best| && best[p] == e;
      assert !(q < p);
    }
  }

  lemma FrequenciesBound(ss: seq<Section>, df: map<string, nat>, avgLen: real)
    requires Agrees(ss, df, avgLen)
    ensures forall t :: Get(df, t) <= |ss|
  {
    forall t ensures Get(df, t) <= |ss| { DocFreqBounds(ss, t); }
  }

  /** A section with at least as many of every query term that is no longer, and better in one of these, comes
      first. */
  lemma DenserOrShorterComesFirst(ln: real -> real, ss: seq<Section>, df: map<string, nat>, avgLen: real,
                                  terms: seq<string>, k: nat, best: seq<Scored>, i: nat, j: nat)
    requires LogLike(ln) && Agrees(ss, df, avgLen) && BestOf(ln, ss, df, avgLen, terms, k, best)
    requires i < |ss| && j < |ss| && Outdoes(ss[i], ss[j], terms)
    ensures ComesFirst(best, i, j)
  {
    SectionsMeasurable(ss, df, avgLen, i);
    SectionsMeasurable(ss, df, avgLen, j);
    FrequenciesBound(ss, df, avgLen);
    ScoreRises(ln, |ss|, df, avgLen, ss[i], ss[j], terms);
    HigherComesFirst(ln, ss, df, avgLen, terms, k, best, i, j);
  }

  /** Of two sections that differ in which of two terms they have, the one with the rarer comes first. */
  lemma RarerComesFirst(ln: real -> real, ss: seq<Section>, df: map<string, nat>, avgLen: real, terms: seq<string>, k: nat,
                        best: seq<Scored>, i: nat, j: nat, rare: string, common: string)
    requires Logarithm(ln) && Agrees(ss, df, avgLen) && BestOf(ln, ss, df, avgLen, terms, k, best)
    requires i < |ss| && j < |ss| && Rarer(df, ss[i], ss[j], terms, rare, common)
    ensures ComesFirst(best, i, j)
  {
    SectionsMeasurable(ss, df, avgLen, i);
    SectionsMeasurable(ss, df, avgLen, j);
    FrequenciesBound(ss, df, avgLen);
    RarerScores(ln, |ss|, df, avgLen, ss[i], ss[j], terms, rare, common);
    HigherComesFirst(ln, ss, df, avgLen, terms, k, best, i, j);
  }
}
