/** The documentation index and its BM25 ranking.  Scores are real numbers; the logarithm is any
    function that is positive above one. */
module DocIndex {
  import opened Wrappers
  import opened Text
  import opened DocSections

  // ----- sections -----

  /** A section as indexed: what it says, how often each term occurs, and how many tokens it has. */
  datatype Section = Section(heading: string, text: string, tokens: map<string, nat>, length: nat)

  type Tokenizer = string -> seq<string>

  function Count(toks: seq<string>, t: string): nat { multiset(toks)[t] }

  /** The section's term counts are the naive counts of its tokens. */
  ghost predicate Indexes(s: Section, toks: seq<string>) {
    && s.length == |toks|
    && (forall t :: t in s.tokens <==> t in toks)
    && (forall t :: t in s.tokens ==> s.tokens[t] == Count(toks, t))
  }

  /** The section is the chunk, indexed under the words of its heading and its text. */
  ghost predicate IndexesChunk(tokenize: Tokenizer, s: Section, c: Chunk) {
    s.heading == c.heading && s.text == c.text && Indexes(s, tokenize(c.heading + " " + c.text))
  }

  method IndexSection(tokenize: Tokenizer, c: Chunk) returns (s: Section)
    ensures IndexesChunk(tokenize, s, c)
  {
    var toks := tokenize(c.heading + " " + c.text);
    var m: map<string, nat> := map[];
    for n := 0 to |toks|
      invariant forall t :: t in m <==> t in toks[..n]
      invariant forall t :: t in m ==> m[t] == Count(toks[..n], t)
    {
      var t := toks[n];
      assert toks[..n + 1] == toks[..n] + [t];
      assert multiset(toks[..n + 1]) == multiset(toks[..n]) + multiset{t};
      m := m[t := (if t in m then m[t] else 0) + 1];
    }
    assert toks[..|toks|] == toks;
    return Section(c.heading, c.text, m, |toks|);
  }

  ghost predicate IndexesAll(tokenize: Tokenizer, ss: seq<Section>, cs: seq<Chunk>) {
    |ss| == |cs| && forall i :: 0 <= i < |ss| ==> IndexesChunk(tokenize, ss[i], cs[i])
  }

  function SectionsOf(headingOf: Headings, d: Doc): seq<Chunk> {
    Kept(Chunks(d.title, headingOf, Split(d.markdown, '\n')))
  }

  /** The open chunk goes to the index unless it is blank. */
  method Flush(tokenize: Tokenizer, ss: seq<Section>, cur: Option<Chunk>, ghost cs: seq<Chunk>) returns (out: seq<Section>)
    requires Underway(tokenize, ss, cur, cs)
    ensures IndexesAll(tokenize, out, Kept(cs))
  {
    out := ss;
    if cur.Some? && Trim(cur.value.text) != "" {
      var s := IndexSection(tokenize, cur.value);
      out := out + [s];
    }
  }

  /** Reading has got as far as these chunks: all but the last are in, the last is open. */
  ghost predicate Underway(tokenize: Tokenizer, ss: seq<Section>, cur: Option<Chunk>, cs: seq<Chunk>) {
    && cur == (if cs == [] then None else Some(cs[|cs| - 1]))
    && IndexesAll(tokenize, ss, if cs == [] then [] else Kept(cs[..|cs| - 1]))
  }

  method TakeLine(headingOf: Headings, tokenize: Tokenizer, title: string, ss: seq<Section>, cur: Option<Chunk>, line: string,
                  ghost cs: seq<Chunk>) returns (out: seq<Section>, now: Option<Chunk>)
    requires Underway(tokenize, ss, cur, cs)
    ensures Underway(tokenize, out, now, WithLine(title, headingOf, cs, line))
  {
    LineOpens(title, headingOf, cs, line);
    if headingOf(line).Some? {
      out := Flush(tokenize, ss, cur, cs);
      now := Some(Chunk(headingOf(line).value, ""));
    } else {
      out := ss;
      var open := if cur.None? then Chunk(title, "") else cur.value;
      now := Some(open.(text := open.text + (line + "\n")));
    }
  }

  /** The document's sections, each a non-blank chunk of it, indexed. */
  method SplitDocSections(headingOf: Headings, tokenize: Tokenizer, d: Doc) returns (out: seq<Section>)
    ensures IndexesAll(tokenize, out, SectionsOf(headingOf, d))
  {
    var lines := Split(d.markdown, '\n');
    var cur: Option<Chunk> := None;
    ghost var cs: seq<Chunk> := [];
    out := [];
    for n := 0 to |lines|
      invariant cs == Chunks(d.title, headingOf, lines[..n]) && Underway(tokenize, out, cur, cs)
    {
      out, cur := TakeLine(headingOf, tokenize, d.title, out, cur, lines[n], cs);
      ChunksNext(d.title, headingOf, lines, n);
      cs := WithLine(d.title, headingOf, cs, lines[n]);
    }
    assert lines[..|lines|] == lines;
    out := Flush(tokenize, out, cur, cs);
  }

  /** The sum of a section's term counts. */
  ghost function Total(m: map<string, nat>): nat
    decreases |m|
  {
    if m == map[] then 0 else
    var t :| t in m;
    m[t] + Total(m - {t})
  }

  lemma {:induction false} TotalRemove(m: map<string, nat>, t: string)
    requires t in m
    ensures Total(m) == m[t] + Total(m - {t})
    decreases |m|
  {
    var u :| u in m && Total(m) == m[u] + Total(m - {u});
    if u != t {
      TotalRemove(m - {u}, t);
      TotalRemove(m - {t}, u);
      assert m - {u} - {t} == m - {t} - {u};
    }
  }

  lemma {:induction false} TotalCounts(m: map<string, nat>, toks: seq<string>)
    requires forall t :: t in m <==> t in toks
    requires forall t :: t in m ==> m[t] == Count(toks, t)
    ensures Total(m) == |toks|
    decreases |toks|
  {
    if toks == [] {
      assert m == map[];
    } else {
      var init, t := toks[..|toks| - 1], toks[|toks| - 1];
      assert toks == init + [t];
      assert multiset(toks) == multiset(init) + multiset{t};
      TotalRemove(m, t);
      if t in init {
        var m' := m[t := Count(init, t)];
        TotalCounts(m', init);
        TotalRemove(m', t);
        assert m' - {t} == m - {t};
      } else {
        var m' := m - {t};
        forall u | u in m' ensures m'[u] == Count(init, u) { assert m'[u] == m[u]; }
        TotalCounts(m', init);
      }
    }
  }

  /** A section's length is the sum of its term counts. */
  lemma LengthIsTotal(s: Section, toks: seq<string>)
    requires Indexes(s, toks)
    ensures s.length == Total(s.tokens)
  {
    TotalCounts(s.tokens, toks);
  }

  /** What indexing guarantees of a section: counts are positive and no longer than the section. */
  predicate WellFormed(s: Section) {
    (forall t :: t in s.tokens ==> s.tokens[t] > 0) && (s.tokens != map[] ==> s.length > 0)
  }

  lemma IndexedIsWellFormed(s: Section, toks: seq<string>)
    requires Indexes(s, toks)
    ensures WellFormed(s)
  {
    if s.tokens != map[] {
      var t :| t in s.tokens;
      assert t in toks;
    }
  }

  // ----- the inverted index -----

  /** In how many sections the term occurs, counted naively. */
  function DocFreq(ss: seq<Section>, t: string): nat {
    if ss == [] then 0 else DocFreq(ss[..|ss| - 1], t) + (if t in ss[|ss| - 1].tokens then 1 else 0)
  }

  function Lengths(ss: seq<Section>): nat {
    if ss == [] then 0 else Lengths(ss[..|ss| - 1]) + ss[|ss| - 1].length
  }

  function Get(df: map<string, nat>, t: string): nat { if t in df then df[t] else 0 }

  lemma {:induction false} DocFreqBounds(ss: seq<Section>, t: string)
    ensures DocFreq(ss, t) <= |ss|
    ensures DocFreq(ss, t) > 0 <==> exists i :: 0 <= i < |ss| && t in ss[i].tokens
    decreases |ss|
  {
    if ss != [] { DocFreqBounds(ss[..|ss| - 1], t); }
  }

  lemma {:induction false} LengthsHas(ss: seq<Section>, i: nat)
    requires i < |ss|
    ensures Lengths(ss) >= ss[i].length
    decreases |ss|
  {
    if i < |ss| - 1 { LengthsHas(ss[..|ss| - 1], i); }
  }

  /** Frequencies and average length are what the sections say. */
  ghost predicate Agrees(ss: seq<Section>, df: map<string, nat>, avgLen: real) {
    && (forall t :: Get(df, t) == DocFreq(ss, t))
    && (ss != [] ==> avgLen == Lengths(ss) as real / |ss| as real)
    && AllWellFormed(ss)
  }

  class Index {
    var sections: seq<Section>
    var df: map<string, nat>
    var avgLen: real

    constructor ()
      ensures sections == [] && df == map[] && avgLen == 0.0
    {
      sections, df, avgLen := [], map[], 0.0;
    }

    /** The index agrees with the naive definitions. */
    ghost predicate Valid()
      reads this
    {
      Agrees(sections, df, avgLen) && forall t :: t in df ==> df[t] > 0
    }

    /** Adds one section's terms, in any order, to the document frequencies. */
    method CountSection(df0: map<string, nat>, s: Section) returns (out: map<string, nat>)
      ensures forall t :: Get(out, t) == Get(df0, t) + (if t in s.tokens then 1 else 0)
      ensures (forall t :: t in df0 ==> df0[t] > 0) ==> forall t :: t in out ==> out[t] > 0
    {
      out := df0;
      var left := s.tokens.Keys;
      while left != {}
        invariant left <= s.tokens.Keys
        invariant forall t :: Get(out, t) == Get(df0, t) + (if t in s.tokens && t !in left then 1 else 0)
        invariant (forall t :: t in df0 ==> df0[t] > 0) ==> forall t :: t in out ==> out[t] > 0
      {
        var t :| t in left;
        out := out[t := Get(out, t) + 1];
        left := left - {t};
      }
    }

    /** One pass over the sections fills the frequencies and adds up the lengths. */
    method CountAll() returns (total: nat)
      modifies this`df
      ensures forall t :: Get(df, t) == DocFreq(sections, t)
      ensures forall t :: t in df ==> df[t] > 0
      ensures total == Lengths(sections)
    {
      df := map[];
      total := 0;
      for i := 0 to |sections|
        invariant forall t :: Get(df, t) == DocFreq(sections[..i], t)
        invariant forall t :: t in df ==> df[t] > 0
        invariant total == Lengths(sections[..i])
      {
        df := CountSection(df, sections[i]);
        total := total + sections[i].length;
        assert sections[..i + 1][..i] == sections[..i];
      }
      assert sections[..|sections|] == sections;
    }

    /** Builds the index over all documents' sections. */
    method Build(headingOf: Headings, tokenize: Tokenizer, docs: seq<Doc>)
      requires sections == []
      modifies this
      ensures Valid() && IndexesAll(tokenize, sections, AllSections(headingOf, docs))
    {
      for n := 0 to |docs|
        invariant IndexesAll(tokenize, sections, AllSections(headingOf, docs[..n]))
      {
        var more := SplitDocSections(headingOf, tokenize, docs[n]);
        sections := sections + more;
        assert docs[..n + 1][..n] == docs[..n];
      }
      assert docs[..|docs|] == docs;
      IndexedAreWellFormed(tokenize, sections, AllSections(headingOf, docs));
      var total := CountAll();
      if |sections| > 0 { avgLen := total as real / |sections| as real; }
    }
  }

  predicate AllWellFormed(ss: seq<Section>) { forall i :: 0 <= i < |ss| ==> WellFormed(ss[i]) }

  lemma IndexedAreWellFormed(tokenize: Tokenizer, ss: seq<Section>, cs: seq<Chunk>)
    requires IndexesAll(tokenize, ss, cs)
    ensures AllWellFormed(ss)
  {
    forall i | 0 <= i < |ss| ensures WellFormed(ss[i]) {
      assert IndexesChunk(tokenize, ss[i], cs[i]);
      IndexedIsWellFormed(ss[i], tokenize(cs[i].heading + " " + cs[i].text));
    }
  }

  function AllSections(headingOf: Headings, docs: seq<Doc>): seq<Chunk> {
    if docs == [] then [] else AllSections(headingOf, docs[..|docs| - 1]) + SectionsOf(headingOf, docs[|docs| - 1])
  }

  /** In how many sections a term occurs, counted from the documents themselves. */
  function NaiveFreq(tokenize: Tokenizer, cs: seq<Chunk>, t: string): nat {
    if cs == [] then 0 else
    NaiveFreq(tokenize, cs[..|cs| - 1], t)
    + (if t in tokenize(cs[|cs| - 1].heading + " " + cs[|cs| - 1].text) then 1 else 0)
  }

  /** The index's frequencies are those of the documents. */
  lemma {:induction false} FreqIsNaive(tokenize: Tokenizer, ss: seq<Section>, cs: seq<Chunk>, t: string)
    requires IndexesAll(tokenize, ss, cs)
    ensures DocFreq(ss, t) == NaiveFreq(tokenize, cs, t)
    decreases |ss|
  {
    if ss != [] {
      var n := |ss| - 1;
      assert IndexesChunk(tokenize, ss[n], cs[n]);
      FreqIsNaive(tokenize, ss[..n], cs[..n], t);
    }
  }
}
