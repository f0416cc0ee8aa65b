/** Cutting a document into the sections that are indexed.  The heading pattern is a parameter: it gives
    the cleaned heading of a line that is one. */
module DocSections {
  import opened Wrappers
  import opened Text

  datatype Doc = Doc(title: string, markdown: string)
  datatype Chunk = Chunk(heading: string, text: string)

  type Headings = string -> Option<string>

  /** Every chunk of the lines, blank ones too: a heading opens one, any other line joins the one that is
      open, and a preamble opens one under the document's title. */
  function Chunks(title: string, headingOf: Headings, lines: seq<string>): seq<Chunk> {
    if lines == [] then [] else
    WithLine(title, headingOf, Chunks(title, headingOf, lines[..|lines| - 1]), lines[|lines| - 1])
  }

  function WithLine(title: string, headingOf: Headings, cs: seq<Chunk>, line: string): seq<Chunk> {
    if headingOf(line).Some? then cs + [Chunk(headingOf(line).value, "")]
    else if cs == [] then [Chunk(title, line + "\n")]
    else cs[..|cs| - 1] + [Chunk(cs[|cs| - 1].heading, cs[|cs| - 1].text + (line + "\n"))]
  }

  lemma ChunksNext(title: string, headingOf: Headings, lines: seq<string>, n: nat)
    requires n < |lines|
    ensures Chunks(title, headingOf, lines[..n + 1]) == WithLine(title, headingOf, Chunks(title, headingOf, lines[..n]), lines[n])
  {
    assert lines[..n + 1][..n] == lines[..n];
  }

  predicate Blank(text: string) { Trim(text) == "" }

  /** The chunks worth indexing. */
  function Kept(cs: seq<Chunk>): seq<Chunk> {
    if cs == [] then [] else
    Kept(cs[..|cs| - 1]) + (if Blank(cs[|cs| - 1].text) then [] else [cs[|cs| - 1]])
  }

  // ----- nothing is lost -----

  function Texts(cs: seq<Chunk>): string {
    if cs == [] then "" else Texts(cs[..|cs| - 1]) + cs[|cs| - 1].text
  }

  /** The lines that are not headings. */
  function Prose(headingOf: Headings, lines: seq<string>): string {
    if lines == [] then "" else
    Prose(headingOf, lines[..|lines| - 1])
    + (if headingOf(lines[|lines| - 1]).Some? then "" else lines[|lines| - 1] + "\n")
  }

  lemma TextsSnoc(cs: seq<Chunk>, c: Chunk)
    ensures Texts(cs + [c]) == Texts(cs) + c.text
  {
    assert (cs + [c])[..|cs|] == cs;
  }

  /** The chunks' texts, one after another, are the document without its headings. */
  lemma {:induction false} ChunksConserve(title: string, headingOf: Headings, lines: seq<string>)
    ensures Texts(Chunks(title, headingOf, lines)) == Prose(headingOf, lines)
  {
    if lines != [] {
      var before, line := lines[..|lines| - 1], lines[|lines| - 1];
      ChunksConserve(title, headingOf, before);
      var cs := Chunks(title, headingOf, before);
      LineConserves(title, headingOf, cs, line);
    }
  }

  lemma LineConserves(title: string, headingOf: Headings, cs: seq<Chunk>, line: string)
    ensures Texts(WithLine(title, headingOf, cs, line)) == Texts(cs) + if headingOf(line).Some? then "" else line + "\n"
  {
    if headingOf(line).Some? {
      TextsSnoc(cs, Chunk(headingOf(line).value, ""));
    } else if cs == [] {
      TextsSnoc([], Chunk(title, line + "\n"));
      assert [] + [Chunk(title, line + "\n")] == [Chunk(title, line + "\n")];
    } else {
      var init, last := cs[..|cs| - 1], cs[|cs| - 1];
      var a, b, c := Texts(init), last.text, line + "\n";
      TextsSnoc(init, Chunk(last.heading, b + c));
      assert a + (b + c) == a + b + c;
    }
  }

  /** What a reader sees: the characters that are not white space. */
  function Ink(s: string): string {
    if s == "" then "" else Ink(s[..|s| - 1]) + (if IsSpace(s[|s| - 1]) then "" else [s[|s| - 1]])
  }

  lemma {:induction false} InkAppend(a: string, b: string)
    ensures Ink(a + b) == Ink(a) + Ink(b)
  {
    if b == "" { assert a + b == a; } else {
      var init, c := b[..|b| - 1], b[|b| - 1];
      assert (a + b)[..|a + b| - 1] == a + init;
      InkAppend(a, init);
    }
  }

  lemma {:induction false} InkOfSpace(s: string)
    requires forall c :: c in s ==> IsSpace(c)
    ensures Ink(s) == ""
  {
    if s != "" {
      assert s[|s| - 1] in s;
      InkOfSpace(s[..|s| - 1]);
    }
  }

  /** A text is blank exactly when all of it is white space. */
  lemma BlankIff(s: string)
    ensures Blank(s) <==> forall c :: c in s ==> IsSpace(c)
  {
    TrimLeftDrops(s);
    TrimRightDrops(TrimLeft(s));
  }

  lemma {:induction false} TrimLeftDrops(s: string)
    ensures (forall c :: c in s ==> IsSpace(c)) <==> TrimLeft(s) == ""
    ensures TrimLeft(s) != "" ==> !IsSpace(TrimLeft(s)[0])
  {
    if s != "" {
      assert s == [s[0]] + s[1..] && s[0] in s;
      TrimLeftDrops(s[1..]);
    }
  }

  lemma {:induction false} TrimRightDrops(s: string)
    requires s != "" ==> !IsSpace(s[0])
    ensures TrimRight(s) == "" <==> s == ""
  {
    if |s| > 1 { TrimRightDrops(s[..|s| - 1]); }
  }

  /** Dropping blank chunks drops nothing a reader sees. */
  lemma {:induction false} KeptInk(cs: seq<Chunk>)
    ensures Ink(Texts(Kept(cs))) == Ink(Texts(cs))
  {
    if cs != [] {
      var init, last := cs[..|cs| - 1], cs[|cs| - 1];
      KeptInk(init);
      InkAppend(Texts(init), last.text);
      if Blank(last.text) {
        BlankIff(last.text);
        InkOfSpace(last.text);
        assert Kept(cs) == Kept(init);
      } else {
        TextsSnoc(Kept(init), last);
        InkAppend(Texts(Kept(init)), last.text);
      }
    }
  }

  /** Every visible character of a document outside its headings is in exactly one indexed section, in
      the document's order. */
  lemma SectionsCoverDocument(d: Doc, headingOf: Headings)
    ensures var lines := Split(d.markdown, '\n');
            Ink(Texts(Kept(Chunks(d.title, headingOf, lines)))) == Ink(Prose(headingOf, lines))
  {
    var lines := Split(d.markdown, '\n');
    KeptInk(Chunks(d.title, headingOf, lines));
    ChunksConserve(d.title, headingOf, lines);
  }

  // ----- headings -----

  function HeadingsIn(headingOf: Headings, lines: seq<string>): seq<string> {
    if lines == [] then [] else
    HeadingsIn(headingOf, lines[..|lines| - 1])
    + (if headingOf(lines[|lines| - 1]).Some? then [headingOf(lines[|lines| - 1]).value] else [])
  }

  function HeadingsOf(cs: seq<Chunk>): seq<string> { seq(|cs|, i requires 0 <= i < |cs| => cs[i].heading) }

  /** A line that is no heading changes the text of the last chunk only. */
  lemma LineHeadings(title: string, headingOf: Headings, cs: seq<Chunk>, line: string)
    requires cs != []
    ensures HeadingsOf(WithLine(title, headingOf, cs, line))
            == HeadingsOf(cs) + if headingOf(line).Some? then [headingOf(line).value] else []
  {
  }

  /** One chunk for each heading, in order, after one under the title exactly when the document does not
      open with a heading. */
  lemma {:induction false} ChunkHeadings(title: string, headingOf: Headings, lines: seq<string>)
    requires lines != []
    ensures HeadingsOf(Chunks(title, headingOf, lines))
            == (if headingOf(lines[0]).Some? then [] else [title]) + HeadingsIn(headingOf, lines)
  {
    var before, line := lines[..|lines| - 1], lines[|lines| - 1];
    var cs, hs := Chunks(title, headingOf, before), HeadingsIn(headingOf, before);
    if before == [] {
      assert hs == [] && cs == [];
    } else {
      ChunkHeadings(title, headingOf, before);
      assert cs != [];
      LineHeadings(title, headingOf, cs, line);
      var first := if headingOf(lines[0]).Some? then [] else [title];
      var last := if headingOf(line).Some? then [headingOf(line).value] else [];
      assert first + hs + last == first + (hs + last);
    }
  }

  /** All chunks but the last are settled; the last is the one that is open. */
  lemma LineOpens(title: string, headingOf: Headings, cs: seq<Chunk>, line: string)
    ensures var next := WithLine(title, headingOf, cs, line);
            next != [] &&
            if headingOf(line).Some?
            then next[..|next| - 1] == cs && next[|next| - 1] == Chunk(headingOf(line).value, "")
            else var open := if cs == [] then Chunk(title, "") else cs[|cs| - 1];
                 next[..|next| - 1] == (if cs == [] then [] else cs[..|cs| - 1])
                 && next[|next| - 1] == open.(text := open.text + (line + "\n"))
  {
    assert "" + (line + "\n") == line + "\n";
  }
}
