/** The additive .env migration: new keys a release needs are appended, nothing an operator
    wrote is touched.  A key is what a `KEY=value` line defines; comments and blank lines
    define nothing. */
module ConfigMerge {
  import opened Wrappers
  import opened Text

  /** One key a bundle adds when it is absent; `generate` asks for a random secret. */
  datatype Addition = Addition(key: string, default: string, generate: string, comment: string)

  predicate KeyStart(c: char) { 'A' <= c <= 'Z' }
  predicate KeyChar(c: char) { KeyStart(c) || '0' <= c <= '9' || c == '_' }

  predicate ValidKey(k: string) {
    k != "" && KeyStart(k[0]) && forall i :: 0 <= i < |k| ==> KeyChar(k[i])
  }

  /** What a bundle must satisfy.  Nothing is asked of the comment. */
  predicate Valid(a: Addition) {
    ValidKey(a.key) && (a.generate == "" || a.generate == "secret") && '\n' !in a.default && '\r' !in a.default
  }

  /** A generated secret is hexadecimal text; `None` is a failing random source. */
  predicate SecretOk(s: Option<string>) {
    s.Some? ==> forall c :: c in s.value ==> '0' <= c <= '9' || 'a' <= c <= 'f'
  }

  // ----- reading an env text -----

  function LineKey(line: string): Option<string> {
    var t := Trim(line);
    if t == "" || t[0] == '#' then None else
    var i := IndexOf(t, '=');
    if 0 < i < |t| then Some(Trim(t[..i])) else None
  }

  function KeysOfLines(lines: seq<string>): set<string> {
    if lines == [] then {} else
    (if LineKey(lines[0]).Some? then {LineKey(lines[0]).value} else {}) + KeysOfLines(lines[1..])
  }

  function KeysOf(env: string): set<string> { KeysOfLines(Split(env, '\n')) }

  /** How many lines define the key. */
  function Defining(lines: seq<string>, key: string): nat {
    if lines == [] then 0 else
    (if LineKey(lines[0]) == Some(key) then 1 else 0) + Defining(lines[1..], key)
  }

  // ----- writing -----

  function Closed(env: string): string {
    if |env| > 0 && env[|env| - 1] != '\n' then env + "\n" else env
  }

  function ValueFor(a: Addition, secret: Option<string>): Option<string> {
    if a.generate == "secret" then secret else Some(a.default)
  }

  function Entry(a: Addition, value: string): string {
    (if a.comment != "" then "# " + a.comment + "\n" else "") + a.key + "=" + value + "\n"
  }

  /** Appending the missing additions to a text whose keys are `existing`. */
  function Append(text: string, existing: set<string>, adds: seq<Addition>, secrets: seq<Option<string>>)
    : Result<(string, seq<string>)>
    requires |adds| == |secrets|
    decreases |adds|
  {
    if adds == [] then Ok((text, []))
    else if !Valid(adds[0]) then Err
    else if adds[0].key in existing then Append(text, existing, adds[1..], secrets[1..])
    else match ValueFor(adds[0], secrets[0])
      case None => Err
      case Some(v) =>
        After([adds[0].key], Append(text + Entry(adds[0], v), existing + {adds[0].key}, adds[1..], secrets[1..]))
  }

  function After(added: seq<string>, r: Result<(string, seq<string>)>): Result<(string, seq<string>)> {
    if r.Err? then r else Ok((r.value.0, added + r.value.1))
  }

  function Merge(env: string, adds: seq<Addition>, secrets: seq<Option<string>>): Result<(string, seq<string>)>
    requires |adds| == |secrets|
  {
    Append(Closed(env), KeysOf(env), adds, secrets)
  }

  lemma AfterNothing(r: Result<(string, seq<string>)>)
    ensures After([], r) == r
  {
    if r.Ok? { assert [] + r.value.1 == r.value.1; }
  }

  lemma AfterAfter(a: seq<string>, b: seq<string>, r: Result<(string, seq<string>)>)
    ensures After(a, After(b, r)) == After(a + b, r)
  {
    if r.Ok? { assert a + (b + r.value.1) == a + b + r.value.1; }
  }

  // ----- the code: a scan over the lines, then one pass over the additions -----

  method ScanKeys(env: string) returns (existing: set<string>)
    ensures existing == KeysOf(env)
  {
    existing := {};
    var lines := Split(env, '\n');
    for n := 0 to |lines|
      invariant existing + KeysOfLines(lines[n..]) == KeysOf(env)
    {
      var t := Trim(lines[n]);
      if t == "" || t[0] == '#' { continue; }
      var i := IndexOf(t, '=');
      if 0 < i < |t| { existing := existing + {Trim(t[..i])}; }
    }
  }

  method WriteEntry(text: string, a: Addition, value: string) returns (b: string)
    ensures b == text + Entry(a, value)
  {
    b := text;
    if a.comment != "" { b := b + "# " + a.comment + "\n"; }
    b := b + a.key + "=" + value + "\n";
  }

  method MergeConfigAdditions(env: string, adds: seq<Addition>, secrets: seq<Option<string>>)
    returns (r: Result<(string, seq<string>)>)
    requires |adds| == |secrets|
    ensures r == Merge(env, adds, secrets)
  {
    var existing := ScanKeys(env);
    var b := env;
    if |env| > 0 && env[|env| - 1] != '\n' { b := b + "\n"; }
    var added: seq<string> := [];
    assert adds[0..] == adds && secrets[0..] == secrets;
    AfterNothing(Append(b, existing, adds, secrets));
    for n := 0 to |adds|
      invariant Merge(env, adds, secrets) == After(added, Append(b, existing, adds[n..], secrets[n..]))
    {
      var a := adds[n];
      assert adds[n..][0] == a && adds[n..][1..] == adds[n + 1..] && secrets[n..][1..] == secrets[n + 1..];
      if !Valid(a) { return Err; }
      if a.key in existing { continue; }
      var value := a.default;
      if a.generate == "secret" {
        if secrets[n].None? { return Err; }
        value := secrets[n].value;
      }
      b := WriteEntry(b, a, value);
      ghost var rest := Append(b, existing + {a.key}, adds[n + 1..], secrets[n + 1..]);
      AfterAfter(added, [a.key], rest);
      existing := existing + {a.key};
      added := added + [a.key];
    }
    assert adds[|adds|..] == [] && added + [] == added;
    return Ok((b, added));
  }

  // ----- lines -----

  predicate Terminated(text: string) { text == "" || text[|text| - 1] == '\n' }

  /** `text` is the given lines, each ended by a newline. */
  predicate HasLines(text: string, lines: seq<string>) {
    Terminated(text) && Split(text, '\n') == lines + [""]
  }

  lemma SplitTerminated(t: string)
    ensures HasLines(t + "\n", Split(t, '\n'))
  {
    SplitAppend(t, "", '\n');
    assert t + ['\n'] + "" == t + "\n";
  }

  lemma LinesAppend(a: string, la: seq<string>, b: string, lb: seq<string>)
    requires HasLines(a, la) && HasLines(b, lb)
    ensures HasLines(a + b, la + lb)
  {
    if a == "" {
      assert a + b == b && la == [];
      assert la + lb == lb;
    } else {
      var t := a[..|a| - 1];
      var pt := Split(t, '\n');
      assert a == t + "\n";
      SplitTerminated(t);
      assert pt == la by { assert pt == (pt + [""])[..|pt|]; assert la == (la + [""])[..|la|]; }
      SplitAppend(t, b, '\n');
      assert a + b == t + ['\n'] + b;
      assert la + (lb + [""]) == la + lb + [""];
    }
  }

  /** The lines already in the file. */
  function OldLines(env: string): seq<string> {
    if Terminated(env) then Split(env, '\n')[..|Split(env, '\n')| - 1] else Split(env, '\n')
  }

  lemma OldLinesIntact(env: string)
    ensures HasLines(Closed(env), OldLines(env)) && env <= Closed(env)
    ensures Split(env, '\n') == OldLines(env) + (if Terminated(env) then [""] else [])
  {
    if !Terminated(env) {
      SplitTerminated(env);
    } else if env != "" {
      assert env == env[..|env| - 1] + "\n";
      SplitTerminated(env[..|env| - 1]);
    }
  }

  lemma {:induction false} DefiningAppend(a: seq<string>, b: seq<string>, key: string)
    ensures Defining(a + b, key) == Defining(a, key) + Defining(b, key)
  {
    if a == [] { assert a + b == b; } else {
      assert (a + b)[1..] == a[1..] + b;
      DefiningAppend(a[1..], b, key);
    }
  }

  lemma {:induction false} KeysAreDefined(lines: seq<string>, key: string)
    ensures key in KeysOfLines(lines) <==> Defining(lines, key) > 0
  {
    if lines != [] { KeysAreDefined(lines[1..], key); }
  }

  lemma BlankDefinesNothing(key: string)
    ensures Defining([""], key) == 0 && Defining([], key) == 0
  {
    assert Trim("") == "";
  }

  /** A written entry's own line defines exactly its key. */
  lemma EntryDefinesKey(key: string, value: string)
    requires ValidKey(key)
    ensures LineKey(key + "=" + value) == Some(key)
  {
    var line := key + "=" + value;
    assert KeyChar(line[0]) && TrimLeft(line) == line;
    var p := key + "=";
    assert line == p + value;
    TrimRightStops(p, value);
    var t := Trim(line);
    assert t[..|key|] == key && t[|key|] == '=' by { assert p <= t; }
    assert forall i :: 0 <= i < |key| ==> KeyChar(key[i]);
    IndexOfUnique(t, '=', |key|);
    assert Trim(key) == key by { assert KeyChar(key[0]) && KeyChar(key[|key| - 1]); }
  }

  lemma HashDefinesNothing(rest: string)
    ensures LineKey("# " + rest) == None
  {
    var line := "# " + rest;
    assert TrimLeft(line) == line;
    TrimRightStops("#", " " + rest);
    assert line == "#" + (" " + rest);
  }

  // ----- what one entry adds -----

  function CommentLines(a: Addition): seq<string> {
    if a.comment == "" then [] else Split("# " + a.comment, '\n')
  }

  lemma EntryLines(a: Addition, value: string)
    requires Valid(a) && '\n' !in value
    ensures HasLines(Entry(a, value), CommentLines(a) + [a.key + "=" + value])
  {
    var line := a.key + "=" + value;
    assert '\n' !in line by { assert forall i :: 0 <= i < |a.key| ==> KeyChar(a.key[i]); }
    SplitWhole(line, '\n');
    SplitTerminated(line);
    if a.comment != "" {
      var c := "# " + a.comment;
      SplitTerminated(c);
      LinesAppend(c + "\n", CommentLines(a), line + "\n", [line]);
      assert Entry(a, value) == (c + "\n") + (line + "\n");
    } else {
      assert Entry(a, value) == line + "\n";
      assert CommentLines(a) + [line] == [line];
    }
  }

  /** A newline-free comment defines no key. */
  lemma PlainCommentDefinesNothing(a: Addition, key: string)
    requires '\n' !in a.comment
    ensures Defining(CommentLines(a), key) == 0
  {
    if a.comment != "" {
      assert '\n' !in "# " + a.comment;
      SplitWhole("# " + a.comment, '\n');
      HashDefinesNothing(a.comment);
    }
  }

  // ----- what the whole merge adds -----

  predicate SecretsOk(secrets: seq<Option<string>>) { forall s :: s in secrets ==> SecretOk(s) }

  /** The additions that get written, with their values. */
  function Written(existing: set<string>, adds: seq<Addition>, secrets: seq<Option<string>>): seq<(Addition, string)>
    requires |adds| == |secrets|
    decreases |adds|
  {
    if adds == [] then []
    else if adds[0].key in existing || ValueFor(adds[0], secrets[0]).None?
    then Written(existing, adds[1..], secrets[1..])
    else [(adds[0], ValueFor(adds[0], secrets[0]).value)]
         + Written(existing + {adds[0].key}, adds[1..], secrets[1..])
  }

  function LinesFor(ws: seq<(Addition, string)>): seq<string> {
    if ws == [] then [] else CommentLines(ws[0].0) + [ws[0].0.key + "=" + ws[0].1] + LinesFor(ws[1..])
  }

  function KeysFor(ws: seq<(Addition, string)>): seq<string> {
    if ws == [] then [] else [ws[0].0.key] + KeysFor(ws[1..])
  }

  lemma {:induction false} AppendWrites(text: string, lines: seq<string>, existing: set<string>,
                                        adds: seq<Addition>, secrets: seq<Option<string>>)
    requires |adds| == |secrets| && SecretsOk(secrets) && HasLines(text, lines)
    requires Append(text, existing, adds, secrets).Ok?
    ensures var r := Append(text, existing, adds, secrets).value;
            var ws := Written(existing, adds, secrets);
            text <= r.0 && HasLines(r.0, lines + LinesFor(ws)) && r.1 == KeysFor(ws)
    decreases |adds|
  {
    if adds == [] {
      assert lines + [] == lines;
    } else {
      assert secrets[0] in secrets;
      assert SecretsOk(secrets[1..]) by { assert forall s :: s in secrets[1..] ==> s in secrets; }
      if adds[0].key in existing {
        AppendWrites(text, lines, existing, adds[1..], secrets[1..]);
      } else {
        var v := ValueFor(adds[0], secrets[0]).value;
        var entry := CommentLines(adds[0]) + [adds[0].key + "=" + v];
        EntryLines(adds[0], v);
        LinesAppend(text, lines, Entry(adds[0], v), entry);
        AppendWrites(text + Entry(adds[0], v), lines + entry, existing + {adds[0].key}, adds[1..], secrets[1..]);
        var rest := LinesFor(Written(existing + {adds[0].key}, adds[1..], secrets[1..]));
        assert lines + entry + rest == lines + (entry + rest);
      }
    }
  }

  predicate AddsKey(adds: seq<Addition>, key: string) { exists a :: a in adds && a.key == key }

  /** What gets written is each missing key, once, in order of first mention. */
  lemma {:induction false} WrittenKeys(text: string, existing: set<string>, adds: seq<Addition>,
                                       secrets: seq<Option<string>>, key: string)
    requires |adds| == |secrets| && Append(text, existing, adds, secrets).Ok?
    ensures var keys := KeysFor(Written(existing, adds, secrets));
            (key in keys <==> key !in existing && AddsKey(adds, key))
            && multiset(keys)[key] <= 1
    decreases |adds|
  {
    if adds != [] {
      assert AddsKey(adds, key) <==> adds[0].key == key || AddsKey(adds[1..], key) by {
        assert forall a :: a in adds <==> a == adds[0] || a in adds[1..];
      }
      if adds[0].key in existing {
        WrittenKeys(text, existing, adds[1..], secrets[1..], key);
      } else {
        var v := ValueFor(adds[0], secrets[0]).value;
        WrittenKeys(text + Entry(adds[0], v), existing + {adds[0].key}, adds[1..], secrets[1..], key);
        var rest := KeysFor(Written(existing + {adds[0].key}, adds[1..], secrets[1..]));
        assert multiset([adds[0].key] + rest) == multiset{adds[0].key} + multiset(rest);
      }
    }
  }

  /** Definitions that ride in on the comments of the written additions. */
  function CommentDefining(ws: seq<(Addition, string)>, key: string): nat {
    if ws == [] then 0 else Defining(CommentLines(ws[0].0), key) + CommentDefining(ws[1..], key)
  }

  lemma {:induction false} LinesForDefine(ws: seq<(Addition, string)>, key: string)
    requires forall w :: w in ws ==> ValidKey(w.0.key)
    ensures Defining(LinesFor(ws), key) == multiset(KeysFor(ws))[key] + CommentDefining(ws, key)
  {
    if ws != [] {
      var w := ws[0];
      var line := w.0.key + "=" + w.1;
      assert w in ws;
      LinesForDefine(ws[1..], key);
      EntryDefinesKey(w.0.key, w.1);
      DefiningAppend(CommentLines(w.0), [line] + LinesFor(ws[1..]), key);
      assert CommentLines(w.0) + ([line] + LinesFor(ws[1..])) == LinesFor(ws);
      assert multiset(KeysFor(ws)) == multiset{w.0.key} + multiset(KeysFor(ws[1..]));
    }
  }

  lemma {:induction false} WrittenAreValid(text: string, existing: set<string>, adds: seq<Addition>,
                                           secrets: seq<Option<string>>)
    requires |adds| == |secrets| && Append(text, existing, adds, secrets).Ok?
    ensures forall w :: w in Written(existing, adds, secrets) ==> Valid(w.0) && w.0 in adds
    ensures forall a :: a in adds ==> Valid(a)
    decreases |adds|
  {
    if adds != [] {
      if adds[0].key in existing {
        WrittenAreValid(text, existing, adds[1..], secrets[1..]);
      } else {
        var v := ValueFor(adds[0], secrets[0]).value;
        WrittenAreValid(text + Entry(adds[0], v), existing + {adds[0].key}, adds[1..], secrets[1..]);
      }
      assert adds == [adds[0]] + adds[1..];
    }
  }

  // ----- the theorems -----

  /** The merged text starts with the old text, line for line, and the lines after it are
      exactly the written entries. */
  lemma MergeExtends(env: string, adds: seq<Addition>, secrets: seq<Option<string>>)
    requires |adds| == |secrets| && SecretsOk(secrets) && Merge(env, adds, secrets).Ok?
    ensures var r := Merge(env, adds, secrets).value;
            var ws := Written(KeysOf(env), adds, secrets);
            && env <= r.0 && r.1 == KeysFor(ws)
            && HasLines(r.0, OldLines(env) + LinesFor(ws))
            && Split(env, '\n') == OldLines(env) + (if Terminated(env) then [""] else [])
  {
    OldLinesIntact(env);
    AppendWrites(Closed(env), OldLines(env), KeysOf(env), adds, secrets);
  }

  /** Line counts, for every key: old definitions all stay, an absent key that is asked for gains
      exactly one however often it is asked for, and nothing else appears except what written
      comments smuggle in. */
  lemma MergeDefines(env: string, adds: seq<Addition>, secrets: seq<Option<string>>, key: string)
    requires |adds| == |secrets| && SecretsOk(secrets) && Merge(env, adds, secrets).Ok?
    ensures Defining(Split(Merge(env, adds, secrets).value.0, '\n'), key)
            == Defining(Split(env, '\n'), key)
               + (if key !in KeysOf(env) && AddsKey(adds, key) then 1 else 0)
               + CommentDefining(Written(KeysOf(env), adds, secrets), key)
  {
    var ws := Written(KeysOf(env), adds, secrets);
    var before := OldLines(env);
    MergeExtends(env, adds, secrets);
    WrittenKeys(Closed(env), KeysOf(env), adds, secrets, key);
    WrittenAreValid(Closed(env), KeysOf(env), adds, secrets);
    LinesForDefine(ws, key);
    BlankDefinesNothing(key);
    DefiningAppend(before, if Terminated(env) then [""] else [], key);
    DefiningAppend(before, LinesFor(ws), key);
    DefiningAppend(before + LinesFor(ws), [""], key);
  }

  // ----- which value each key gets -----

  /** Addition n is the first to ask for its key, and the text does not define it yet. */
  predicate Asks(existing: set<string>, adds: seq<Addition>, n: nat)
    requires n < |adds|
  {
    adds[n].key !in existing && forall m :: 0 <= m < n ==> adds[m].key != adds[n].key
  }

  /** A fresh secret where one was asked for, the default otherwise. */
  predicate RightValue(a: Addition, secret: Option<string>, value: string) {
    if a.generate == "secret" then secret == Some(value) else value == a.default
  }

  lemma {:induction false} AskedIsWritten(text: string, existing: set<string>, adds: seq<Addition>,
                                          secrets: seq<Option<string>>, n: nat) returns (value: string)
    requires |adds| == |secrets| && Append(text, existing, adds, secrets).Ok? && n < |adds| && Asks(existing, adds, n)
    ensures RightValue(adds[n], secrets[n], value) && (adds[n], value) in Written(existing, adds, secrets)
    decreases |adds|
  {
    if n == 0 {
      value := ValueFor(adds[0], secrets[0]).value;
    } else if adds[0].key in existing {
      value := AskedIsWritten(text, existing, adds[1..], secrets[1..], n - 1);
    } else {
      var v := ValueFor(adds[0], secrets[0]).value;
      value := AskedIsWritten(text + Entry(adds[0], v), existing + {adds[0].key}, adds[1..], secrets[1..], n - 1);
    }
  }

  lemma {:induction false} WrittenLine(ws: seq<(Addition, string)>, w: (Addition, string))
    requires w in ws
    ensures w.0.key + "=" + w.1 in LinesFor(ws)
    ensures w.0.comment != "" && '\n' !in w.0.comment ==> "# " + w.0.comment in LinesFor(ws)
  {
    if w != ws[0] { WrittenLine(ws[1..], w); }
    else if w.0.comment != "" && '\n' !in w.0.comment { SplitWhole("# " + w.0.comment, '\n'); }
  }

  /** The first addition that asks for a missing key decides its value: the line written is the generated secret
      exactly when that addition asked for one, and its default otherwise.  Its comment, if on one line, is kept. */
  lemma MergedValue(env: string, adds: seq<Addition>, secrets: seq<Option<string>>, n: nat) returns (value: string)
    requires |adds| == |secrets| && SecretsOk(secrets) && Merge(env, adds, secrets).Ok?
    requires n < |adds| && Asks(KeysOf(env), adds, n)
    ensures RightValue(adds[n], secrets[n], value)
    ensures adds[n].key + "=" + value in Split(Merge(env, adds, secrets).value.0, '\n')
    ensures LineKey(adds[n].key + "=" + value) == Some(adds[n].key)
    ensures adds[n].comment != "" && '\n' !in adds[n].comment ==>
              "# " + adds[n].comment in Split(Merge(env, adds, secrets).value.0, '\n')
  {
    value := AskedIsWritten(Closed(env), KeysOf(env), adds, secrets, n);
    var ws := Written(KeysOf(env), adds, secrets);
    MergeExtends(env, adds, secrets);
    WrittenLine(ws, (adds[n], value));
    WrittenAreValid(Closed(env), KeysOf(env), adds, secrets);
    EntryDefinesKey(adds[n].key, value);
  }

  /** Addition n stops the merge: it is not valid, or the secret it is the first to ask for cannot be made. */
  predicate Stops(existing: set<string>, adds: seq<Addition>, secrets: seq<Option<string>>, n: nat)
    requires |adds| == |secrets| && n < |adds|
  {
    !Valid(adds[n]) || (Asks(existing, adds, n) && adds[n].generate == "secret" && secrets[n].None?)
  }

  lemma StopsShift(existing: set<string>, adds: seq<Addition>, secrets: seq<Option<string>>, n: nat)
    requires |adds| == |secrets| && n + 1 < |adds|
    ensures Stops(existing, adds, secrets, n + 1) <==> Stops(existing + {adds[0].key}, adds[1..], secrets[1..], n)
  {
    var rest := adds[1..];
    assert forall m :: 0 <= m < |rest| ==> rest[m] == adds[m + 1];
    if Asks(existing + {adds[0].key}, rest, n) {
      forall m | 0 <= m < n + 1 ensures adds[m].key != adds[n + 1].key {
        if m > 0 { assert adds[m] == rest[m - 1]; }
      }
    }
  }

  /** The merge fails exactly when some addition stops it. */
  lemma {:induction false} AppendFailsIff(text: string, existing: set<string>, adds: seq<Addition>,
                                          secrets: seq<Option<string>>)
    requires |adds| == |secrets|
    ensures Append(text, existing, adds, secrets).Err? <==> exists n :: 0 <= n < |adds| && Stops(existing, adds, secrets, n)
    decreases |adds|
  {
    if adds != [] {
      var more, rest, left := existing + {adds[0].key}, adds[1..], secrets[1..];
      if Stops(existing, adds, secrets, 0) {
        assert Append(text, existing, adds, secrets).Err?;
      } else {
        if adds[0].key in existing {
          assert more == existing;
          AppendFailsIff(text, existing, rest, left);
        } else {
          AppendFailsIff(text + Entry(adds[0], ValueFor(adds[0], secrets[0]).value), more, rest, left);
        }
        StopsLater(existing, adds, secrets);
      }
    }
  }

  lemma StopsLater(existing: set<string>, adds: seq<Addition>, secrets: seq<Option<string>>)
    requires |adds| == |secrets| && adds != [] && !Stops(existing, adds, secrets, 0)
    ensures (exists n :: 0 <= n < |adds| && Stops(existing, adds, secrets, n))
            <==> exists n :: 0 <= n < |adds| - 1 && Stops(existing + {adds[0].key}, adds[1..], secrets[1..], n)
  {
    var more, rest, left := existing + {adds[0].key}, adds[1..], secrets[1..];
    if n :| 0 <= n < |adds| && Stops(existing, adds, secrets, n) {
      StopsShift(existing, adds, secrets, n - 1);
      assert Stops(more, rest, left, n - 1);
    }
    if n :| 0 <= n < |rest| && Stops(more, rest, left, n) {
      StopsShift(existing, adds, secrets, n);
    }
  }

  /** For the whole text: its keys are those that need not be asked for. */
  lemma MergeFailsIff(env: string, adds: seq<Addition>, secrets: seq<Option<string>>)
    requires |adds| == |secrets|
    ensures Merge(env, adds, secrets).Err? <==> exists n :: 0 <= n < |adds| && Stops(KeysOf(env), adds, secrets, n)
  {
    AppendFailsIff(Closed(env), KeysOf(env), adds, secrets);
  }

  lemma {:induction false} PlainComments(ws: seq<(Addition, string)>, key: string)
    requires forall w :: w in ws ==> '\n' !in w.0.comment
    ensures CommentDefining(ws, key) == 0
  {
    if ws != [] {
      assert ws[0] in ws;
      PlainCommentDefinesNothing(ws[0].0, key);
      PlainComments(ws[1..], key);
    }
  }

  /** With newline-free comments the merged text defines the old keys and the added ones, nothing
      else, and each missing key on exactly one line. */
  lemma MergeKeys(env: string, adds: seq<Addition>, secrets: seq<Option<string>>, key: string)
    requires |adds| == |secrets| && SecretsOk(secrets) && Merge(env, adds, secrets).Ok?
    requires forall a :: a in adds ==> '\n' !in a.comment
    ensures var text := Merge(env, adds, secrets).value.0;
            (key in KeysOf(text) <==> key in KeysOf(env) || AddsKey(adds, key))
            && (key !in KeysOf(env) && AddsKey(adds, key) ==> Defining(Split(text, '\n'), key) == 1)
            && (key in KeysOf(env) ==> Defining(Split(text, '\n'), key) == Defining(Split(env, '\n'), key))
  {
    MergeDefines(env, adds, secrets, key);
    WrittenAreValid(Closed(env), KeysOf(env), adds, secrets);
    PlainComments(Written(KeysOf(env), adds, secrets), key);
    KeysAreDefined(Split(env, '\n'), key);
    KeysAreDefined(Split(Merge(env, adds, secrets).value.0, '\n'), key);
  }

  /** A merge defines just the old and the requested keys exactly when no written comment carries a
      line defining some other key.  Validation does not look at comments. */
  lemma MergeKeysExactly(env: string, adds: seq<Addition>, secrets: seq<Option<string>>)
    requires |adds| == |secrets| && SecretsOk(secrets) && Merge(env, adds, secrets).Ok?
    ensures (forall key :: key in KeysOf(Merge(env, adds, secrets).value.0) <==> key in KeysOf(env) || AddsKey(adds, key))
            <==> (forall key :: CommentDefining(Written(KeysOf(env), adds, secrets), key) > 0 ==>
                                  key in KeysOf(env) || AddsKey(adds, key))
  {
    var text := Merge(env, adds, secrets).value.0;
    var ws := Written(KeysOf(env), adds, secrets);
    forall key ensures key in KeysOf(text) <==> key in KeysOf(env) || AddsKey(adds, key) || CommentDefining(ws, key) > 0 {
      MergeDefines(env, adds, secrets, key);
      KeysAreDefined(Split(env, '\n'), key);
      KeysAreDefined(Split(text, '\n'), key);
    }
  }

  lemma SecondLineDefines(a: Addition)
    requires a.comment == "note\nB=2"
    ensures Defining(CommentLines(a), "B") > 0
  {
    var first, second := "# note", "B=2";
    assert "# " + a.comment == first + ['\n'] + second;
    SplitAppend(first, second, '\n');
    SplitWhole(second, '\n');
    DefiningAppend(Split(first, '\n'), [second], "B");
    OneDefinition(second);
  }

  lemma OneDefinition(line: string)
    requires line == "B=2"
    ensures Defining([line], "B") == 1
  {
    EntryDefinesKey("B", "2");
    assert "B" + "=" + "2" == line && [line][..0] == [];
  }

  /** A valid addition whose comment has a second line can bring a key nobody asked for. */
  lemma CommentCanDefineKey(a: Addition)
    requires a == Addition("A", "1", "", "note\nB=2")
    ensures var r := Merge("", [a], [None]);
            Valid(a) && r.Ok? && "B" in KeysOf(r.value.0) && "B" !in KeysOf("") && !AddsKey([a], "B")
  {
    assert Trim("") == "" && KeysOf("") == {};
    var none: seq<Option<string>> := [None];
    assert [a][1..] == [] && none[1..] == [];
    assert Append(Closed("") + Entry(a, "1"), {} + {"A"}, [a][1..], none[1..]).Ok?;
    assert Append(Closed(""), {}, [a], none).Ok?;
    MergeDefines("", [a], none, "B");
    SecondLineDefines(a);
    assert Written({}, [a], none)[0].0 == a;
    KeysAreDefined(Split(Merge("", [a], none).value.0, '\n'), "B");
  }

  lemma {:induction false} NothingToAppend(text: string, existing: set<string>, adds: seq<Addition>,
                                           secrets: seq<Option<string>>)
    requires |adds| == |secrets| && forall a :: a in adds ==> Valid(a) && a.key in existing
    ensures Append(text, existing, adds, secrets) == Ok((text, []))
    decreases |adds|
  {
    if adds != [] {
      assert adds[0] in adds;
      NothingToAppend(text, existing, adds[1..], secrets[1..]);
    }
  }

  /** Merging again, whatever the random source now says, adds nothing and returns the same text. */
  lemma MergeTwice(env: string, adds: seq<Addition>, secrets: seq<Option<string>>, again: seq<Option<string>>)
    requires |adds| == |secrets| == |again| && SecretsOk(secrets) && Merge(env, adds, secrets).Ok?
    ensures Merge(Merge(env, adds, secrets).value.0, adds, again) == Ok((Merge(env, adds, secrets).value.0, []))
  {
    var text := Merge(env, adds, secrets).value.0;
    MergeExtends(env, adds, secrets);
    WrittenAreValid(Closed(env), KeysOf(env), adds, secrets);
    forall a | a in adds ensures a.key in KeysOf(text) {
      MergeDefines(env, adds, secrets, a.key);
      KeysAreDefined(Split(env, '\n'), a.key);
      KeysAreDefined(Split(text, '\n'), a.key);
    }
    NothingToAppend(text, KeysOf(text), adds, again);
  }

  // ----- the file -----

  /** The deployment's .env on disk. */
  class EnvFile {
    var content: string
    var writes: nat

    constructor (text: string)
      ensures content == text && writes == 0
    {
      content := text;
      writes := 0;
    }

    /** Rewrites the file only when a key was missing and the read and the merge succeeded.  Writing
        truncates first, so a write that breaks off leaves a prefix of the merged text. */
    method ApplyConfigAdditions(adds: seq<Addition>, secrets: seq<Option<string>>, readable: bool, write: WriteOutcome)
      returns (r: Result<seq<string>>)
      requires |adds| == |secrets|
      modifies this
      ensures var m := Merge(old(content), adds, secrets);
              if adds == [] || (readable && m.Ok? && m.value.1 == []) then r == Ok([]) && unchanged(this)
              else if !readable || m.Err? || write == OpenFailed then r == Err && unchanged(this)
              else writes == old(writes) + 1
                   && (write == Complete ==> r == Ok(m.value.1) && content == m.value.0)
                   && (write.BrokeOff? ==> r == Err && content <= m.value.0)
    {
      if adds == [] { return Ok([]); }
      if !readable { return Err; }
      var merged := MergeConfigAdditions(content, adds, secrets);
      if merged.Err? { return Err; }
      if |merged.value.1| == 0 { return Ok([]); }
      match write {
        case OpenFailed => return Err;
        case Complete =>
          content, writes := merged.value.0, writes + 1;
          return Ok(merged.value.1);
        case BrokeOff(n) =>
          content, writes := if n <= |merged.value.0| then merged.value.0[..n] else merged.value.0, writes + 1;
          return Err;
      }
    }
  }

  datatype WriteOutcome = OpenFailed | BrokeOff(bytes: nat) | Complete
}
