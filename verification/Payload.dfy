/** Fitting a tool result into the model's budget by halving its longest list. */
module Payload {
  import opened Wrappers
  import opened Text

  const MAX_BYTES: nat := 24000
  const MIN_ROWS: nat := 5

  /** A field of a tool result.  `Note` is the sentence telling the model how much it sees. */
  datatype Value = List(items: seq<Value>) | Num(n: nat) | Flag(b: bool) | Str(s: string)
                 | Note(shown: nat, total: nat, key: string) | TooLarge(bytes: nat)

  type Fields = map<string, Value>

  /** The encoded size of a result, or `None` when it cannot be encoded. */
  type Encoder = Fields -> Option<nat>

  predicate Fits(size: Encoder, m: Fields) { size(m).Some? && size(m).value <= MAX_BYTES }

  // ----- the longest list -----

  predicate IsList(m: Fields, k: string) { k in m && m[k].List? && m[k].items != [] }

  /** `k` is chosen before `j`: it holds more rows, or as many under a key that sorts first. */
  predicate Preferred(m: Fields, k: string, j: string)
    requires IsList(m, k) && IsList(m, j)
  {
    |m[k].items| > |m[j].items| || (|m[k].items| == |m[j].items| && LessEq(k, j))
  }

  lemma PreferredTrans(m: Fields, a: string, b: string, c: string)
    requires IsList(m, a) && IsList(m, b) && IsList(m, c) && Preferred(m, a, b) && Preferred(m, b, c)
    ensures Preferred(m, a, c)
  {
    if |m[a].items| == |m[b].items| == |m[c].items| { LessEqTrans(a, b, c); }
  }

  /** The key and rows of the longest list, ties going to the first key; "" when there is none. */
  method LargestList(m: Fields) returns (key: string, items: seq<Value>)
    ensures (forall k :: !IsList(m, k)) ==> key == "" && items == []
    ensures (exists k :: IsList(m, k)) ==>
              IsList(m, key) && m[key].items == items && forall j :: IsList(m, j) ==> Preferred(m, key, j)
  {
    var best: Option<string> := None;
    var left := m.Keys;
    while left != {}
      invariant left <= m.Keys
      invariant best.None? ==> forall k :: k in m && k !in left ==> !IsList(m, k)
      invariant best.Some? ==> IsList(m, best.value) && forall j :: IsList(m, j) && j !in left ==> Preferred(m, best.value, j)
    {
      var k :| k in left;
      left := left - {k};
      LessEqTotal(k, k);
      if IsList(m, k) {
        if best.None? { best := Some(k); }
        else if !Preferred(m, best.value, k) {
          LessEqTotal(k, best.value);
          forall j | IsList(m, j) && j !in left && j != k ensures Preferred(m, k, j) {
            PreferredTrans(m, k, best.value, j);
          }
          best := Some(k);
        }
      }
    }
    if best.None? { return "", []; }
    return best.value, m[best.value].items;
  }

  // ----- trimming -----

  /** The fields with the first `n` rows of the list under `key`, and what the model is told. */
  function Annotated(m: Fields, key: string, items: seq<Value>, n: nat): Fields
    requires n <= |items|
  {
    m[key := List(items[..n])]["truncated" := Flag(true)]["shown" := Num(n)]["total" := Num(|items|)]
     ["note" := Note(n, |items|, key)]
  }

  function Halved(keep: nat): nat { if keep / 2 < MIN_ROWS then MIN_ROWS else keep / 2 }

  /** The row count the halving stops at: the first that fits, or the floor. */
  function Stop(size: Encoder, m: Fields, key: string, items: seq<Value>, keep: nat): (n: nat)
    requires MIN_ROWS < keep <= |items|
    ensures MIN_ROWS <= n < keep
    ensures n == MIN_ROWS || Fits(size, Annotated(m, key, items, n))
    decreases keep
  {
    var next := Halved(keep);
    if Fits(size, Annotated(m, key, items, next)) || next == MIN_ROWS then next
    else Stop(size, m, key, items, next)
  }

  /** A result map on the heap, as callers share it. */
  class Result {
    var m: Fields

    constructor (fields: Fields)
      ensures m == fields
    {
      m := fields;
    }
  }

  function TrimmedFields(size: Encoder, m: Fields, key: string, items: seq<Value>): Fields {
    if |items| <= MIN_ROWS then m else Annotated(m, key, items, Stop(size, m, key, items, |items|))
  }

  /** Halves the longest list of a copy until the copy fits; the caller's map is not touched.  A result
      without a list, or whose longest list sits under the empty key, is replaced by a notice. */
  method TrimLargestList(src: Result, bytes: nat, size: Encoder) returns (out: Result, ghost key: string, ghost items: seq<Value>)
    ensures fresh(out)
    ensures (forall k :: !IsList(src.m, k)) ==> key == "" && items == []
    ensures (exists k :: IsList(src.m, k)) ==>
              IsList(src.m, key) && src.m[key].items == items && forall j :: IsList(src.m, j) ==> Preferred(src.m, key, j)
    ensures out.m == if key == "" then TooLargeNotice(bytes)
                     else TrimmedFields(size, src.m, key, items)
  {
    var k, rows := LargestList(src.m);
    key, items := k, rows;
    if k == "" {
      out := new Result(TooLargeNotice(bytes));
      return;
    }
    var total := |rows|;
    out := new Result(src.m);
    var keep := total;
    while keep > MIN_ROWS
      invariant fresh(out) && keep <= total
      invariant total <= MIN_ROWS ==> keep == total && out.m == src.m
      invariant total > MIN_ROWS ==> MIN_ROWS <= keep
      invariant keep == total ==> out.m == src.m
      invariant keep < total ==> out.m == Annotated(src.m, k, rows, keep)
      invariant total > MIN_ROWS && keep > MIN_ROWS ==> Stop(size, src.m, k, rows, total) == Stop(size, src.m, k, rows, keep)
      invariant total > MIN_ROWS && keep == MIN_ROWS ==> Stop(size, src.m, k, rows, total) == keep
      decreases keep
    {
      var next := keep / 2;
      if next < MIN_ROWS { next := MIN_ROWS; }
      out.m := out.m[k := List(rows[..next])];
      out.m := out.m["truncated" := Flag(true)];
      out.m := out.m["shown" := Num(next)];
      out.m := out.m["total" := Num(total)];
      out.m := out.m["note" := Note(next, total, k)];
      Reannotated(src.m, k, rows, keep, next);
      if Fits(size, out.m) { return; }
      keep := next;
    }
  }

  /** What a tool hands over: a result map, or something else of a given encoded size. */
  datatype Payload = Table(result: Result) | Other(bytes: Option<nat>)

  /** What the model is sent. */
  datatype Sent = Failed | Whole | Notice(bytes: nat) | Cut(fields: Fields)

  function Bytes(size: Encoder, p: Payload): Option<nat>
    reads if p.Table? then {p.result} else {}
  {
    if p.Table? then size(p.result.m) else p.bytes
  }

  predicate TooBig(size: Encoder, p: Payload)
    reads if p.Table? then {p.result} else {}
  {
    Bytes(size, p).Some? && Bytes(size, p).value > MAX_BYTES
  }

  function TooLargeNotice(bytes: nat): Fields { map["note" := TooLarge(bytes), "truncated" := Flag(true)] }

  /** What cannot be encoded is a failure. */
  function Encoded(size: Encoder, fields: Fields): Sent { if size(fields).Some? then Cut(fields) else Failed }

  /** The model gets the result as it is exactly when it fits.  A map that does not fit is cut so that it
      fits, or down to the five-row floor, or, having no list to cut, to a notice. */
  method EncodeToolResult(p: Payload, size: Encoder) returns (sent: Sent, ghost key: string, ghost items: seq<Value>)
    ensures sent.Whole? <==> Bytes(size, p).Some? && Bytes(size, p).value <= 24000
    ensures Bytes(size, p).None? ==> sent.Failed?
    ensures p.Other? && TooBig(size, p) ==> sent == Notice(p.bytes.value)
    ensures p.Table? && TooBig(size, p) ==>
              && ((forall k :: !IsList(p.result.m, k)) ==> key == "")
              && ((exists k :: IsList(p.result.m, k)) ==>
                    IsList(p.result.m, key) && p.result.m[key].items == items
                    && forall j :: IsList(p.result.m, j) ==> Preferred(p.result.m, key, j))
              && sent == Encoded(size, if key == "" then TooLargeNotice(Bytes(size, p).value)
                                       else TrimmedFields(size, p.result.m, key, items))
    ensures sent.Cut? && key != "" ==>
              Fits(size, sent.fields) || |items| <= 5 || sent.fields == Annotated(p.result.m, key, items, 5)
  {
    key, items := "", [];
    var raw := Bytes(size, p);
    if raw.None? { return Failed, key, items; }
    if raw.value <= MAX_BYTES { return Whole, key, items; }
    if !p.Table? { return Notice(raw.value), key, items; }
    var trimmed;
    trimmed, key, items := TrimLargestList(p.result, raw.value, size);
    if size(trimmed.m).None? { return Failed, key, items; }
    return Cut(trimmed.m), key, items;
  }

  /** Annotating again replaces the earlier annotation. */
  lemma Reannotated(m: Fields, key: string, items: seq<Value>, a: nat, b: nat)
    requires a <= |items| && b <= |items|
    ensures Annotated(Annotated(m, key, items, a), key, items, b) == Annotated(m, key, items, b)
  {
  }

  // ----- what is kept -----

  const RESERVED: set<string> := {"truncated", "shown", "total", "note"}

  /** The trimmed list is a prefix of the original and the reported counts match it, exactly when the
      list's key is not one of the four the trimming writes itself. */
  lemma RowsKeptIff(m: Fields, key: string, items: seq<Value>, n: nat)
    requires n <= |items|
    ensures (Annotated(m, key, items, n)[key] == List(items[..n])) <==> key !in RESERVED
    ensures Annotated(m, key, items, n)["note"] == Note(n, |items|, key) && Annotated(m, key, items, n)["truncated"] == Flag(true)
    ensures Annotated(m, key, items, n)["shown"] == Num(n) && Annotated(m, key, items, n)["total"] == Num(|items|)
    ensures forall k :: k in m && k != key && k !in RESERVED ==> Annotated(m, key, items, n)[k] == m[k]
  {
    var a := Annotated(m, key, items, n);
    assert a["truncated"] == Flag(true);
    if key in RESERVED {
      assert key == "truncated" || key == "shown" || key == "total" || key == "note";
      assert !a[key].List?;
    }
  }

  /** A list under the key "note" is lost, however short it is trimmed. */
  lemma NoteListIsLost(rows: seq<Value>, n: nat)
    requires n <= |rows|
    ensures Annotated(map["note" := List(rows)], "note", rows, n)["note"] == Note(n, |rows|, "note")
  {
    RowsKeptIff(map["note" := List(rows)], "note", rows, n);
  }

  /** Never fewer than five rows, or all of them when there are no more than five. */
  lemma FloorHolds(size: Encoder, m: Fields, key: string, items: seq<Value>)
    requires key !in RESERVED && key in m && m[key] == List(items)
    ensures var out := TrimmedFields(size, m, key, items);
            key in out && out[key].List? && out[key].items <= items
            && |out[key].items| >= if |items| < 5 then |items| else 5
  {
    if |items| > MIN_ROWS { RowsKeptIff(m, key, items, Stop(size, m, key, items, |items|)); }
  }

  /** Encoded size grows with the number of rows: a shorter prefix of a list that fits also fits. */
  ghost predicate Monotone(size: Encoder, m: Fields, key: string, items: seq<Value>) {
    forall a, b :: 0 <= a <= b <= |items| && Fits(size, Annotated(m, key, items, b)) ==> Fits(size, Annotated(m, key, items, a))
  }

  lemma {:induction false} StopIsHalf(size: Encoder, m: Fields, key: string, items: seq<Value>, keep: nat, most: nat)
    requires MIN_ROWS < keep <= |items| && Monotone(size, m, key, items)
    requires most < keep && Fits(size, Annotated(m, key, items, most))
    ensures var n := Stop(size, m, key, items, keep); n == MIN_ROWS || most <= 2 * n
    decreases keep
  {
    var next := Halved(keep);
    if !Fits(size, Annotated(m, key, items, next)) && next != MIN_ROWS {
      assert most < next;
      StopIsHalf(size, m, key, items, next, most);
    }
  }

  /** If encoded size grows with the prefix, the result is at the five-row floor or fits, and has then at least
      half the rows of any prefix that fits, rounded down.  It is half without rounding exactly unless that
      prefix is the whole list and the list has an odd number of rows. */
  lemma AtLeastHalf(size: Encoder, m: Fields, key: string, items: seq<Value>, most: nat)
    requires |items| > MIN_ROWS && Monotone(size, m, key, items)
    requires most <= |items| && Fits(size, Annotated(m, key, items, most))
    ensures var n := Stop(size, m, key, items, |items|);
            n == MIN_ROWS
            || (Fits(size, Annotated(m, key, items, n)) && n >= most / 2
                && (most <= 2 * n <==> most < |items| || |items| % 2 == 0))
  {
    if most < |items| {
      StopIsHalf(size, m, key, items, |items|, most);
    } else {
      var next := Halved(|items|);
      assert 0 <= next <= most <= |items|;
      assert Stop(size, m, key, items, |items|) == next;
    }
  }
}
