/** Runs of fixed-width fields read back to back, as the decoder reads the fixed
    part of the file header and the image subheader: a table of (key, width,
    form) entries, and where each field of the table ends up. */
module FixedFields {
  import opened Wrappers
  import opened Ascii
  import opened Fields
  import opened Decoding

  /** One fixed-width field: its key, its width in bytes and its form. */
  datatype Field = Field(key: string, width: nat, form: Form)

  predicate AllFit(t: seq<Field>)
  {
    forall i :: 0 <= i < |t| ==> Fits(t[i].form, t[i].width)
  }

  /** The reads of the table in order, each starting where the previous ended. */
  function Run(s: Stage, buf: seq<Byte>, t: seq<Field>): Result<Stage>
    requires AllFit(t)
    decreases |t|
  {
    if t == [] then Ok(s)
    else
      var next :- Step(s, buf, t[0].key, t[0].width, t[0].form);
      Run(next, buf, t[1..])
  }

  /** The bytes the table spans. */
  function Width(t: seq<Field>): nat
  {
    if t == [] then 0 else t[0].width + Width(t[1..])
  }

  /** Where field j begins, counted from the start of the table. */
  function Offset(t: seq<Field>, j: nat): nat
    requires j <= |t|
  {
    Width(t[..j])
  }

  /** No field of the table has this key. */
  predicate Absent(t: seq<Field>, key: string)
  {
    forall i :: 0 <= i < |t| ==> t[i].key != key
  }

  /** No two fields of the table share a key. */
  predicate Distinct(t: seq<Field>)
  {
    forall i, j :: 0 <= i < j < |t| ==> t[i].key != t[j].key
  }

  // ---------------------------------------------------------------------------
  // Properties of a run
  // ---------------------------------------------------------------------------

  /** Reading two tables back to back is reading their concatenation. */
  lemma {:induction false} RunAppend(s: Stage, buf: seq<Byte>, a: seq<Field>, b: seq<Field>)
    requires AllFit(a) && AllFit(b)
    ensures AllFit(a + b)
    ensures Run(s, buf, a + b) == if Run(s, buf, a).Err? then Run(s, buf, a) else Run(Run(s, buf, a).value, buf, b)
    decreases |a|
  {
    assert AllFit(a + b) by {
      forall i | 0 <= i < |a + b| ensures Fits((a + b)[i].form, (a + b)[i].width) {
        if i < |a| { assert (a + b)[i] == a[i]; } else { assert (a + b)[i] == b[i - |a|]; }
      }
    }
    if a != [] {
      assert (a + b)[0] == a[0];
      assert (a + b)[1..] == a[1..] + b;
      var r := Step(s, buf, a[0].key, a[0].width, a[0].form);
      if r.Ok? {
        RunAppend(r.value, buf, a[1..], b);
      }
    } else {
      assert a + b == b;
    }
  }

  /** A run that succeeds moves the cursor by the table's width, which lies in the
      buffer. */
  lemma {:induction false} RunCursor(s: Stage, buf: seq<Byte>, t: seq<Field>)
    requires AllFit(t) && Run(s, buf, t).Ok?
    ensures Run(s, buf, t).value.cursor == s.cursor + Width(t)
    ensures t != [] ==> s.cursor + Width(t) <= |buf|
    decreases |t|
  {
    if t != [] {
      var next := Step(s, buf, t[0].key, t[0].width, t[0].form).value;
      StepFacts(s, buf, t[0].key, t[0].width, t[0].form);
      RunCursor(next, buf, t[1..]);
    }
  }

  /** A run changes no key outside its table. */
  lemma {:induction false} RunFrame(s: Stage, buf: seq<Byte>, t: seq<Field>, key: string)
    requires AllFit(t) && Run(s, buf, t).Ok? && Absent(t, key)
    ensures Lookup(Run(s, buf, t).value.fields, key) == Lookup(s.fields, key)
    decreases |t|
  {
    if t != [] {
      var next := Step(s, buf, t[0].key, t[0].width, t[0].form).value;
      StepFacts(s, buf, t[0].key, t[0].width, t[0].form);
      RunFrame(next, buf, t[1..], key);
    }
  }

  lemma OffsetTail(t: seq<Field>, j: nat)
    requires 0 < j <= |t|
    ensures Offset(t, j) == t[0].width + Offset(t[1..], j - 1)
  {
    assert t[..j][1..] == t[1..][..j - 1];
  }

  /** Field j's slot starts at the run's start plus Offset(t, j), lies in the
      buffer, and is text unless it is the colour. */
  lemma {:induction false} RunSlot(s: Stage, buf: seq<Byte>, t: seq<Field>, j: nat)
    requires AllFit(t) && Run(s, buf, t).Ok? && j < |t|
    ensures var at := s.cursor + Offset(t, j);
      && at + t[j].width <= |buf|
      && (!t[j].form.Color? ==> AsciiSpan(buf, at, at + t[j].width))
    decreases |t|
  {
    var f := t[0];
    var next := Step(s, buf, f.key, f.width, f.form).value;
    StepFacts(s, buf, f.key, f.width, f.form);
    if j == 0 {
      assert t[..0] == [];
    } else {
      assert t[1..][j - 1] == t[j];
      RunSlot(next, buf, t[1..], j - 1);
      OffsetTail(t, j);
    }
  }

  /** The first field's key holds the entry of the first slot afterwards, when
      no later field has that key. */
  lemma RunFirstField(s: Stage, buf: seq<Byte>, t: seq<Field>)
    requires AllFit(t) && Run(s, buf, t).Ok? && Distinct(t) && |t| > 0
    ensures s.cursor + t[0].width <= |buf|
    ensures var v := SlotValue(buf, s.cursor, t[0].width, t[0].form);
      Lookup(Run(s, buf, t).value.fields, t[0].key) == if v.Some? then v else Lookup(s.fields, t[0].key)
  {
    var f := t[0];
    var next := Step(s, buf, f.key, f.width, f.form).value;
    StepFacts(s, buf, f.key, f.width, f.form);
    assert Absent(t[1..], f.key) by {
      forall i | 0 <= i < |t[1..]| ensures t[1..][i].key != f.key {
        assert t[1..][i] == t[i + 1];
      }
    }
    RunFrame(next, buf, t[1..], f.key);
  }

  /** Splitting a table of distinct keys before field j: both parts fit, the
      first lacks field j's key, the second starts with field j. */
  lemma SplitAt(t: seq<Field>, j: nat)
    requires AllFit(t) && Distinct(t) && j < |t|
    ensures t[..j] + t[j..] == t && t[j..][0] == t[j]
    ensures AllFit(t[..j]) && AllFit(t[j..]) && Distinct(t[j..]) && Absent(t[..j], t[j].key)
  {
    var a, b := t[..j], t[j..];
    assert AllFit(a) by {
      forall i | 0 <= i < |a| ensures Fits(a[i].form, a[i].width) { assert a[i] == t[i]; }
    }
    assert AllFit(b) by {
      forall i | 0 <= i < |b| ensures Fits(b[i].form, b[i].width) { assert b[i] == t[j + i]; }
    }
    assert Distinct(b) by {
      forall p, q | 0 <= p < q < |b| ensures b[p].key != b[q].key { assert b[p] == t[j + p] && b[q] == t[j + q]; }
    }
  }

  /** In a table whose keys are distinct, field j's key ends up holding the entry
      of its slot, or what it held before the run when the field is omitted: the
      fields before it leave the key alone and the run of the rest starts with it. */
  lemma RunField(s: Stage, buf: seq<Byte>, t: seq<Field>, j: nat)
    requires AllFit(t) && Run(s, buf, t).Ok? && Distinct(t) && j < |t|
    ensures s.cursor + Offset(t, j) + t[j].width <= |buf|
    ensures var v := SlotValue(buf, s.cursor + Offset(t, j), t[j].width, t[j].form);
      Lookup(Run(s, buf, t).value.fields, t[j].key) == if v.Some? then v else Lookup(s.fields, t[j].key)
  {
    var a, b := t[..j], t[j..];
    SplitAt(t, j);
    RunAppend(s, buf, a, b);
    var mid := Run(s, buf, a).value;
    RunCursor(s, buf, a);
    RunFrame(s, buf, a, t[j].key);
    RunFirstField(mid, buf, b);
  }

  /** The width of two tables read back to back is the sum of their widths. */
  lemma {:induction false} WidthAppend(a: seq<Field>, b: seq<Field>)
    ensures Width(a + b) == Width(a) + Width(b)
    decreases |a|
  {
    if a == [] {
      assert a + b == b;
    } else {
      assert (a + b)[1..] == a[1..] + b;
      WidthAppend(a[1..], b);
    }
  }

  /** Fields of a table appended to another keep their place after it. */
  lemma OffsetAppend(a: seq<Field>, b: seq<Field>, j: nat)
    requires j <= |b|
    ensures Offset(a + b, |a| + j) == Width(a) + Offset(b, j)
    ensures j < |b| ==> (a + b)[|a| + j] == b[j]
  {
    assert (a + b)[..|a| + j] == a + b[..j];
    WidthAppend(a, b[..j]);
  }

  /** Fields of a table keep their place when another is appended to it. */
  lemma OffsetPrefix(a: seq<Field>, b: seq<Field>, j: nat)
    requires j <= |a|
    ensures Offset(a + b, j) == Offset(a, j)
    ensures j < |a| ==> (a + b)[j] == a[j]
  {
    assert (a + b)[..j] == a[..j];
  }

  /** No key of a is a key of b. */
  predicate Disjoint(a: seq<Field>, b: seq<Field>)
  {
    forall i, j :: 0 <= i < |a| && 0 <= j < |b| ==> a[i].key != b[j].key
  }

  lemma DisjointAppend(a: seq<Field>, b: seq<Field>, c: seq<Field>)
    requires Disjoint(a, c) && Disjoint(b, c)
    ensures Disjoint(a + b, c)
  {
    forall i, j | 0 <= i < |a + b| && 0 <= j < |c| ensures (a + b)[i].key != c[j].key {
      if i < |a| { assert (a + b)[i] == a[i]; } else { assert (a + b)[i] == b[i - |a|]; }
    }
  }

  /** Two tables with distinct keys and no key in common append to a table with
      distinct keys, which is text only when both are. */
  lemma DistinctAppend(a: seq<Field>, b: seq<Field>)
    requires Distinct(a) && Distinct(b) && Disjoint(a, b)
    ensures Distinct(a + b)
    ensures TextOnly(a) && TextOnly(b) ==> TextOnly(a + b)
  {
    forall i, j | 0 <= i < j < |a + b| ensures (a + b)[i].key != (a + b)[j].key {
      if j < |a| {
        assert (a + b)[i] == a[i] && (a + b)[j] == a[j];
      } else if i < |a| {
        assert (a + b)[i] == a[i] && (a + b)[j] == b[j - |a|];
      } else {
        assert (a + b)[i] == b[i - |a|] && (a + b)[j] == b[j - |a|];
      }
    }
    if TextOnly(a) && TextOnly(b) {
      forall i | 0 <= i < |a + b| ensures !(a + b)[i].form.Color? {
        if i < |a| { assert (a + b)[i] == a[i]; } else { assert (a + b)[i] == b[i - |a|]; }
      }
    }
  }

  /** No field of the table is the colour, so every slot must be text. */
  predicate TextOnly(t: seq<Field>)
  {
    forall i :: 0 <= i < |t| ==> !t[i].form.Color?
  }

  /** A run over text fields succeeds exactly when the bytes it spans lie in the
      buffer and are ASCII. */
  lemma {:induction false} RunOk(s: Stage, buf: seq<Byte>, t: seq<Field>)
    requires AllFit(t) && TextOnly(t) && t != []
    ensures Run(s, buf, t).Ok? <==>
      s.cursor + Width(t) <= |buf| && AsciiSpan(buf, s.cursor, s.cursor + Width(t))
    decreases |t|
  {
    var f := t[0];
    var c := s.cursor;
    var r := Step(s, buf, f.key, f.width, f.form);
    if r.Ok? {
      StepFacts(s, buf, f.key, f.width, f.form);
      if t[1..] == [] {
        assert Width(t) == f.width;
      } else {
        RunOk(r.value, buf, t[1..]);
      }
    } else if c + Width(t) <= |buf| {
      assert c + f.width <= |buf|;
      assert !AsciiSpan(buf, c, c + f.width);
    }
  }

  /** One step reads only the slot at the cursor. */
  lemma StepLocal(s: Stage, b1: seq<Byte>, b2: seq<Byte>, f: Field)
    requires Fits(f.form, f.width)
    requires s.cursor + f.width <= |b1| && s.cursor + f.width <= |b2|
    requires b1[s.cursor..s.cursor + f.width] == b2[s.cursor..s.cursor + f.width]
    ensures Step(s, b1, f.key, f.width, f.form) == Step(s, b2, f.key, f.width, f.form)
  {
    var c := s.cursor;
    forall i | c <= i < c + f.width ensures b1[i] == b2[i] {
      assert b1[i] == b1[c..c + f.width][i - c];
    }
    assert AsciiSpan(b1, c, c + f.width) == AsciiSpan(b2, c, c + f.width);
  }

  /** A run reads nothing outside the bytes it spans: two buffers that agree on
      them give the same result. */
  lemma {:induction false} RunLocal(s: Stage, b1: seq<Byte>, b2: seq<Byte>, t: seq<Field>)
    requires AllFit(t)
    requires s.cursor + Width(t) <= |b1| && s.cursor + Width(t) <= |b2|
    requires b1[s.cursor..s.cursor + Width(t)] == b2[s.cursor..s.cursor + Width(t)]
    ensures Run(s, b1, t) == Run(s, b2, t)
    decreases |t|
  {
    if t != [] {
      var f := t[0];
      var c := s.cursor;
      var w := Width(t);
      assert w == f.width + Width(t[1..]);
      assert b1[c..c + f.width] == b1[c..c + w][..f.width];
      assert b2[c..c + f.width] == b2[c..c + w][..f.width];
      StepLocal(s, b1, b2, f);
      var r := Step(s, b1, f.key, f.width, f.form);
      if r.Ok? {
        assert r.value.cursor == c + f.width;
        assert b1[c + f.width..c + w] == b1[c..c + w][f.width..];
        assert b2[c + f.width..c + w] == b2[c..c + w][f.width..];
        RunLocal(r.value, b1, b2, t[1..]);
      }
    }
  }

  // ---------------------------------------------------------------------------
  // Several tables read back to back
  // ---------------------------------------------------------------------------

  /** The first k tables of ts are read back to back: run m takes r[m] to r[m + 1]. */
  predicate LinkedBelow(buf: seq<Byte>, ts: seq<seq<Field>>, r: seq<Stage>, k: nat)
  {
    && k <= |ts| && |r| == |ts| + 1
    && forall m :: 0 <= m < k ==> AllFit(ts[m]) && Run(r[m], buf, ts[m]) == Ok(r[m + 1])
  }

  /** All tables of ts are read back to back, r[|ts|] being the state after the last. */
  predicate Chained(buf: seq<Byte>, ts: seq<seq<Field>>, r: seq<Stage>)
  {
    LinkedBelow(buf, ts, r, |ts|)
  }

  /** Table m of ts spans starts[m] to starts[m + 1]. */
  predicate Spans(ts: seq<seq<Field>>, starts: seq<nat>)
  {
    && |starts| == |ts| + 1
    && forall m :: 0 <= m < |ts| ==> starts[m] + Width(ts[m]) == starts[m + 1]
  }

  /** Key occurs in no table of ts but possibly table k. */
  predicate OnlyIn(ts: seq<seq<Field>>, k: nat, key: string)
  {
    forall m :: 0 <= m < |ts| && m != k ==> Absent(ts[m], key)
  }

  /** The state before run m stands at starts[m]. */
  lemma {:induction false} ChainCursor(buf: seq<Byte>, ts: seq<seq<Field>>, starts: seq<nat>, r: seq<Stage>, m: nat)
    requires Chained(buf, ts, r) && Spans(ts, starts) && r[0].cursor == starts[0] && m <= |ts|
    ensures r[m].cursor == starts[m]
  {
    if m > 0 {
      ChainCursor(buf, ts, starts, r, m - 1);
      assert AllFit(ts[m - 1]) && Run(r[m - 1], buf, ts[m - 1]) == Ok(r[m]);
      RunCursor(r[m - 1], buf, ts[m - 1]);
    }
  }

  /** Runs a to b leave a key none of their tables has as it was. */
  lemma {:induction false} ChainKeeps(buf: seq<Byte>, ts: seq<seq<Field>>, r: seq<Stage>, a: nat, b: nat, key: string)
    requires Chained(buf, ts, r) && a <= b <= |ts|
    requires forall m :: a <= m < b ==> Absent(ts[m], key)
    ensures Lookup(r[b].fields, key) == Lookup(r[a].fields, key)
    decreases b - a
  {
    if a < b {
      assert AllFit(ts[a]) && Run(r[a], buf, ts[a]) == Ok(r[a + 1]);
      RunFrame(r[a], buf, ts[a], key);
      ChainKeeps(buf, ts, r, a + 1, b, key);
    }
  }

  /** Field j of table k, whose key no other table has and the start state does
      not hold, ends up after the last run as the entry of its slot at
      starts[k] + Offset(ts[k], j), or absent when the field is omitted. */
  lemma ChainField(buf: seq<Byte>, ts: seq<seq<Field>>, starts: seq<nat>, r: seq<Stage>, k: nat, j: nat)
    requires Chained(buf, ts, r) && Spans(ts, starts) && r[0].cursor == starts[0]
    requires k < |ts| && j < |ts[k]| && Distinct(ts[k])
    requires OnlyIn(ts, k, ts[k][j].key) && ts[k][j].key !in r[0].fields
    ensures AllFit(ts[k])
    ensures var f := ts[k][j];
      var at := starts[k] + Offset(ts[k], j);
      && at + f.width <= |buf|
      && (!f.form.Color? ==> AsciiSpan(buf, at, at + f.width))
      && Lookup(r[|ts|].fields, f.key) == SlotValue(buf, at, f.width, f.form)
  {
    var key := ts[k][j].key;
    ChainCursor(buf, ts, starts, r, k);
    assert AllFit(ts[k]) && Run(r[k], buf, ts[k]) == Ok(r[k + 1]);
    RunSlot(r[k], buf, ts[k], j);
    RunField(r[k], buf, ts[k], j);
    ChainKeeps(buf, ts, r, 0, k, key);
    ChainKeeps(buf, ts, r, k + 1, |ts|, key);
  }
}
