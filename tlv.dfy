/** The tag-length-value areas at the end of the file header: the user-defined
    header data and the extended header data. Each entry is a 6-byte tag, a
    5-digit length L and L bytes of value; the decoder walks entries until the
    position reaches the area's bound. */
module Tlv {
  import opened Wrappers
  import opened Ascii
  import opened Numbers

  const TagWidth: nat := 6
  const LengthWidth: nat := 5

  /** One entry as it stands in the buffer. */
  datatype Entry = Entry(tag: seq<Byte>, length: seq<Byte>, value: seq<Byte>)

  function Size(e: Entry): nat
  {
    |e.tag| + |e.length| + |e.value|
  }

  /** The bytes an entry occupies. */
  function EncodeEntry(e: Entry): seq<Byte>
  {
    e.tag + e.length + e.value
  }

  /** The bytes a run of entries occupies. */
  function Encode(es: seq<Entry>): seq<Byte>
  {
    if es == [] then [] else EncodeEntry(es[0]) + Encode(es[1..])
  }

  /** The value length an entry at absolute position p declares, if its length
      field is all digits. */
  function DeclaredLength(buf: seq<Byte>, p: nat): Option<nat>
    requires p + TagWidth + LengthWidth <= |buf|
  {
    CountValue(buf[p + TagWidth..p + TagWidth + LengthWidth])
  }

  /** An entry can be read at p: its tag and value lie in the buffer and are
      text, and its length field is all digits. */
  predicate EntryReadable(buf: seq<Byte>, p: nat)
  {
    && p + TagWidth + LengthWidth <= |buf|
    && AsciiSpan(buf, p, p + TagWidth)
    && DeclaredLength(buf, p).Some?
    && p + TagWidth + LengthWidth + DeclaredLength(buf, p).value <= |buf|
    && AsciiSpan(buf, p + TagWidth + LengthWidth, p + TagWidth + LengthWidth + DeclaredLength(buf, p).value)
  }

  function EntryAt(buf: seq<Byte>, p: nat): (e: Entry)
    requires EntryReadable(buf, p)
    ensures Size(e) == TagWidth + LengthWidth + DeclaredLength(buf, p).value
  {
    var v := p + TagWidth + LengthWidth;
    Entry(buf[p..p + TagWidth], buf[p + TagWidth..v], buf[v..v + DeclaredLength(buf, p).value])
  }

  /** The entries the decoder reads from the area starting at `base`, from area
      position i on: while i < bound, one entry at base + i, then i grows by the
      entry's size. An entry that cannot be read fails at its own offset. */
  function Walk(buf: seq<Byte>, base: nat, i: nat, bound: nat): Result<seq<Entry>>
    decreases bound - i
  {
    if i >= bound then Ok([])
    else if !EntryReadable(buf, base + i) then Err(MalformedTlv(base + i))
    else
      var e := EntryAt(buf, base + i);
      var rest :- Walk(buf, base, i + Size(e), bound);
      Ok([e] + rest)
  }

  /** `map.insert(tag, value.trim())` for each entry, in order. */
  function Apply(m: FieldMap, es: seq<Entry>): FieldMap
  {
    if es == [] then m
    else Apply(m, es[..|es| - 1])[Text(es[|es| - 1].tag) := Trim(Text(es[|es| - 1].value))]
  }

  function Prepend(done: seq<Entry>, rest: Result<seq<Entry>>): Result<seq<Entry>>
  {
    if rest.Ok? then Ok(done + rest.value) else rest
  }

  lemma {:induction false} EncodeAppend(es: seq<Entry>, e: Entry)
    ensures Encode(es + [e]) == Encode(es) + EncodeEntry(e)
  {
    if es != [] {
      assert (es + [e])[1..] == es[1..] + [e];
      EncodeAppend(es[1..], e);
    }
  }

  // ---------------------------------------------------------------------------
  // Properties of the walk
  // ---------------------------------------------------------------------------

  /** Every entry walked has a 6-byte tag, a 5-digit length and exactly as many
      value bytes as its length field declares. */
  predicate WellFormed(e: Entry)
  {
    |e.tag| == TagWidth && |e.length| == LengthWidth && AllDigits(Text(e.length))
    && CountValue(e.length) == Some(|e.value|)
  }

  /** One turn of the walk: an entry is read at base + i and the rest of the walk
      continues after it. */
  lemma WalkUnfold(buf: seq<Byte>, base: nat, i: nat, bound: nat)
    requires i < bound && Walk(buf, base, i, bound).Ok?
    ensures EntryReadable(buf, base + i)
    ensures var e := EntryAt(buf, base + i);
      && Walk(buf, base, i + Size(e), bound).Ok?
      && Walk(buf, base, i, bound).value == [e] + Walk(buf, base, i + Size(e), bound).value
  {
  }

  /** An entry occupies exactly the bytes it was read from. */
  lemma EntryBytes(buf: seq<Byte>, p: nat)
    requires EntryReadable(buf, p)
    ensures p + Size(EntryAt(buf, p)) <= |buf|
    ensures EncodeEntry(EntryAt(buf, p)) == buf[p..p + Size(EntryAt(buf, p))]
  {
    var e := EntryAt(buf, p);
    var l := p + TagWidth;
    var v := l + LengthWidth;
    var end := v + |e.value|;
    assert e.tag == buf[p..l] && e.length == buf[l..v] && e.value == buf[v..end];
    assert buf[p..end] == buf[p..l] + buf[l..v] + buf[v..end];
  }

  /** The bookkeeping of a loop that walks the area: the whole walk is the
      entries done so far followed by the walk from position i. */
  predicate Tracks(buf: seq<Byte>, base: nat, bound: nat, done: seq<Entry>, i: nat)
  {
    Walk(buf, base, 0, bound) == Prepend(done, Walk(buf, base, i, bound))
  }

  lemma TracksStart(buf: seq<Byte>, base: nat, bound: nat)
    ensures Tracks(buf, base, bound, [], 0)
  {
    var w := Walk(buf, base, 0, bound);
    if w.Ok? {
      assert [] + w.value == w.value;
    }
  }

  /** One more entry read at base + i keeps the bookkeeping. */
  lemma WalkAdvance(buf: seq<Byte>, base: nat, bound: nat, done: seq<Entry>, i: nat, e: Entry,
                    done': seq<Entry>, i': nat)
    requires Tracks(buf, base, bound, done, i)
    requires i < bound && EntryReadable(buf, base + i) && e == EntryAt(buf, base + i)
    requires done' == done + [e] && i' == i + Size(e)
    ensures Tracks(buf, base, bound, done', i')
  {
    var rest := Walk(buf, base, i', bound);
    if rest.Ok? {
      assert Walk(buf, base, i, bound) == Ok([e] + rest.value);
      assert done + ([e] + rest.value) == done' + rest.value;
    }
  }

  /** Applying one more entry sets its key to its trimmed value. */
  lemma ApplySnoc(m: FieldMap, done: seq<Entry>, e: Entry)
    ensures Apply(m, done + [e]) == Apply(m, done)[Text(e.tag) := Trim(Text(e.value))]
  {
    assert (done + [e])[..|done|] == done;
  }

  /** One turn of a loop that walks the area and applies each entry as it reads
      it: the bookkeeping, the position and the map all move on together. */
  lemma WalkTurn(buf: seq<Byte>, base: nat, bound: nat, m: FieldMap, done: seq<Entry>, i: nat, e: Entry,
                 done': seq<Entry>, i': nat)
    requires Tracks(buf, base, bound, done, i) && i == |Encode(done)|
    requires i < bound && EntryReadable(buf, base + i) && e == EntryAt(buf, base + i)
    requires done' == done + [e] && i' == i + Size(e)
    ensures Tracks(buf, base, bound, done', i')
    ensures i' == |Encode(done')|
    ensures Apply(m, done') == Apply(m, done)[Text(e.tag) := Trim(Text(e.value))]
  {
    WalkAdvance(buf, base, bound, done, i, e, done', i');
    EncodeAppend(done, e);
    ApplySnoc(m, done, e);
  }

  /** An entry that cannot be read ends the walk with an error at its offset. */
  lemma WalkFailsAt(buf: seq<Byte>, base: nat, bound: nat, done: seq<Entry>, i: nat)
    requires Tracks(buf, base, bound, done, i)
    requires i < bound && !EntryReadable(buf, base + i)
    ensures Walk(buf, base, 0, bound) == Err(MalformedTlv(base + i))
  {
  }

  /** At or past the bound, the walk is exactly the entries done. */
  lemma WalkEnds(buf: seq<Byte>, base: nat, bound: nat, done: seq<Entry>, i: nat)
    requires Tracks(buf, base, bound, done, i) && i >= bound
    ensures Walk(buf, base, 0, bound) == Ok(done)
  {
    assert done + [] == done;
  }

  /** An entry read from the buffer has the widths of its fields and as many
      value bytes as its length field declares. */
  lemma EntryWellFormed(buf: seq<Byte>, p: nat)
    requires EntryReadable(buf, p)
    ensures WellFormed(EntryAt(buf, p))
  {
    var e := EntryAt(buf, p);
    assert e.length == buf[p + TagWidth..p + TagWidth + LengthWidth];
  }

  /** The entries re-encode to the bytes of `buf` from `pos` on. */
  predicate Covers(buf: seq<Byte>, pos: nat, es: seq<Entry>)
  {
    pos + |Encode(es)| <= |buf| && Encode(es) == buf[pos..pos + |Encode(es)|]
  }

  /** An entry read at p followed by entries that re-encode to the bytes right
      after it re-encode, together, to the bytes from p on. */
  lemma EncodeCons(buf: seq<Byte>, p: nat, es: seq<Entry>, rest: seq<Entry>)
    requires EntryReadable(buf, p)
    requires es == [EntryAt(buf, p)] + rest
    requires Covers(buf, p + Size(EntryAt(buf, p)), rest)
    ensures Covers(buf, p, es)
  {
    var e := EntryAt(buf, p);
    EntryBytes(buf, p);
    var n := |Encode(rest)|;
    assert es[1..] == rest;
    assert buf[p..p + Size(e) + n] == buf[p..p + Size(e)] + buf[p + Size(e)..p + Size(e) + n];
  }

  /** One turn of the walk keeps the re-encoding: if the walk after the entry at
      base + i covers the bytes after it, the walk from base + i covers the
      bytes from base + i. */
  lemma CoversStep(buf: seq<Byte>, base: nat, i: nat, j: nat, bound: nat)
    requires i < bound && Walk(buf, base, i, bound).Ok?
    requires EntryReadable(buf, base + i) && j == i + Size(EntryAt(buf, base + i))
    requires Walk(buf, base, j, bound).Ok? && Covers(buf, base + j, Walk(buf, base, j, bound).value)
    ensures Covers(buf, base + i, Walk(buf, base, i, bound).value)
  {
    WalkUnfold(buf, base, i, bound);
    EncodeCons(buf, base + i, Walk(buf, base, i, bound).value, Walk(buf, base, j, bound).value);
  }

  /** Re-encoding the walked entries gives back, byte for byte, the part of the
      area the walk covered. */
  lemma {:induction false} WalkRoundTrip(buf: seq<Byte>, base: nat, i: nat, bound: nat)
    requires base + i <= |buf| && Walk(buf, base, i, bound).Ok?
    ensures Covers(buf, base + i, Walk(buf, base, i, bound).value)
    decreases bound - i
  {
    if i < bound {
      WalkUnfold(buf, base, i, bound);
      var j := i + Size(EntryAt(buf, base + i));
      WalkRoundTrip(buf, base, j, bound);
      CoversStep(buf, base, i, j, bound);
    }
  }

  predicate AllWellFormed(es: seq<Entry>)
  {
    forall k :: 0 <= k < |es| ==> WellFormed(es[k])
  }

  lemma WellFormedCons(e: Entry, rest: seq<Entry>)
    requires WellFormed(e) && AllWellFormed(rest)
    ensures AllWellFormed([e] + rest)
  {
    forall k | 0 <= k < |[e] + rest| ensures WellFormed(([e] + rest)[k]) {
      if k > 0 { assert ([e] + rest)[k] == rest[k - 1]; }
    }
  }

  /** Every walked entry is well formed. */
  lemma {:induction false} WalkWellFormed(buf: seq<Byte>, base: nat, i: nat, bound: nat)
    requires Walk(buf, base, i, bound).Ok?
    ensures AllWellFormed(Walk(buf, base, i, bound).value)
    decreases bound - i
  {
    if i < bound {
      WalkUnfold(buf, base, i, bound);
      var e := EntryAt(buf, base + i);
      var j := i + Size(e);
      EntryWellFormed(buf, base + i);
      WalkWellFormed(buf, base, j, bound);
      var rest := Walk(buf, base, j, bound).value;
      WellFormedCons(e, rest);
      assert Walk(buf, base, i, bound).value == [e] + rest;
    }
  }

  /** The walk ends as soon as the position reaches the bound: it ends at or past
      the bound, it reads nothing when it starts at or past the bound, and its last
      entry starts before the bound. */
  lemma {:induction false} WalkStops(buf: seq<Byte>, base: nat, i: nat, bound: nat)
    requires Walk(buf, base, i, bound).Ok?
    ensures var es := Walk(buf, base, i, bound).value;
      && i + |Encode(es)| >= bound
      && (es == [] <==> i >= bound)
      && (es != [] ==> i + |Encode(es)| - Size(es[|es| - 1]) < bound)
    decreases bound - i
  {
    if i < bound {
      WalkUnfold(buf, base, i, bound);
      var e := EntryAt(buf, base + i);
      var j := i + Size(e);
      assert Walk(buf, base, j, bound).Ok?;
      WalkStops(buf, base, j, bound);
      var es := Walk(buf, base, i, bound).value;
      var rest := Walk(buf, base, j, bound).value;
      assert es[1..] == rest;
      assert |Encode(es)| == Size(e) + |Encode(rest)|;
      if rest != [] {
        assert es[|es| - 1] == rest[|rest| - 1];
      }
    }
  }

  /** A walk from `base` that succeeds reads entries that are well formed and
      re-encode to the bytes they were read from, and that reach at least
      `bound` bytes past `base`, inside the buffer. */
  lemma WalkLayout(buf: seq<Byte>, base: nat, bound: nat)
    requires base <= |buf| && Walk(buf, base, 0, bound).Ok?
    ensures var es := Walk(buf, base, 0, bound).value;
      && base + bound <= base + |Encode(es)| <= |buf|
      && Encode(es) == buf[base..base + |Encode(es)|]
      && forall k :: 0 <= k < |es| ==> WellFormed(es[k])
  {
    WalkRoundTrip(buf, base, 0, bound);
    WalkWellFormed(buf, base, 0, bound);
    WalkStops(buf, base, 0, bound);
  }

  /** Entries only ever add keys of six characters; every other key keeps its
      presence and value. */
  lemma ApplyKeepsOtherKeys(m: FieldMap, es: seq<Entry>, key: string)
    requires forall k :: 0 <= k < |es| ==> |es[k].tag| == TagWidth
    requires |key| != TagWidth
    ensures Lookup(Apply(m, es), key) == Lookup(m, key)
  {
    forall k | 0 <= k < |es|
      ensures Text(es[k].tag) != key
    {
      assert |Text(es[k].tag)| == TagWidth;
    }
    ApplyKeepsUntagged(m, es, key);
  }

  /** A key no entry is tagged with keeps its presence and value. */
  lemma {:induction false} ApplyKeepsUntagged(m: FieldMap, es: seq<Entry>, key: string)
    requires forall k :: 0 <= k < |es| ==> Text(es[k].tag) != key
    ensures Lookup(Apply(m, es), key) == Lookup(m, key)
  {
    if es != [] {
      ApplyKeepsUntagged(m, es[..|es| - 1], key);
    }
  }

  /** The entries are inserted in order, so a tag holds the trimmed value of its
      last entry. */
  lemma {:induction false} ApplyLastWins(m: FieldMap, es: seq<Entry>, j: nat)
    requires j < |es|
    requires forall k :: j < k < |es| ==> Text(es[k].tag) != Text(es[j].tag)
    ensures Lookup(Apply(m, es), Text(es[j].tag)) == Some(Trim(Text(es[j].value)))
  {
    if j < |es| - 1 {
      var init := es[..|es| - 1];
      assert init[j] == es[j];
      ApplyLastWins(m, init, j);
    }
  }
}
