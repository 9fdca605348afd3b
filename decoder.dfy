/** The decoder's moving parts: a cursor over the file's bytes and the field map
    it fills. Every parse function of the source keeps these two as local
    variables and advances them read by read; `Decoder` holds them as fields, and
    each of its methods is one kind of read the source repeats. */
module Decoding {
  import opened Wrappers
  import opened Ascii
  import opened Numbers
  import opened Fields
  import opened Groups
  import opened Tlv

  /** The decoder's state between two reads. */
  datatype Stage = Stage(fields: FieldMap, cursor: nat)

  // ---------------------------------------------------------------------------
  // What each read does, as a function of the state before it
  // ---------------------------------------------------------------------------

  /** One fixed-width field at the cursor: the slot is inserted under `key` in its
      form, and the cursor moves past it. */
  function Step(s: Stage, buf: seq<Byte>, key: string, width: nat, form: Form): Result<Stage>
    requires Fits(form, width)
  {
    if !SlotReadable(buf, s.cursor, width, form) then Err(SlotError(buf, s.cursor, width))
    else Ok(Stage(Put(s.fields, key, SlotValue(buf, s.cursor, width, form)), s.cursor + width))
  }

  /** What one read does: the cursor moves past the slot, which lay inside the
      buffer (and was text, unless it is the colour); the slot's entry replaces
      whatever `key` held, unless the field is omitted; no other key changes. */
  lemma StepFacts(s: Stage, buf: seq<Byte>, key: string, width: nat, form: Form)
    requires Fits(form, width) && Step(s, buf, key, width, form).Ok?
    ensures var t := Step(s, buf, key, width, form).value;
      && t.cursor == s.cursor + width && s.cursor + width <= |buf|
      && (!form.Color? ==> AsciiSpan(buf, s.cursor, s.cursor + width))
      && Lookup(t.fields, key) == (if SlotValue(buf, s.cursor, width, form).Some?
                                   then SlotValue(buf, s.cursor, width, form) else Lookup(s.fields, key))
      && forall k :: k != key ==> Lookup(t.fields, k) == Lookup(s.fields, k)
  {
  }

  /** A group of the file header: the 3-digit count stored as read, then `count`
      (subheader length, segment length) pairs. The pairs are checked as one run,
      so a run that cannot be read fails at the run's first byte. */
  function GroupStep(s: Stage, buf: seq<Byte>, g: Group): Result<Stage>
  {
    var c := s.cursor;
    if !SlotReadable(buf, c, CountWidth, Raw) then Err(SlotError(buf, c, CountWidth))
    else match CountValue(buf[c..c + CountWidth])
      case None => Err(MalformedCount(c))
      case Some(n) =>
        var at := c + CountWidth;
        if !PairsReadable(buf, at, g, n) then Err(SlotError(buf, at, n * PairWidth(g)))
        else Ok(Stage(PairFields(s.fields[g.countKey := Text(buf[c..at])], buf, at, g, n),
                      at + n * PairWidth(g)))
  }

  const AreaLengthWidth: nat := 5
  const OverflowWidth: nat := 3

  /** The user-defined header data: UDHDL as read; when it is not zero, UDHOFL as
      read and the entries of an area UDHDL bytes long, after which the cursor
      stands past the last entry. */
  function UserStep(s: Stage, buf: seq<Byte>): Result<Stage>
  {
    var c := s.cursor;
    if !SlotReadable(buf, c, AreaLengthWidth, Raw) then Err(SlotError(buf, c, AreaLengthWidth))
    else match CountValue(buf[c..c + AreaLengthWidth])
      case None => Err(MalformedCount(c))
      case Some(n) =>
        var o := c + AreaLengthWidth;
        var m := s.fields["UDHDL" := Text(buf[c..o])];
        if n == 0 then Ok(Stage(m, o))
        else if !SlotReadable(buf, o, OverflowWidth, Raw) then Err(SlotError(buf, o, OverflowWidth))
        else
          var es :- Walk(buf, o + OverflowWidth, 0, n);
          Ok(Stage(Apply(m["UDHOFL" := Text(buf[o..o + OverflowWidth])], es),
                   o + OverflowWidth + |Encode(es)|))
  }

  /** The extended header data: XHDL as read; when it is not zero, XHOFL trimmed
      and the entries of an area XHDL - 3 bytes long. The cursor stays just past
      XHOFL. An XHDL of 1 or 2 leaves no room for XHOFL, which the source
      computes as a usize underflow; here it fails. */
  function ExtendedStep(s: Stage, buf: seq<Byte>): Result<Stage>
  {
    var c := s.cursor;
    if !SlotReadable(buf, c, AreaLengthWidth, Raw) then Err(SlotError(buf, c, AreaLengthWidth))
    else match CountValue(buf[c..c + AreaLengthWidth])
      case None => Err(MalformedCount(c))
      case Some(n) =>
        var o := c + AreaLengthWidth;
        var m := s.fields["XHDL" := Text(buf[c..o])];
        if n == 0 then Ok(Stage(m, o))
        else if !SlotReadable(buf, o, OverflowWidth, Trimmed) then Err(SlotError(buf, o, OverflowWidth))
        else if n < OverflowWidth then Err(MalformedTlv(o + OverflowWidth))
        else
          var es :- Walk(buf, o + OverflowWidth, 0, n - OverflowWidth);
          Ok(Stage(Apply(m["XHOFL" := Trim(Text(buf[o..o + OverflowWidth]))], es), o + OverflowWidth))
  }

  /** A method's outcome and the state it leaves agree with what a step function
      computes from the state before it. */
  predicate Agrees(o: Outcome, r: Result<Stage>, after: Stage)
  {
    && (o.Pass? <==> r.Ok?)
    && (r.Ok? ==> after == r.value)
    && (r.Err? ==> o.error == r.error)
  }

  // ---------------------------------------------------------------------------
  // The decoder
  // ---------------------------------------------------------------------------

  class Decoder {
    const buf: seq<Byte>
    var cursor: nat
    var fields: FieldMap

    function State(): Stage
      reads this
    {
      Stage(fields, cursor)
    }

    /** An empty field map with the cursor at `start`. */
    constructor (buf: seq<Byte>, start: nat)
      ensures this.buf == buf && State() == Stage(map[], start)
    {
      this.buf := buf;
      cursor := start;
      fields := map[];
    }

    /** Reads one fixed-width field. */
    method Slot(key: string, width: nat, form: Form) returns (o: Outcome)
      requires Fits(form, width)
      modifies this
      ensures Agrees(o, Step(old(State()), buf, key, width, form), State())
    {
      if cursor + width > |buf| {
        return Fail(Truncated(cursor));
      }
      if !form.Color? && !AsciiSpan(buf, cursor, cursor + width) {
        return Fail(InvalidEncoding(cursor));
      }
      fields := Put(fields, key, Render(form, buf[cursor..cursor + width]));
      cursor := cursor + width;
      return Pass;
    }

    /** Reads a count field with the source's digit summation, refusing a field
      that holds anything but digits. The cursor moves past the field. */
    method Count(key: string, width: nat) returns (o: Outcome, n: nat)
      modifies this
      ensures var c := old(cursor);
        && (o.Pass? <==> SlotReadable(buf, c, width, Raw) && CountValue(buf[c..c + width]).Some?)
        && (o.Pass? ==> n == CountValue(buf[c..c + width]).value
                        && State() == Stage(old(fields)[key := Text(buf[c..c + width])], c + width))
        && (o.Fail? ==> o.error == if !SlotReadable(buf, c, width, Raw) then SlotError(buf, c, width)
                                   else MalformedCount(c))
    {
      var c := cursor;
      if c + width > |buf| {
        return Fail(Truncated(c)), 0;
      }
      if !AsciiSpan(buf, c, c + width) {
        return Fail(InvalidEncoding(c)), 0;
      }
      var field := buf[c..c + width];
      var sum := SumDigits(field);
      if !AllDigits(Text(field)) {
        return Fail(MalformedCount(c)), 0;
      }
      CountValueIsDecimal(field);
      fields := fields[key := Text(field)];
      cursor := c + width;
      return Pass, sum;
    }

    /** Reads a group's count and then its pairs. */
    method Group(g: Group) returns (o: Outcome)
      modifies this
      ensures Agrees(o, GroupStep(old(State()), buf, g), State())
    {
      var count;
      o, count := Count(g.countKey, CountWidth);
      if o.Fail? {
        return;
      }
      if !PairsReadable(buf, cursor, g, count) {
        return Fail(SlotError(buf, cursor, count * PairWidth(g)));
      }
      Pairs(g, count);
    }

    /** The pairs of a group, one pair per turn of the loop. */
    method Pairs(g: Group, count: nat)
      requires PairsReadable(buf, cursor, g, count)
      modifies this
      ensures State() == Stage(PairFields(old(fields), buf, old(cursor), g, count),
                               old(cursor) + count * PairWidth(g))
    {
      var at := cursor;
      ghost var start := fields;
      var n := 1;
      while n <= count
        invariant 1 <= n <= count + 1
        invariant cursor == at + (n - 1) * PairWidth(g)
        invariant fields == PairFields(start, buf, at, g, n - 1)
      {
        PairFieldsStep(start, buf, at, g, n, count, cursor);
        fields := fields[SubheaderKey(g, n) := SubheaderLength(buf, cursor, g)]
                        [SegmentKey(g, n) := SegmentLength(buf, cursor, g)];
        cursor := cursor + PairWidth(g);
        n := n + 1;
      }
    }

    /** One entry at p: the 6-byte tag and the 5-byte length as text, the length
      summed digit by digit, then that many value bytes as text. */
    method ReadEntry(p: nat) returns (r: Result<Entry>)
      ensures r.Ok? <==> EntryReadable(buf, p)
      ensures r.Ok? ==> r.value == EntryAt(buf, p)
      ensures r.Err? ==> r.error == MalformedTlv(p)
    {
      var l := p + TagWidth;
      var v := l + LengthWidth;
      if v > |buf| || !AsciiSpan(buf, p, l) {
        return Err(MalformedTlv(p));
      }
      var lengthField := buf[l..v];
      var length := SumDigits(lengthField);
      if !AllDigits(Text(lengthField)) {
        return Err(MalformedTlv(p));
      }
      CountValueIsDecimal(lengthField);
      assert DeclaredLength(buf, p) == Some(length);
      if v + length > |buf| || !AsciiSpan(buf, v, v + length) {
        return Err(MalformedTlv(p));
      }
      return Ok(Entry(buf[p..l], lengthField, buf[v..v + length]));
    }

    /** The source's tag-length-value loop over an area of `bound` bytes that
      starts at `base`: it inserts each entry's trimmed value under its tag and
      does not move the cursor. `walked` is how far the loop went. */
    method Entries(base: nat, bound: nat) returns (o: Outcome, walked: nat)
      modifies this
      ensures cursor == old(cursor)
      ensures var w := Walk(buf, base, 0, bound);
        && (o.Pass? <==> w.Ok?)
        && (w.Ok? ==> fields == Apply(old(fields), w.value) && walked == |Encode(w.value)|)
        && (w.Err? ==> o.error == w.error)
    {
      ghost var start := fields;
      ghost var done: seq<Entry> := [];
      var i: nat := 0;
      TracksStart(buf, base, bound);
      while i < bound
        invariant Tracks(buf, base, bound, done, i)
        invariant i == |Encode(done)|
        invariant fields == Apply(start, done)
        invariant cursor == old(cursor)
        decreases bound - i
      {
        var r := ReadEntry(base + i);
        if r.Err? {
          WalkFailsAt(buf, base, bound, done, i);
          return Fail(r.error), 0;
        }
        var e := r.value;
        ghost var before := done;
        var at := i;
        fields := fields[Text(e.tag) := Trim(Text(e.value))];
        done := done + [e];
        i := i + Size(e);
        WalkTurn(buf, base, bound, start, before, at, e, done, i);
      }
      WalkEnds(buf, base, bound, done, i);
      return Pass, i;
    }

    /** Reads the user-defined header data. */
    method UserArea() returns (o: Outcome)
      modifies this
      ensures Agrees(o, UserStep(old(State()), buf), State())
    {
      var n;
      o, n := Count("UDHDL", AreaLengthWidth);
      if o.Fail? || n == 0 {
        return;
      }
      :- Slot("UDHOFL", OverflowWidth, Raw);
      var walked;
      o, walked := Entries(cursor, n);
      if o.Pass? {
        cursor := cursor + walked;
      }
    }

    /** Reads the extended header data. */
    method ExtendedArea() returns (o: Outcome)
      modifies this
      ensures Agrees(o, ExtendedStep(old(State()), buf), State())
    {
      var n;
      o, n := Count("XHDL", AreaLengthWidth);
      if o.Fail? || n == 0 {
        return;
      }
      :- Slot("XHOFL", OverflowWidth, Trimmed);
      if n < OverflowWidth {
        return Fail(MalformedTlv(cursor));
      }
      var walked;
      o, walked := Entries(cursor, n - OverflowWidth);
    }
  }
}
