/** Where each field of the file header comes from. */
module HeaderLayout {
  import opened Wrappers
  import opened Ascii
  import opened Numbers
  import opened Fields
  import opened Groups
  import opened Tlv
  import opened Decoding
  import opened FixedFields
  import opened FileHeader

  // ---------------------------------------------------------------------------
  // The fixed part, bytes 0 to 360
  // ---------------------------------------------------------------------------

  /** The six runs of the fixed part in order, and where each begins. */
  const PrefixTables: seq<seq<Field>> :=
    [IdentificationFields, SecurityFields, DeclassificationFields, AuthorityFields, OriginFields, LengthsFields]
  const PrefixStarts: seq<nat> := [0, 119, 155, 178, 286, 342, 360]

  /** The state before each run of the fixed part, and after the last. */
  function PrefixStages(buf: seq<Byte>): (r: seq<Stage>)
    requires Prefix(buf).Ok?
    ensures |r| == 7 && r[0] == Stage(map[], 0) && Prefix(buf) == Ok(r[6])
  {
    var s0 := Stage(map[], 0);
    var s1 := Identification(s0, buf).value;
    var s2 := Security(s1, buf).value;
    var s3 := Declassification(s2, buf).value;
    var s4 := Authority(s3, buf).value;
    var s5 := Origin(s4, buf).value;
    [s0, s1, s2, s3, s4, s5, Lengths(s5, buf).value]
  }

  // Each of these adds one run of the fixed part to the chain of the ones before.

  lemma IdentificationLinked(buf: seq<Byte>)
    requires Prefix(buf).Ok?
    ensures LinkedBelow(buf, PrefixTables, PrefixStages(buf), 1)
  {
    IdentificationIsRun(PrefixStages(buf)[0], buf);
  }

  lemma SecurityLinked(buf: seq<Byte>)
    requires Prefix(buf).Ok?
    ensures LinkedBelow(buf, PrefixTables, PrefixStages(buf), 2)
  {
    IdentificationLinked(buf);
    SecurityIsRun(PrefixStages(buf)[1], buf);
  }

  lemma DeclassificationLinked(buf: seq<Byte>)
    requires Prefix(buf).Ok?
    ensures LinkedBelow(buf, PrefixTables, PrefixStages(buf), 3)
  {
    SecurityLinked(buf);
    DeclassificationIsRun(PrefixStages(buf)[2], buf);
  }

  lemma AuthorityLinked(buf: seq<Byte>)
    requires Prefix(buf).Ok?
    ensures LinkedBelow(buf, PrefixTables, PrefixStages(buf), 4)
  {
    DeclassificationLinked(buf);
    AuthorityIsRun(PrefixStages(buf)[3], buf);
  }

  lemma OriginLinked(buf: seq<Byte>)
    requires Prefix(buf).Ok?
    ensures LinkedBelow(buf, PrefixTables, PrefixStages(buf), 5)
  {
    AuthorityLinked(buf);
    OriginIsRun(PrefixStages(buf)[4], buf);
  }

  /** The fixed part of the header is its six runs read back to back. */
  lemma PrefixChained(buf: seq<Byte>)
    requires Prefix(buf).Ok?
    ensures Chained(buf, PrefixTables, PrefixStages(buf))
  {
    OriginLinked(buf);
    LengthsIsRun(PrefixStages(buf)[5], buf);
  }

  lemma IdentificationWidth() ensures Width(IdentificationFields) == 119 {}
  lemma SecurityWidth() ensures Width(SecurityFields) == 36 {}
  lemma DeclassificationWidth() ensures Width(DeclassificationFields) == 23 {}
  lemma AuthorityWidth() ensures Width(AuthorityFields) == 108 {}
  lemma OriginWidth() ensures Width(OriginFields) == 56 {}
  lemma LengthsWidth() ensures Width(LengthsFields) == 18 {}

  /** Run m of the fixed part spans bytes PrefixStarts[m] to PrefixStarts[m + 1]. */
  lemma PrefixSpans()
    ensures Spans(PrefixTables, PrefixStarts)
  {
    forall m | 0 <= m < |PrefixTables|
      ensures PrefixStarts[m] + Width(PrefixTables[m]) == PrefixStarts[m + 1]
    {
      if m == 0 { IdentificationWidth(); }
      else if m == 1 { SecurityWidth(); }
      else if m == 2 { DeclassificationWidth(); }
      else if m == 3 { AuthorityWidth(); }
      else if m == 4 { OriginWidth(); }
      else { LengthsWidth(); }
    }
  }

  lemma IdentificationDistinct() ensures Distinct(IdentificationFields) {}
  lemma SecurityDistinct() ensures Distinct(SecurityFields) {}
  lemma DeclassificationDistinct() ensures Distinct(DeclassificationFields) {}
  lemma AuthorityDistinct() ensures Distinct(AuthorityFields) {}
  lemma OriginDistinct() ensures Distinct(OriginFields) {}
  lemma LengthsDistinct() ensures Distinct(LengthsFields) {}

  /** The fixed part ends at byte 360. */
  lemma PrefixEnd(buf: seq<Byte>)
    requires Prefix(buf).Ok?
    ensures Prefix(buf).value.cursor == 360
  {
    PrefixChained(buf);
    PrefixSpans();
    ChainCursor(buf, PrefixTables, PrefixStarts, PrefixStages(buf), 6);
  }

  /** The key is in no run of the fixed part except possibly run k. */
  predicate AbsentElsewhere(k: int, key: string)
  {
    && (k == 0 || Absent(IdentificationFields, key))
    && (k == 1 || Absent(SecurityFields, key))
    && (k == 2 || Absent(DeclassificationFields, key))
    && (k == 3 || Absent(AuthorityFields, key))
    && (k == 4 || Absent(OriginFields, key))
    && (k == 5 || Absent(LengthsFields, key))
  }

  lemma PrefixOnlyIn(k: nat, key: string)
    requires AbsentElsewhere(k, key)
    ensures OnlyIn(PrefixTables, k, key)
  {
  }

  /** Field j of run k, whose key no other run has, ends up in the fixed part as
      the entry of its slot at PrefixStarts[k] + Offset, or absent when the field
      is omitted. `r` is the chain of stages PrefixStages computes. */
  lemma PrefixField(buf: seq<Byte>, r: seq<Stage>, k: nat, j: nat, at: nat)
    requires |r| == 7 && r[0] == Stage(map[], 0) && Chained(buf, PrefixTables, r)
    requires k < 6 && j < |PrefixTables[k]| && at == PrefixStarts[k] + Offset(PrefixTables[k], j)
    requires Distinct(PrefixTables[k]) && AbsentElsewhere(k, PrefixTables[k][j].key)
    ensures AllFit(PrefixTables[k])
    ensures var f := PrefixTables[k][j];
      && at + f.width <= |buf|
      && (!f.form.Color? ==> AsciiSpan(buf, at, at + f.width))
      && Lookup(r[6].fields, f.key) == SlotValue(buf, at, f.width, f.form)
  {
    var ts, key := PrefixTables, PrefixTables[k][j].key;
    assert r[0].cursor == PrefixStarts[0] && key !in r[0].fields;
    assert Spans(ts, PrefixStarts) by { PrefixSpans(); }
    assert OnlyIn(ts, k, key) by { PrefixOnlyIn(k, key); }
    ChainField(buf, ts, PrefixStarts, r, k, j);
  }

  /** The chain of stages of a fixed part that reads. */
  lemma PrefixRead(buf: seq<Byte>)
    requires Prefix(buf).Ok?
    ensures var r := PrefixStages(buf);
      |r| == 7 && r[0] == Stage(map[], 0) && Chained(buf, PrefixTables, r) && Prefix(buf) == Ok(r[6])
  {
    PrefixChained(buf);
  }

  // The entries, offsets and keys of the runs, computed apart from any buffer.

  lemma IdentificationFacts()
    ensures var t := PrefixTables[0];
      && t[0] == Field("FHDR", 4, Raw) && Offset(t, 0) == 0
      && t[1] == Field("FVER", 5, Raw) && Offset(t, 1) == 4
      && t[2] == Field("CLEVEL", 2, Raw) && Offset(t, 2) == 9
      && t[3] == Field("STYPE", 4, Raw) && Offset(t, 3) == 11
      && t[4] == Field("OSTAID", 10, Trimmed) && Offset(t, 4) == 15
      && t[5] == Field("FDT", 14, DateTime) && Offset(t, 5) == 25
  {
  }

  lemma IdentificationKeys()
    ensures Distinct(PrefixTables[0])
    ensures AbsentElsewhere(0, "FHDR") && AbsentElsewhere(0, "FVER") && AbsentElsewhere(0, "CLEVEL")
    ensures AbsentElsewhere(0, "STYPE") && AbsentElsewhere(0, "OSTAID") && AbsentElsewhere(0, "FDT")
  {
    IdentificationDistinct();
  }

  /** The fixed part of the header ends at byte 360. FHDR, FVER, CLEVEL, STYPE,
      OSTAID and FDT sit at 0, 4, 9, 11, 15 and 25; FDT is joined as a date and
      time. */
  lemma PrefixIdentification(buf: seq<Byte>)
    requires Prefix(buf).Ok?
    ensures Prefix(buf).value.cursor == 360 && 39 <= |buf|
    ensures var p := Prefix(buf).value.fields;
      && Lookup(p, "FHDR") == SlotValue(buf, 0, 4, Raw)
      && Lookup(p, "FVER") == SlotValue(buf, 4, 5, Raw)
      && Lookup(p, "CLEVEL") == SlotValue(buf, 9, 2, Raw)
      && Lookup(p, "STYPE") == SlotValue(buf, 11, 4, Raw)
      && Lookup(p, "OSTAID") == SlotValue(buf, 15, 10, Trimmed)
      && Lookup(p, "FDT") == SlotValue(buf, 25, 14, DateTime)
  {
    PrefixEnd(buf);
    IdentificationFacts();
    IdentificationKeys();
    var r := PrefixStages(buf);
    PrefixRead(buf);
    PrefixField(buf, r, 0, 0, 0);
    PrefixField(buf, r, 0, 1, 4);
    PrefixField(buf, r, 0, 2, 9);
    PrefixField(buf, r, 0, 3, 11);
    PrefixField(buf, r, 0, 4, 15);
    PrefixField(buf, r, 0, 5, 25);
  }

  lemma UntrimmedFacts()
    ensures PrefixTables[1][1] == Field("FSCLSY", 2, OptionalRaw) && Offset(PrefixTables[1], 1) == 1
    ensures PrefixTables[2][4] == Field("FSDGDT", 8, OptionalDateRaw) && Offset(PrefixTables[2], 4) == 15
    ensures PrefixTables[3][1] == Field("FSCATP", 1, OptionalRaw) && Offset(PrefixTables[3], 1) == 43
    ensures PrefixTables[3][3] == Field("FSCRSN", 1, OptionalRaw) && Offset(PrefixTables[3], 3) == 84
  {
  }

  lemma SecurityKeys()
    ensures Distinct(PrefixTables[1]) && AbsentElsewhere(1, "FSCLSY")
    ensures Distinct(PrefixTables[2]) && AbsentElsewhere(2, "FSDGDT")
  {
    SecurityDistinct();
    DeclassificationDistinct();
  }

  lemma AuthorityKeys()
    ensures Distinct(PrefixTables[3]) && AbsentElsewhere(3, "FSCATP") && AbsentElsewhere(3, "FSCRSN")
  {
    AuthorityDistinct();
  }

  /** The classification system FSCLSY at 120 is kept as read when it is not
      blank; the downgrade date FSDGDT at 170 is joined as a date but not trimmed. */
  lemma PrefixUntrimmed(buf: seq<Byte>)
    requires Prefix(buf).Ok?
    ensures 178 <= |buf|
    ensures var p := Prefix(buf).value.fields;
      && Lookup(p, "FSCLSY") == SlotValue(buf, 120, 2, OptionalRaw)
      && Lookup(p, "FSDGDT") == SlotValue(buf, 170, 8, OptionalDateRaw)
  {
    UntrimmedFacts();
    SecurityKeys();
    var r := PrefixStages(buf);
    PrefixRead(buf);
    PrefixField(buf, r, 1, 1, 120);
    PrefixField(buf, r, 2, 4, 170);
  }

  /** The authority type FSCATP at 221 and the reason FSCRSN at 262 are kept as
      read when they are not blank. */
  lemma PrefixAuthorityRaw(buf: seq<Byte>)
    requires Prefix(buf).Ok?
    ensures 263 <= |buf|
    ensures var p := Prefix(buf).value.fields;
      && Lookup(p, "FSCATP") == SlotValue(buf, 221, 1, OptionalRaw)
      && Lookup(p, "FSCRSN") == SlotValue(buf, 262, 1, OptionalRaw)
  {
    UntrimmedFacts();
    AuthorityKeys();
    var r := PrefixStages(buf);
    PrefixRead(buf);
    PrefixField(buf, r, 3, 1, 221);
    PrefixField(buf, r, 3, 3, 262);
  }

  lemma OriginFacts()
    ensures var t := PrefixTables[4];
      && t[0] == Field("FSCOP", 5, Trimmed) && Offset(t, 0) == 0
      && t[1] == Field("FSCPYS", 5, Trimmed) && Offset(t, 1) == 5
      && t[2] == Field("ENCRYP", 1, Trimmed) && Offset(t, 2) == 10
      && t[3] == Field("FBKGC", 3, Color) && Offset(t, 3) == 11
    ensures var t := PrefixTables[5];
      && t[0] == Field("FL", 12, Raw) && Offset(t, 0) == 0
      && t[1] == Field("HL", 6, Raw) && Offset(t, 1) == 12
  {
  }

  lemma OriginKeys()
    ensures Distinct(PrefixTables[4]) && Distinct(PrefixTables[5])
    ensures AbsentElsewhere(4, "FSCOP") && AbsentElsewhere(4, "FSCPYS")
    ensures AbsentElsewhere(4, "ENCRYP") && AbsentElsewhere(4, "FBKGC")
    ensures AbsentElsewhere(5, "FL") && AbsentElsewhere(5, "HL")
  {
    OriginDistinct();
    LengthsDistinct();
  }

  /** FSCOP, FSCPYS and ENCRYP are always present, trimmed, at 286, 291 and 296. */
  lemma PrefixCopy(buf: seq<Byte>)
    requires Prefix(buf).Ok?
    ensures 297 <= |buf|
    ensures var p := Prefix(buf).value.fields;
      && Lookup(p, "FSCOP") == SlotValue(buf, 286, 5, Trimmed)
      && Lookup(p, "FSCPYS") == SlotValue(buf, 291, 5, Trimmed)
      && Lookup(p, "ENCRYP") == SlotValue(buf, 296, 1, Trimmed)
  {
    OriginFacts();
    OriginKeys();
    var r := PrefixStages(buf);
    PrefixRead(buf);
    PrefixField(buf, r, 4, 0, 286);
    PrefixField(buf, r, 4, 1, 291);
    PrefixField(buf, r, 4, 2, 296);
  }

  /** FBKGC is the colour of the three bytes at 297. */
  lemma PrefixBackground(buf: seq<Byte>)
    requires Prefix(buf).Ok?
    ensures 300 <= |buf|
    ensures Lookup(Prefix(buf).value.fields, "FBKGC") == SlotValue(buf, 297, 3, Color)
  {
    OriginFacts();
    OriginKeys();
    var r := PrefixStages(buf);
    PrefixRead(buf);
    PrefixField(buf, r, 4, 3, 297);
  }

  /** FL and HL sit at 342 and 354, as read, and the buffer holds the whole fixed
      part. */
  lemma PrefixLengths(buf: seq<Byte>)
    requires Prefix(buf).Ok?
    ensures 360 <= |buf|
    ensures var p := Prefix(buf).value.fields;
      && Lookup(p, "FL") == SlotValue(buf, 342, 12, Raw)
      && Lookup(p, "HL") == SlotValue(buf, 354, 6, Raw)
  {
    OriginFacts();
    OriginKeys();
    var r := PrefixStages(buf);
    PrefixRead(buf);
    PrefixField(buf, r, 5, 0, 342);
    PrefixField(buf, r, 5, 1, 354);
  }

  // ---------------------------------------------------------------------------
  // Segment groups
  // ---------------------------------------------------------------------------

  /** The count a group read at the state's cursor declares. */
  function GroupCount(s: Stage, buf: seq<Byte>, g: Group): nat
    requires GroupStep(s, buf, g).Ok?
  {
    CountValue(buf[s.cursor..s.cursor + CountWidth]).value
  }

  /** A group read at c: its count is the decimal value of the three digits at c,
      below 1000, stored as read under the count key, and the cursor ends after
      the count's pairs. */
  lemma GroupCountLayout(s: Stage, buf: seq<Byte>, g: Group)
    requires WellKeyed(g) && GroupStep(s, buf, g).Ok?
    ensures var c := s.cursor;
      var t := GroupStep(s, buf, g).value;
      && c + CountWidth <= |buf| && AllDigits(Text(buf[c..c + CountWidth]))
      && GroupCount(s, buf, g) == DecimalValue(Text(buf[c..c + CountWidth])) < 1000
      && t.cursor == c + CountWidth + GroupCount(s, buf, g) * PairWidth(g) <= |buf|
      && Lookup(t.fields, g.countKey) == Some(Text(buf[c..c + CountWidth]))
  {
    var c := s.cursor;
    var field := buf[c..c + CountWidth];
    CountValueIsDecimal(field);
    assert Pow10(3) == 1000;
    CountKeyNotPairKey(g);
    PairFieldsKeepOtherKeys(s.fields[g.countKey := Text(field)], buf, c + CountWidth, g, GroupCount(s, buf, g), g.countKey);
  }

  /** A group read at c ends at c + 3 + count * PairWidth, inside the buffer. */
  lemma GroupCursor(s: Stage, buf: seq<Byte>, g: Group)
    requires GroupStep(s, buf, g).Ok?
    ensures GroupStep(s, buf, g).value.cursor == s.cursor + CountWidth + GroupCount(s, buf, g) * PairWidth(g) <= |buf|
  {
  }

  /** Pair k of a group read at c sits at c + 3 + (k - 1) * PairWidth. */
  lemma GroupPairLayout(s: Stage, buf: seq<Byte>, g: Group, k: nat)
    requires WellKeyed(g) && GroupStep(s, buf, g).Ok? && 1 <= k <= GroupCount(s, buf, g)
    ensures PairStart(s.cursor + CountWidth, g, k) + PairWidth(g) <= |buf|
    ensures var t := GroupStep(s, buf, g).value;
      var p := PairStart(s.cursor + CountWidth, g, k);
      && Lookup(t.fields, SubheaderKey(g, k)) == Some(SubheaderLength(buf, p, g))
      && Lookup(t.fields, SegmentKey(g, k)) == Some(SegmentLength(buf, p, g))
  {
    var c := s.cursor;
    var n := GroupCount(s, buf, g);
    var m := s.fields[g.countKey := Text(buf[c..c + CountWidth])];
    assert GroupStep(s, buf, g).value.fields == PairFields(m, buf, c + CountWidth, g, n);
    PairAt(m, buf, c + CountWidth, g, n, k);
  }

  /** A group changes no key but its count key and its pair keys. */
  lemma GroupFrame(s: Stage, buf: seq<Byte>, g: Group, key: string)
    requires GroupStep(s, buf, g).Ok? && key != g.countKey && !IsPairKey(g, key)
    ensures Lookup(GroupStep(s, buf, g).value.fields, key) == Lookup(s.fields, key)
  {
    var c := s.cursor;
    var n := GroupCount(s, buf, g);
    var m := s.fields[g.countKey := Text(buf[c..c + CountWidth])];
    assert GroupStep(s, buf, g).value.fields == PairFields(m, buf, c + CountWidth, g, n);
    PairFieldsKeepOtherKeys(m, buf, c + CountWidth, g, n, key);
  }

  /** The count key has no digits, so it is no pair key. */
  lemma CountKeyNotPairKey(g: Group)
    requires WellKeyed(g)
    ensures !IsPairKey(g, g.countKey)
  {
    var key := g.countKey;
    if |key| > |g.segmentKey| {
      assert key[|g.segmentKey|..][0] == key[|g.segmentKey|];
    }
    if |key| > |g.subheaderKey| {
      assert key[|g.subheaderKey|..][0] == key[|g.subheaderKey|];
    }
  }

  // ---------------------------------------------------------------------------
  // The segment part: five groups, NUMX between the graphic and text groups
  // ---------------------------------------------------------------------------

  // The state after each read of a segment part that succeeds: the image group,
  // the graphic group, NUMX, the text group and the data extension group. The
  // reserved extension group ends the part.

  function AfterImages(s: Stage, buf: seq<Byte>): Stage
    requires Segments(s, buf).Ok?
  {
    GroupStep(s, buf, Images).value
  }

  function AfterGraphics(s: Stage, buf: seq<Byte>): Stage
    requires Segments(s, buf).Ok?
  {
    GroupStep(AfterImages(s, buf), buf, Graphics).value
  }

  function AfterNumx(s: Stage, buf: seq<Byte>): Stage
    requires Segments(s, buf).Ok?
  {
    Step(AfterGraphics(s, buf), buf, "NUMX", CountWidth, Raw).value
  }

  function AfterTexts(s: Stage, buf: seq<Byte>): Stage
    requires Segments(s, buf).Ok?
  {
    GroupStep(AfterNumx(s, buf), buf, Texts).value
  }

  function AfterDataExtensions(s: Stage, buf: seq<Byte>): Stage
    requires Segments(s, buf).Ok?
  {
    GroupStep(AfterTexts(s, buf), buf, DataExtensions).value
  }

  // Each read of the segment part succeeds and takes its stage to the next.

  lemma ImagesRead(s: Stage, buf: seq<Byte>)
    requires Segments(s, buf).Ok?
    ensures GroupStep(s, buf, Images) == Ok(AfterImages(s, buf))
  {
  }

  lemma GraphicsRead(s: Stage, buf: seq<Byte>)
    requires Segments(s, buf).Ok?
    ensures GroupStep(AfterImages(s, buf), buf, Graphics) == Ok(AfterGraphics(s, buf))
  {
  }

  lemma NumxRead(s: Stage, buf: seq<Byte>)
    requires Segments(s, buf).Ok?
    ensures Step(AfterGraphics(s, buf), buf, "NUMX", CountWidth, Raw) == Ok(AfterNumx(s, buf))
  {
  }

  lemma TextsRead(s: Stage, buf: seq<Byte>)
    requires Segments(s, buf).Ok?
    ensures GroupStep(AfterNumx(s, buf), buf, Texts) == Ok(AfterTexts(s, buf))
  {
  }

  lemma DataExtensionsRead(s: Stage, buf: seq<Byte>)
    requires Segments(s, buf).Ok?
    ensures GroupStep(AfterTexts(s, buf), buf, DataExtensions) == Ok(AfterDataExtensions(s, buf))
  {
  }

  lemma ReservedExtensionsRead(s: Stage, buf: seq<Byte>)
    requires Segments(s, buf).Ok?
    ensures GroupStep(AfterDataExtensions(s, buf), buf, ReservedExtensions) == Segments(s, buf)
  {
  }

  /** The counts the five groups declare: images, graphics, texts, data
      extensions, reserved extensions. */
  function SegmentCounts(s: Stage, buf: seq<Byte>): (n: seq<nat>)
    requires Segments(s, buf).Ok?
    ensures |n| == 5
  {
    ImagesRead(s, buf);
    GraphicsRead(s, buf);
    TextsRead(s, buf);
    DataExtensionsRead(s, buf);
    ReservedExtensionsRead(s, buf);
    [GroupCount(s, buf, Images), GroupCount(AfterImages(s, buf), buf, Graphics),
     GroupCount(AfterNumx(s, buf), buf, Texts), GroupCount(AfterTexts(s, buf), buf, DataExtensions),
     GroupCount(AfterDataExtensions(s, buf), buf, ReservedExtensions)]
  }

  /** A pair takes 6 + 10 bytes in the image group, 4 + 6 in the graphic group,
      4 + 5 in the text group, 4 + 9 in the data extension group and 4 + 7 in the
      reserved extension group. */
  lemma PairWidths()
    ensures Images.subheaderWidth == 6 && Images.segmentWidth == 10 && PairWidth(Images) == 16
    ensures Graphics.subheaderWidth == 4 && Graphics.segmentWidth == 6 && PairWidth(Graphics) == 10
    ensures Texts.subheaderWidth == 4 && Texts.segmentWidth == 5 && PairWidth(Texts) == 9
    ensures DataExtensions.subheaderWidth == 4 && DataExtensions.segmentWidth == 9 && PairWidth(DataExtensions) == 13
    ensures ReservedExtensions.subheaderWidth == 4 && ReservedExtensions.segmentWidth == 7
    ensures PairWidth(ReservedExtensions) == 11
  {
  }

  /** Started at c, the image group ends at c + 3 + 16 NUMI, the graphic group
      3 + 10 NUMS later, NUMX takes 3 bytes, and the text, data extension and
      reserved extension groups take 3 + 9 NUMT, 3 + 13 NUMDES and 3 + 11 NUMRES. */
  lemma SegmentsCursor(s: Stage, buf: seq<Byte>)
    requires Segments(s, buf).Ok?
    ensures var n := SegmentCounts(s, buf);
      && AfterImages(s, buf).cursor == s.cursor + 3 + 16 * n[0]
      && AfterGraphics(s, buf).cursor == AfterImages(s, buf).cursor + 3 + 10 * n[1]
      && AfterNumx(s, buf).cursor == AfterGraphics(s, buf).cursor + 3
      && AfterTexts(s, buf).cursor == AfterNumx(s, buf).cursor + 3 + 9 * n[2]
      && AfterDataExtensions(s, buf).cursor == AfterTexts(s, buf).cursor + 3 + 13 * n[3]
      && Segments(s, buf).value.cursor == AfterDataExtensions(s, buf).cursor + 3 + 11 * n[4] <= |buf|
  {
    FirstGroupsCursor(s, buf);
    LastGroupsCursor(s, buf);
  }

  lemma FirstGroupsCursor(s: Stage, buf: seq<Byte>)
    requires Segments(s, buf).Ok?
    ensures var n := SegmentCounts(s, buf);
      && AfterImages(s, buf).cursor == s.cursor + 3 + 16 * n[0]
      && AfterGraphics(s, buf).cursor == AfterImages(s, buf).cursor + 3 + 10 * n[1]
      && AfterNumx(s, buf).cursor == AfterGraphics(s, buf).cursor + 3
  {
    ImagesCursor(s, buf);
    GraphicsCursor(s, buf);
    NumxRead(s, buf);
    StepFacts(AfterGraphics(s, buf), buf, "NUMX", CountWidth, Raw);
  }

  lemma ImagesCursor(s: Stage, buf: seq<Byte>)
    requires Segments(s, buf).Ok?
    ensures AfterImages(s, buf).cursor == s.cursor + 3 + 16 * SegmentCounts(s, buf)[0]
  {
    ImagesRead(s, buf);
    PairWidths();
    GroupCursor(s, buf, Images);
  }

  lemma GraphicsCursor(s: Stage, buf: seq<Byte>)
    requires Segments(s, buf).Ok?
    ensures AfterGraphics(s, buf).cursor == AfterImages(s, buf).cursor + 3 + 10 * SegmentCounts(s, buf)[1]
  {
    GraphicsRead(s, buf);
    PairWidths();
    GroupCursor(AfterImages(s, buf), buf, Graphics);
  }

  lemma LastGroupsCursor(s: Stage, buf: seq<Byte>)
    requires Segments(s, buf).Ok?
    ensures var n := SegmentCounts(s, buf);
      && AfterTexts(s, buf).cursor == AfterNumx(s, buf).cursor + 3 + 9 * n[2]
      && AfterDataExtensions(s, buf).cursor == AfterTexts(s, buf).cursor + 3 + 13 * n[3]
      && Segments(s, buf).value.cursor == AfterDataExtensions(s, buf).cursor + 3 + 11 * n[4] <= |buf|
  {
    TextsRead(s, buf);
    DataExtensionsRead(s, buf);
    ReservedExtensionsRead(s, buf);
    PairWidths();
    GroupCursor(AfterNumx(s, buf), buf, Texts);
    GroupCursor(AfterTexts(s, buf), buf, DataExtensions);
    GroupCursor(AfterDataExtensions(s, buf), buf, ReservedExtensions);
  }

  /** Every pair key starts with 'L', and every count key with 'N'. */
  lemma OutsideGroups(g: Group, key: string)
    requires g in [Images, Graphics, Texts, DataExtensions, ReservedExtensions]
    requires |key| > 0 && key[0] != 'L'
    ensures key[0] != 'N' ==> key != g.countKey && key != "NUMX"
    ensures !IsPairKey(g, key)
  {
    if |key| > |g.subheaderKey| {
      assert key[..|g.subheaderKey|][0] == key[0];
    }
    if |key| > |g.segmentKey| {
      assert key[..|g.segmentKey|][0] == key[0];
    }
  }

  /** The segment part changes no key that starts with neither 'L' nor 'N'. */
  lemma SegmentsFrame(s: Stage, buf: seq<Byte>, key: string)
    requires Segments(s, buf).Ok? && |key| > 0 && key[0] != 'L' && key[0] != 'N'
    ensures Lookup(Segments(s, buf).value.fields, key) == Lookup(s.fields, key)
  {
    ImagesRead(s, buf);
    OutsideGroups(Images, key);
    GroupFrame(s, buf, Images, key);
    forall g | g in [Graphics, Texts, DataExtensions, ReservedExtensions]
      ensures !IsPairKey(g, key) && key != g.countKey
    {
      OutsideGroups(g, key);
    }
    OutsideGroups(Graphics, key);
    AfterImagesKeep(s, buf, key);
  }

  // ---------------------------------------------------------------------------
  // The tag-length-value areas
  // ---------------------------------------------------------------------------

  /** The user-defined header data read at c: UDHDL is the five digits at c, kept
      as read; when it is zero nothing else is read and the cursor stands at
      c + 5. */
  lemma UserAreaLength(s: Stage, buf: seq<Byte>)
    requires UserStep(s, buf).Ok?
    ensures var c := s.cursor;
      var t := UserStep(s, buf).value;
      && c + 5 <= |buf| && AllDigits(Text(buf[c..c + 5]))
      && CountValue(buf[c..c + 5]) == Some(DecimalValue(Text(buf[c..c + 5])))
      && Lookup(t.fields, "UDHDL") == Some(Text(buf[c..c + 5]))
      && (DecimalValue(Text(buf[c..c + 5])) == 0 ==> t == Stage(s.fields["UDHDL" := Text(buf[c..c + 5])], c + 5))
  {
    var c := s.cursor;
    CountValueIsDecimal(buf[c..c + 5]);
    UserKeeps(s, buf, "UDHDL");
  }

  /** When UDHDL is not zero, UDHOFL is the three bytes at c + 5, kept as read
      unless an entry is tagged UDHOFL; the entries start at c + 8, re-encode to
      the bytes they were read from, are well formed, and reach at least UDHDL
      bytes into the area, where the cursor ends; the fields become the map
      holding UDHDL and UDHOFL with each entry's trimmed value inserted under its
      tag, in order. */
  lemma UserAreaEntries(s: Stage, buf: seq<Byte>)
    requires UserStep(s, buf).Ok?
    requires s.cursor + 5 <= |buf| && CountValue(buf[s.cursor..s.cursor + 5]).Some?
    requires CountValue(buf[s.cursor..s.cursor + 5]).value != 0
    ensures s.cursor + 8 <= |buf|
    ensures Walk(buf, s.cursor + 8, 0, CountValue(buf[s.cursor..s.cursor + 5]).value).Ok?
    ensures var c, n := s.cursor, CountValue(buf[s.cursor..s.cursor + 5]).value;
      var m := s.fields["UDHDL" := Text(buf[c..c + 5])]["UDHOFL" := Text(buf[c + 5..c + 8])];
      var es := Walk(buf, c + 8, 0, n).value;
      UserStep(s, buf) == Ok(Stage(Apply(m, es), c + 8 + |Encode(es)|))
    ensures var c, n := s.cursor, CountValue(buf[s.cursor..s.cursor + 5]).value;
      var es := Walk(buf, c + 8, 0, n).value;
      && c + 8 + n <= c + 8 + |Encode(es)| <= |buf|
      && Encode(es) == buf[c + 8..c + 8 + |Encode(es)|]
      && (forall k :: 0 <= k < |es| ==> WellFormed(es[k]))
    ensures var c, n := s.cursor, CountValue(buf[s.cursor..s.cursor + 5]).value;
      var es := Walk(buf, c + 8, 0, n).value;
      (forall k :: 0 <= k < |es| ==> Text(es[k].tag) != "UDHOFL") ==>
        Lookup(UserStep(s, buf).value.fields, "UDHOFL") == Some(Text(buf[c + 5..c + 8]))
  {
    UserStepValue(s, buf);
    var c := s.cursor;
    var n := CountValue(buf[c..c + 5]).value;
    var m := s.fields["UDHDL" := Text(buf[c..c + 5])]["UDHOFL" := Text(buf[c + 5..c + 8])];
    var es := Walk(buf, c + 8, 0, n).value;
    WalkLayout(buf, c + 8, n);
    if forall k :: 0 <= k < |es| ==> Text(es[k].tag) != "UDHOFL" {
      ApplyKeepsUntagged(m, es, "UDHOFL");
    }
  }

  /** What a nonzero UDHDL makes of the state: UDHDL, UDHOFL, then the entries. */
  lemma UserStepValue(s: Stage, buf: seq<Byte>)
    requires UserStep(s, buf).Ok?
    requires s.cursor + 5 <= |buf| && CountValue(buf[s.cursor..s.cursor + 5]).Some?
    requires CountValue(buf[s.cursor..s.cursor + 5]).value != 0
    ensures s.cursor + 8 <= |buf|
    ensures Walk(buf, s.cursor + 8, 0, CountValue(buf[s.cursor..s.cursor + 5]).value).Ok?
    ensures var c, n := s.cursor, CountValue(buf[s.cursor..s.cursor + 5]).value;
      var m := s.fields["UDHDL" := Text(buf[c..c + 5])]["UDHOFL" := Text(buf[c + 5..c + 8])];
      var es := Walk(buf, c + 8, 0, n).value;
      UserStep(s, buf) == Ok(Stage(Apply(m, es), c + 8 + |Encode(es)|))
  {
    assert AreaLengthWidth == 5 && OverflowWidth == 3;
  }

  /** In the user-defined header data, an entry whose tag no later entry repeats
      leaves its trimmed value under its tag. */
  lemma UserEntries(s: Stage, buf: seq<Byte>, j: nat)
    requires UserStep(s, buf).Ok?
    requires s.cursor + 5 <= |buf| && CountValue(buf[s.cursor..s.cursor + 5]).Some?
    requires var n := CountValue(buf[s.cursor..s.cursor + 5]).value;
      n != 0 && Walk(buf, s.cursor + 8, 0, n).Ok? && j < |Walk(buf, s.cursor + 8, 0, n).value|
    requires var es := Walk(buf, s.cursor + 8, 0, CountValue(buf[s.cursor..s.cursor + 5]).value).value;
      forall k :: j < k < |es| ==> Text(es[k].tag) != Text(es[j].tag)
    ensures var es := Walk(buf, s.cursor + 8, 0, CountValue(buf[s.cursor..s.cursor + 5]).value).value;
      Lookup(UserStep(s, buf).value.fields, Text(es[j].tag)) == Some(Trim(Text(es[j].value)))
  {
    var c := s.cursor;
    var n := CountValue(buf[c..c + 5]).value;
    var es := Walk(buf, c + 8, 0, n).value;
    ApplyLastWins(s.fields["UDHDL" := Text(buf[c..c + 5])]["UDHOFL" := Text(buf[c + 5..c + 8])], es, j);
  }

  /** What the entries of the user-defined area leave of the map built before
      them: every key of other than six characters. */
  lemma UserKeeps(s: Stage, buf: seq<Byte>, key: string)
    requires UserStep(s, buf).Ok? && |key| != 6
    ensures var c := s.cursor;
      var n := CountValue(buf[c..c + 5]).value;
      var m := s.fields["UDHDL" := Text(buf[c..c + 5])];
      Lookup(UserStep(s, buf).value.fields, key) ==
        Lookup(if n == 0 then m else m["UDHOFL" := Text(buf[c + 5..c + 8])], key)
  {
    var c := s.cursor;
    assert AreaLengthWidth == 5 && OverflowWidth == 3;
    var n := CountValue(buf[c..c + AreaLengthWidth]).value;
    if n != 0 {
      var o := c + AreaLengthWidth;
      var m := s.fields["UDHDL" := Text(buf[c..o])]["UDHOFL" := Text(buf[o..o + OverflowWidth])];
      var es := Walk(buf, o + OverflowWidth, 0, n).value;
      assert UserStep(s, buf) == Ok(Stage(Apply(m, es), o + OverflowWidth + |Encode(es)|));
      WalkWellFormed(buf, o + OverflowWidth, 0, n);
      ApplyKeepsOtherKeys(m, es, key);
    } else {
      assert UserStep(s, buf) == Ok(Stage(s.fields["UDHDL" := Text(buf[c..c + AreaLengthWidth])], c + AreaLengthWidth));
    }
  }

  /** The user-defined header data changes no key of other than six characters
      but UDHDL. */
  lemma UserFrame(s: Stage, buf: seq<Byte>, key: string)
    requires UserStep(s, buf).Ok? && |key| != 6 && key != "UDHDL"
    ensures Lookup(UserStep(s, buf).value.fields, key) == Lookup(s.fields, key)
  {
    UserKeeps(s, buf, key);
  }

  /** The extended header data read at c: XHDL is the five digits at c, kept as
      read; when it is zero nothing else is read and the cursor stands at c + 5. */
  lemma ExtendedAreaLength(s: Stage, buf: seq<Byte>)
    requires ExtendedStep(s, buf).Ok?
    ensures var c := s.cursor;
      var t := ExtendedStep(s, buf).value;
      && c + 5 <= |buf| && AllDigits(Text(buf[c..c + 5]))
      && CountValue(buf[c..c + 5]) == Some(DecimalValue(Text(buf[c..c + 5])))
      && Lookup(t.fields, "XHDL") == Some(Text(buf[c..c + 5]))
      && (DecimalValue(Text(buf[c..c + 5])) == 0 ==> t == Stage(s.fields["XHDL" := Text(buf[c..c + 5])], c + 5))
  {
    var c := s.cursor;
    CountValueIsDecimal(buf[c..c + 5]);
    ExtendedKeeps(s, buf, "XHDL");
  }

  /** When XHDL is not zero it is at least 3, XHOFL is the three bytes at c + 5,
      trimmed, and the cursor stands at c + 8 however many entries follow. */
  lemma ExtendedAreaOverflow(s: Stage, buf: seq<Byte>)
    requires ExtendedStep(s, buf).Ok?
    requires s.cursor + 5 <= |buf| && CountValue(buf[s.cursor..s.cursor + 5]).Some?
    requires CountValue(buf[s.cursor..s.cursor + 5]).value != 0
    ensures var c := s.cursor;
      var t := ExtendedStep(s, buf).value;
      && 3 <= CountValue(buf[c..c + 5]).value && t.cursor == c + 8
      && Lookup(t.fields, "XHOFL") == Some(Trim(Text(buf[c + 5..c + 8])))
  {
    ExtendedKeeps(s, buf, "XHOFL");
  }

  /** When XHDL is not zero (and so at least 3), the entries are walked from
      c + 8 over an area of XHDL - 3 bytes: they re-encode to the bytes they were
      read from, are well formed and reach at least XHDL - 3 bytes into the area. */
  lemma ExtendedAreaEntries(s: Stage, buf: seq<Byte>)
    requires ExtendedStep(s, buf).Ok?
    requires s.cursor + 5 <= |buf| && CountValue(buf[s.cursor..s.cursor + 5]).Some?
    requires CountValue(buf[s.cursor..s.cursor + 5]).value != 0
    ensures s.cursor + 8 <= |buf| && CountValue(buf[s.cursor..s.cursor + 5]).value >= 3
    ensures var c, n := s.cursor, CountValue(buf[s.cursor..s.cursor + 5]).value;
      && n >= 3 && c + 8 <= |buf| && Walk(buf, c + 8, 0, n - 3).Ok?
      && var es := Walk(buf, c + 8, 0, n - 3).value;
      && c + 8 + (n - 3) <= c + 8 + |Encode(es)| <= |buf|
      && Encode(es) == buf[c + 8..c + 8 + |Encode(es)|]
      && (forall k :: 0 <= k < |es| ==> WellFormed(es[k]))
  {
    var c, n := s.cursor, CountValue(buf[s.cursor..s.cursor + 5]).value;
    assert n >= 3 && c + 8 <= |buf| && Walk(buf, c + 8, 0, n - 3).Ok? by {
      ExtendedAreaFields(s, buf);
    }
    WalkLayout(buf, c + 8, n - 3);
  }

  /** When XHDL is not zero, the fields become the map holding XHDL and the
      trimmed XHOFL with each walked entry's trimmed value inserted under its tag,
      in order, and the cursor stays just past XHOFL. */
  lemma ExtendedAreaFields(s: Stage, buf: seq<Byte>)
    requires ExtendedStep(s, buf).Ok?
    requires s.cursor + 5 <= |buf| && CountValue(buf[s.cursor..s.cursor + 5]).Some?
    requires CountValue(buf[s.cursor..s.cursor + 5]).value != 0
    ensures var c, n := s.cursor, CountValue(buf[s.cursor..s.cursor + 5]).value;
      && n >= 3 && c + 8 <= |buf| && Walk(buf, c + 8, 0, n - 3).Ok?
      && var m := s.fields["XHDL" := Text(buf[c..c + 5])]["XHOFL" := Trim(Text(buf[c + 5..c + 8]))];
      ExtendedStep(s, buf) == Ok(Stage(Apply(m, Walk(buf, c + 8, 0, n - 3).value), c + 8))
  {
    var c := s.cursor;
    assert AreaLengthWidth == 5 && OverflowWidth == 3;
    var n := CountValue(buf[c..c + AreaLengthWidth]).value;
    assert n != 0 && !(n < OverflowWidth);
    var o := c + AreaLengthWidth;
    var m := s.fields["XHDL" := Text(buf[c..o])]["XHOFL" := Trim(Text(buf[o..o + OverflowWidth]))];
    var es := Walk(buf, o + OverflowWidth, 0, n - OverflowWidth).value;
    assert ExtendedStep(s, buf) == Ok(Stage(Apply(m, es), o + OverflowWidth));
  }

  /** In the extended header data, an entry whose tag no later entry repeats
      leaves its trimmed value under its tag. */
  lemma ExtendedEntries(s: Stage, buf: seq<Byte>, j: nat)
    requires ExtendedStep(s, buf).Ok?
    requires s.cursor + 5 <= |buf| && CountValue(buf[s.cursor..s.cursor + 5]).Some?
    requires var n := CountValue(buf[s.cursor..s.cursor + 5]).value;
      n >= 3 && Walk(buf, s.cursor + 8, 0, n - 3).Ok? && j < |Walk(buf, s.cursor + 8, 0, n - 3).value|
    requires var es := Walk(buf, s.cursor + 8, 0, CountValue(buf[s.cursor..s.cursor + 5]).value - 3).value;
      forall k :: j < k < |es| ==> Text(es[k].tag) != Text(es[j].tag)
    ensures var es := Walk(buf, s.cursor + 8, 0, CountValue(buf[s.cursor..s.cursor + 5]).value - 3).value;
      Lookup(ExtendedStep(s, buf).value.fields, Text(es[j].tag)) == Some(Trim(Text(es[j].value)))
  {
    var c := s.cursor;
    var n := CountValue(buf[c..c + 5]).value;
    var es := Walk(buf, c + 8, 0, n - 3).value;
    ExtendedAreaFields(s, buf);
    ApplyLastWins(s.fields["XHDL" := Text(buf[c..c + 5])]["XHOFL" := Trim(Text(buf[c + 5..c + 8]))], es, j);
  }

  /** What the entries of the extended area leave of the map built before them:
      every key of other than six characters. */
  lemma ExtendedKeeps(s: Stage, buf: seq<Byte>, key: string)
    requires ExtendedStep(s, buf).Ok? && |key| != 6
    ensures var c := s.cursor;
      var n := CountValue(buf[c..c + 5]).value;
      var m := s.fields["XHDL" := Text(buf[c..c + 5])];
      Lookup(ExtendedStep(s, buf).value.fields, key) ==
        Lookup(if n == 0 then m else m["XHOFL" := Trim(Text(buf[c + 5..c + 8]))], key)
  {
    var c := s.cursor;
    assert AreaLengthWidth == 5 && OverflowWidth == 3;
    var n := CountValue(buf[c..c + AreaLengthWidth]).value;
    if n != 0 {
      var o := c + AreaLengthWidth;
      var m := s.fields["XHDL" := Text(buf[c..o])]["XHOFL" := Trim(Text(buf[o..o + OverflowWidth]))];
      var es := Walk(buf, o + OverflowWidth, 0, n - OverflowWidth).value;
      assert ExtendedStep(s, buf) == Ok(Stage(Apply(m, es), o + OverflowWidth));
      WalkWellFormed(buf, o + OverflowWidth, 0, n - OverflowWidth);
      ApplyKeepsOtherKeys(m, es, key);
    } else {
      assert ExtendedStep(s, buf) == Ok(Stage(s.fields["XHDL" := Text(buf[c..c + AreaLengthWidth])], c + AreaLengthWidth));
    }
  }

  /** An XHDL of 1 or 2 leaves no room for XHOFL: the read fails just past it. */
  lemma ExtendedRejectsShortArea(s: Stage, buf: seq<Byte>)
    requires s.cursor + 8 <= |buf| && AsciiSpan(buf, s.cursor, s.cursor + 8)
    requires CountValue(buf[s.cursor..s.cursor + 5]) in {Some(1), Some(2)}
    ensures ExtendedStep(s, buf) == Err(MalformedTlv(s.cursor + 8))
  {
    var c := s.cursor;
    assert AsciiSpan(buf, c, c + 5) && AsciiSpan(buf, c + 5, c + 8);
  }

  /** The extended header data changes no key of other than six characters but
      XHDL and XHOFL. */
  lemma ExtendedFrame(s: Stage, buf: seq<Byte>, key: string)
    requires ExtendedStep(s, buf).Ok? && |key| != 6 && key != "XHDL" && key != "XHOFL"
    ensures Lookup(ExtendedStep(s, buf).value.fields, key) == Lookup(s.fields, key)
  {
    ExtendedKeeps(s, buf, key);
  }

  // ---------------------------------------------------------------------------
  // The whole header
  // ---------------------------------------------------------------------------

  // The state after each part of a header that decodes: the fixed part, the
  // segment part and the user-defined area. The extended area ends the header.

  function FixedPart(buf: seq<Byte>): Stage
    requires HeaderStages(buf).Ok?
  {
    Prefix(buf).value
  }

  function AfterSegmentPart(buf: seq<Byte>): Stage
    requires HeaderStages(buf).Ok?
  {
    Segments(FixedPart(buf), buf).value
  }

  function AfterUserArea(buf: seq<Byte>): Stage
    requires HeaderStages(buf).Ok?
  {
    UserStep(AfterSegmentPart(buf), buf).value
  }

  lemma SegmentPartRead(buf: seq<Byte>)
    requires HeaderStages(buf).Ok?
    ensures Prefix(buf) == Ok(FixedPart(buf))
    ensures Segments(FixedPart(buf), buf) == Ok(AfterSegmentPart(buf))
  {
  }

  lemma UserAreaRead(buf: seq<Byte>)
    requires HeaderStages(buf).Ok?
    ensures UserStep(AfterSegmentPart(buf), buf) == Ok(AfterUserArea(buf))
  {
  }

  lemma ExtendedAreaRead(buf: seq<Byte>)
    requires HeaderStages(buf).Ok?
    ensures ExtendedStep(AfterUserArea(buf), buf) == HeaderStages(buf)
  {
  }

  /** The user-defined and extended areas keep a key of a length other than six
      that is none of UDHDL, XHDL and XHOFL. */
  lemma AfterSegmentsKeeps(buf: seq<Byte>, key: string)
    requires HeaderStages(buf).Ok? && |key| != 6
    requires key != "UDHDL" && key != "XHDL" && key != "XHOFL"
    ensures Lookup(HeaderSpec(buf).value, key) == Lookup(AfterSegmentPart(buf).fields, key)
  {
    UserAreaRead(buf);
    ExtendedAreaRead(buf);
    UserFrame(AfterSegmentPart(buf), buf, key);
    ExtendedFrame(AfterUserArea(buf), buf, key);
  }

  /** What the fixed part stores under a key that starts with neither 'L' nor
      'N', is not six characters long and is none of UDHDL, XHDL and XHOFL is
      what the whole header stores under it. */
  lemma AfterPrefixKeeps(buf: seq<Byte>, key: string)
    requires HeaderStages(buf).Ok?
    requires |key| > 0 && key[0] != 'L' && key[0] != 'N' && |key| != 6
    requires key != "UDHDL" && key != "XHDL" && key != "XHOFL"
    ensures Lookup(HeaderSpec(buf).value, key) == Lookup(Prefix(buf).value.fields, key)
  {
    SegmentPartRead(buf);
    SegmentsFrame(FixedPart(buf), buf, key);
    AfterSegmentsKeeps(buf, key);
  }

  /** In the decoded header FHDR, FVER, STYPE and FDT are the bytes at 0, 4, 11
      and 25, FDT joined as a 19-character date and time. */
  lemma HeaderIdentification(buf: seq<Byte>)
    requires HeaderStages(buf).Ok?
    ensures 39 <= |buf|
    ensures var h := HeaderSpec(buf).value;
      && Lookup(h, "FHDR") == Some(Text(buf[0..4]))
      && Lookup(h, "FVER") == Some(Text(buf[4..9]))
      && Lookup(h, "STYPE") == Some(Text(buf[11..15]))
      && Lookup(h, "FDT") == Some(DateTimeText(buf[25..39]))
      && |DateTimeText(buf[25..39])| == 19
  {
    PrefixIdentification(buf);
    assert SlotValue(buf, 0, 4, Raw) == Some(Text(buf[0..4]));
    assert SlotValue(buf, 4, 5, Raw) == Some(Text(buf[4..9]));
    assert SlotValue(buf, 11, 4, Raw) == Some(Text(buf[11..15]));
    assert SlotValue(buf, 25, 14, DateTime) == Some(DateTimeText(buf[25..39]));
    AfterPrefixKeeps(buf, "FHDR");
    AfterPrefixKeeps(buf, "FVER");
    AfterPrefixKeeps(buf, "STYPE");
    AfterPrefixKeeps(buf, "FDT");
    DateTimeShape(buf[25..39]);
  }

  /** In the decoded header FSCOP is the trimmed text at 286. */
  lemma HeaderCopy(buf: seq<Byte>)
    requires HeaderStages(buf).Ok?
    ensures 291 <= |buf| && Lookup(HeaderSpec(buf).value, "FSCOP") == Some(Trim(Text(buf[286..291])))
  {
    PrefixCopy(buf);
    AfterPrefixKeeps(buf, "FSCOP");
  }

  /** In the decoded header FBKGC is the colour of the three bytes at 297. */
  lemma HeaderColor(buf: seq<Byte>)
    requires HeaderStages(buf).Ok?
    ensures 300 <= |buf| && Lookup(HeaderSpec(buf).value, "FBKGC") == Some(ColorText(buf[297..300]))
  {
    PrefixBackground(buf);
    AfterPrefixKeeps(buf, "FBKGC");
    assert SlotValue(buf, 297, 3, Color) == Some(ColorText(buf[297..300]));
  }

  /** In the decoded header FL and HL are the text at 342 and 354. */
  lemma HeaderLengthFields(buf: seq<Byte>)
    requires HeaderStages(buf).Ok?
    ensures 360 <= |buf|
    ensures var h := HeaderSpec(buf).value;
      && Lookup(h, "FL") == Some(Text(buf[342..354]))
      && Lookup(h, "HL") == Some(Text(buf[354..360]))
  {
    PrefixLengths(buf);
    AfterPrefixKeeps(buf, "FL");
    AfterPrefixKeeps(buf, "HL");
  }

  // ---------------------------------------------------------------------------
  // The segment part inside the whole header
  // ---------------------------------------------------------------------------

  /** A key whose second letter differs from a prefix's does not start with it. */
  lemma SecondLetterDiffers(key: string, prefix: string)
    requires |prefix| >= 2 && |key| >= 2 && key[1] != prefix[1]
    ensures !(|key| > |prefix| && key[..|prefix|] == prefix)
  {
    if |key| > |prefix| {
      assert key[..|prefix|][1] == key[1];
    }
  }

  /** The image pair keys LISHk and LIk are seven and five characters long for
      k below 1000, and no other group reads them. */
  lemma ImageKeysElsewhere(k: nat)
    requires k < 1000
    ensures |SubheaderKey(Images, k)| == 7 && |SegmentKey(Images, k)| == 5
    ensures forall g | g in [Graphics, Texts, DataExtensions, ReservedExtensions] ::
      && !IsPairKey(g, SubheaderKey(Images, k)) && !IsPairKey(g, SegmentKey(Images, k))
      && SubheaderKey(Images, k) != g.countKey && SegmentKey(Images, k) != g.countKey
    ensures SubheaderKey(Images, k) != "NUMX" && SegmentKey(Images, k) != "NUMX"
    ensures SegmentKey(Images, k) != "UDHDL" && SegmentKey(Images, k) != "XHOFL"
  {
    FormatIndexRoundTrip(k);
    var sk, gk := SubheaderKey(Images, k), SegmentKey(Images, k);
    assert sk[0] == 'L' && sk[1] == 'I' && gk[0] == 'L' && gk[1] == 'I';
    forall g | g in [Graphics, Texts, DataExtensions, ReservedExtensions]
      ensures && !IsPairKey(g, sk) && !IsPairKey(g, gk) && sk != g.countKey && gk != g.countKey
    {
      SecondLetterDiffers(sk, g.subheaderKey);
      SecondLetterDiffers(sk, g.segmentKey);
      SecondLetterDiffers(gk, g.subheaderKey);
      SecondLetterDiffers(gk, g.segmentKey);
    }
  }

  /** The reads after the image group keep a key that none of them reads. */
  lemma AfterImagesKeep(s: Stage, buf: seq<Byte>, key: string)
    requires Segments(s, buf).Ok?
    requires forall g | g in [Graphics, Texts, DataExtensions, ReservedExtensions] ::
      !IsPairKey(g, key) && key != g.countKey
    requires key != "NUMX"
    ensures Lookup(Segments(s, buf).value.fields, key) == Lookup(AfterImages(s, buf).fields, key)
  {
    GraphicsRead(s, buf);
    NumxRead(s, buf);
    GroupFrame(AfterImages(s, buf), buf, Graphics, key);
    StepFacts(AfterGraphics(s, buf), buf, "NUMX", CountWidth, Raw);
    FromTextsKeep(s, buf, key);
  }

  /** The reads from the text group on keep a key that none of them reads. */
  lemma FromTextsKeep(s: Stage, buf: seq<Byte>, key: string)
    requires Segments(s, buf).Ok?
    requires forall g | g in [Texts, DataExtensions, ReservedExtensions] :: !IsPairKey(g, key) && key != g.countKey
    ensures Lookup(Segments(s, buf).value.fields, key) == Lookup(AfterNumx(s, buf).fields, key)
  {
    TextsRead(s, buf);
    DataExtensionsRead(s, buf);
    ReservedExtensionsRead(s, buf);
    GroupFrame(AfterNumx(s, buf), buf, Texts, key);
    GroupFrame(AfterTexts(s, buf), buf, DataExtensions, key);
    GroupFrame(AfterDataExtensions(s, buf), buf, ReservedExtensions, key);
  }

  /** Image pair k of a segment part read at c: LISHk holds the six bytes at
      c + 3 + 16(k - 1) and LIk the ten after them. */
  lemma SegmentsImagePair(s: Stage, buf: seq<Byte>, k: nat)
    requires Segments(s, buf).Ok? && 1 <= k <= SegmentCounts(s, buf)[0]
    ensures k < 1000
    ensures var p := s.cursor + 3 + 16 * (k - 1);
      && p + 16 <= |buf|
      && Lookup(Segments(s, buf).value.fields, SubheaderKey(Images, k)) == Some(Text(buf[p..p + 6]))
      && Lookup(Segments(s, buf).value.fields, SegmentKey(Images, k)) == Some(Text(buf[p + 6..p + 16]))
  {
    ImagesRead(s, buf);
    AllGroupsWellKeyed();
    PairWidths();
    GroupCountLayout(s, buf, Images);
    GroupPairLayout(s, buf, Images, k);
    var p := PairStart(s.cursor + CountWidth, Images, k);
    var q := s.cursor + 3 + 16 * (k - 1);
    assert p == q;
    assert SubheaderLength(buf, p, Images) == Text(buf[q..q + 6]);
    assert SegmentLength(buf, p, Images) == Text(buf[q + 6..q + 16]);
    ImageKeysElsewhere(k);
    AfterImagesKeep(s, buf, SubheaderKey(Images, k));
    AfterImagesKeep(s, buf, SegmentKey(Images, k));
  }

  /** NUMI holds the three bytes at the start of the segment part. */
  lemma SegmentsNumi(s: Stage, buf: seq<Byte>)
    requires Segments(s, buf).Ok?
    ensures s.cursor + 3 <= |buf|
    ensures Lookup(Segments(s, buf).value.fields, "NUMI") == Some(Text(buf[s.cursor..s.cursor + 3]))
  {
    ImagesRead(s, buf);
    AllGroupsWellKeyed();
    GroupCountLayout(s, buf, Images);
    forall g | g in [Graphics, Texts, DataExtensions, ReservedExtensions]
      ensures !IsPairKey(g, "NUMI") && "NUMI" != g.countKey
    {
      OutsideGroups(g, "NUMI");
    }
    AfterImagesKeep(s, buf, "NUMI");
  }

  /** NUMX holds the three bytes between the graphic and text groups. */
  lemma SegmentsNumx(s: Stage, buf: seq<Byte>)
    requires Segments(s, buf).Ok?
    ensures var x := AfterGraphics(s, buf).cursor;
      x + 3 <= |buf| && Lookup(Segments(s, buf).value.fields, "NUMX") == Some(Text(buf[x..x + 3]))
  {
    NumxRead(s, buf);
    StepFacts(AfterGraphics(s, buf), buf, "NUMX", CountWidth, Raw);
    forall g | g in [Texts, DataExtensions, ReservedExtensions]
      ensures !IsPairKey(g, "NUMX") && "NUMX" != g.countKey
    {
      OutsideGroups(g, "NUMX");
    }
    FromTextsKeep(s, buf, "NUMX");
  }

  /** The five counts of the whole header, images first. */
  function HeaderCounts(buf: seq<Byte>): (n: seq<nat>)
    requires HeaderStages(buf).Ok?
    ensures |n| == 5
  {
    SegmentPartRead(buf);
    SegmentCounts(FixedPart(buf), buf)
  }

  /** In the decoded header, image pair k sits at 363 + 16(k - 1): LISHk holds its
      six bytes and LIk the ten after them. */
  lemma HeaderImagePair(buf: seq<Byte>, k: nat)
    requires HeaderStages(buf).Ok? && 1 <= k <= HeaderCounts(buf)[0]
    ensures var p := 363 + 16 * (k - 1);
      && p + 16 <= |buf|
      && Lookup(HeaderSpec(buf).value, SubheaderKey(Images, k)) == Some(Text(buf[p..p + 6]))
      && Lookup(HeaderSpec(buf).value, SegmentKey(Images, k)) == Some(Text(buf[p + 6..p + 16]))
  {
    PrefixEnd(buf);
    SegmentPartRead(buf);
    SegmentsImagePair(FixedPart(buf), buf, k);
    ImageKeysElsewhere(k);
    AfterSegmentsKeeps(buf, SubheaderKey(Images, k));
    AfterSegmentsKeeps(buf, SegmentKey(Images, k));
  }

  /** In the decoded header NUMI is the three bytes at 360. */
  lemma HeaderNumi(buf: seq<Byte>)
    requires HeaderStages(buf).Ok?
    ensures 363 <= |buf| && Lookup(HeaderSpec(buf).value, "NUMI") == Some(Text(buf[360..363]))
  {
    PrefixEnd(buf);
    SegmentPartRead(buf);
    SegmentsNumi(FixedPart(buf), buf);
    AfterSegmentsKeeps(buf, "NUMI");
  }

  /** The image count is the decimal value of the three digits at 360. */
  lemma HeaderImageCount(buf: seq<Byte>)
    requires HeaderStages(buf).Ok?
    ensures 363 <= |buf| && AllDigits(Text(buf[360..363]))
    ensures HeaderCounts(buf)[0] == DecimalValue(Text(buf[360..363]))
  {
    var p := FixedPart(buf);
    PrefixEnd(buf);
    assert p.cursor == 360;
    SegmentPartRead(buf);
    assert HeaderCounts(buf) == SegmentCounts(p, buf);
    ImagesRead(p, buf);
    AllGroupsWellKeyed();
    GroupCountLayout(p, buf, Images);
  }

  /** In the decoded header NUMX is the three bytes after the image and graphic
      groups. */
  lemma HeaderNumx(buf: seq<Byte>)
    requires HeaderStages(buf).Ok?
    ensures var n := HeaderCounts(buf);
      var x := 366 + 16 * n[0] + 10 * n[1];
      x + 3 <= |buf| && Lookup(HeaderSpec(buf).value, "NUMX") == Some(Text(buf[x..x + 3]))
  {
    var p := FixedPart(buf);
    PrefixEnd(buf);
    assert p.cursor == 360;
    SegmentPartRead(buf);
    assert HeaderCounts(buf) == SegmentCounts(p, buf);
    FirstGroupsCursor(p, buf);
    SegmentsNumx(p, buf);
    AfterSegmentsKeeps(buf, "NUMX");
  }

  /** The segment part of the header ends after 360 bytes of fixed fields, 18
      of counts and NUMX, and the pairs of each group: 16 bytes per image, 10
      per graphic, 9 per text, 13 per data extension and 11 per reserved
      extension. */
  lemma HeaderSegmentsEnd(buf: seq<Byte>)
    requires HeaderStages(buf).Ok?
    ensures var n := HeaderCounts(buf);
      AfterSegmentPart(buf).cursor == 378 + 16 * n[0] + 10 * n[1] + 9 * n[2] + 13 * n[3] + 11 * n[4] <= |buf|
  {
    PrefixEnd(buf);
    SegmentPartRead(buf);
    SegmentsCursor(FixedPart(buf), buf);
  }

  /** A field of zeros reads as the count zero. */
  lemma ZeroField(buf: seq<Byte>, c: nat, w: nat)
    requires c + w <= |buf| && forall i | c <= i < c + w :: buf[i] == '0' as Byte
    ensures Text(buf[c..c + w]) == Zeros(w) && AllDigits(Zeros(w)) && DecimalValue(Zeros(w)) == 0
    ensures CountValue(buf[c..c + w]) == Some(0)
  {
    LeadingZeros(w, []);
    assert Zeros(w) + [] == Zeros(w);
    assert Text(buf[c..c + w]) == Zeros(w);
    CountValueIsDecimal(buf[c..c + w]);
  }

  /** A segment part of eighteen zeros has no segments and is eighteen bytes long. */
  lemma SegmentsAllZero(s: Stage, buf: seq<Byte>)
    requires Segments(s, buf).Ok? && s.cursor + 18 <= |buf|
    requires forall i | s.cursor <= i < s.cursor + 18 :: buf[i] == '0' as Byte
    ensures SegmentCounts(s, buf) == [0, 0, 0, 0, 0]
    ensures Segments(s, buf).value.cursor == s.cursor + 18
  {
    var c := s.cursor;
    var n := SegmentCounts(s, buf);
    SegmentsCursor(s, buf);
    ZeroField(buf, c, CountWidth);
    assert n[0] == 0;
    var a := AfterImages(s, buf).cursor;
    assert a == c + 3;
    ZeroField(buf, a, CountWidth);
    assert n[1] == 0;
    var x := AfterNumx(s, buf).cursor;
    assert x == c + 9;
    ZeroField(buf, x, CountWidth);
    assert n[2] == 0;
    var t := AfterTexts(s, buf).cursor;
    assert t == c + 12;
    ZeroField(buf, t, CountWidth);
    assert n[3] == 0;
    var d := AfterDataExtensions(s, buf).cursor;
    assert d == c + 15;
    ZeroField(buf, d, CountWidth);
    assert n[4] == 0;
  }

  /** The fixed part holds neither UDHOFL nor XHOFL. */
  lemma OverflowKeysOutsidePrefix()
    ensures AbsentElsewhere(6, "UDHOFL") && AbsentElsewhere(6, "XHOFL")
  {
  }

  lemma PrefixLacks(buf: seq<Byte>, key: string)
    requires Prefix(buf).Ok? && AbsentElsewhere(6, key)
    ensures Lookup(Prefix(buf).value.fields, key) == None
  {
    PrefixChained(buf);
    PrefixOnlyIn(6, key);
    ChainKeeps(buf, PrefixTables, PrefixStages(buf), 0, 6, key);
  }

  /** Zero-length user-defined and extended areas, the ten bytes at the
      cursor, add only UDHDL and XHDL and end ten bytes further on. */
  lemma ZeroAreasKeep(s: Stage, buf: seq<Byte>, key: string)
    requires UserStep(s, buf).Ok? && ExtendedStep(UserStep(s, buf).value, buf).Ok?
    requires s.cursor + 10 <= |buf| && forall i | s.cursor <= i < s.cursor + 10 :: buf[i] == '0' as Byte
    requires key != "UDHDL" && key != "XHDL"
    ensures var t := ExtendedStep(UserStep(s, buf).value, buf).value;
      Lookup(t.fields, key) == Lookup(s.fields, key) && t.cursor == s.cursor + 10
  {
    var c := s.cursor;
    ZeroField(buf, c, 5);
    UserAreaLength(s, buf);
    var u := UserStep(s, buf).value;
    assert u.cursor == c + 5;
    ZeroField(buf, u.cursor, 5);
    ExtendedAreaLength(u, buf);
  }

  /** A header whose counts and area lengths, the 28 bytes from 360, are all zero
      is 388 bytes long, has no segments and holds neither UDHOFL nor XHOFL. */
  lemma MinimalHeader(buf: seq<Byte>)
    requires HeaderStages(buf).Ok? && 388 <= |buf|
    requires forall i | 360 <= i < 388 :: buf[i] == '0' as Byte
    ensures HeaderCounts(buf) == [0, 0, 0, 0, 0]
    ensures HeaderStages(buf).value.cursor == 388
    ensures "UDHOFL" !in HeaderSpec(buf).value && "XHOFL" !in HeaderSpec(buf).value
  {
    PrefixEnd(buf);
    SegmentPartRead(buf);
    SegmentsAllZero(FixedPart(buf), buf);
    UserAreaRead(buf);
    ExtendedAreaRead(buf);
    var a := AfterSegmentPart(buf);
    assert a.cursor == 378;
    ZeroAreasKeep(a, buf, "UDHOFL");
    ZeroAreasKeep(a, buf, "XHOFL");
    OverflowKeysOutsidePrefix();
    PrefixLacks(buf, "UDHOFL");
    PrefixLacks(buf, "XHOFL");
    SegmentsFrame(FixedPart(buf), buf, "UDHOFL");
    SegmentsFrame(FixedPart(buf), buf, "XHOFL");
  }
}
