/** The segment subheaders the decoder reads at the offsets the file header
    gives: the image subheader's first 290 bytes, and the part type and
    identifier of graphic, text and data extension subheaders. */
module Subheaders {
  import opened Wrappers
  import opened Ascii
  import opened Fields
  import opened Decoding
  import opened FixedFields

  // ---------------------------------------------------------------------------
  // The image subheader: 21 fields, bytes offset to offset + 290
  // ---------------------------------------------------------------------------

  /** IM to IID2: bytes 0 to 123 of the subheader. */
  function ImageIdentification(s: Stage, buf: seq<Byte>): Result<Stage>
  {
    var s :- Step(s, buf, "IM", 2, Raw);
    var s :- Step(s, buf, "IID1", 10, Raw);
    var s :- Step(s, buf, "IDATIM", 14, DateTime);
    var s :- Step(s, buf, "TGTID", 17, OptionalTrimmed);
    Step(s, buf, "IID2", 80, OptionalTrimmed)
  }

  /** ISCLAS to ISREL: bytes 123 to 159. Unlike the file header's FSCLSY, the
      classification system is trimmed. */
  function ImageSecurity(s: Stage, buf: seq<Byte>): Result<Stage>
  {
    var s :- Step(s, buf, "ISCLAS", 1, Raw);
    var s :- Step(s, buf, "ISCLSY", 2, OptionalTrimmed);
    var s :- Step(s, buf, "ISCODE", 11, OptionalTrimmed);
    var s :- Step(s, buf, "ISCTLH", 2, OptionalTrimmed);
    Step(s, buf, "ISREL", 20, OptionalTrimmed)
  }

  /** ISDCTP to ISDGDT: bytes 159 to 182. Both dates are trimmed. */
  function ImageDeclassification(s: Stage, buf: seq<Byte>): Result<Stage>
  {
    var s :- Step(s, buf, "ISDCTP", 2, OptionalTrimmed);
    var s :- Step(s, buf, "ISDCDT", 8, OptionalDate);
    var s :- Step(s, buf, "ISDCXM", 4, OptionalTrimmed);
    var s :- Step(s, buf, "ISDG", 1, OptionalTrimmed);
    Step(s, buf, "ISDGDT", 8, OptionalDate)
  }

  /** ISCLTX to ISCTLN: bytes 182 to 290. */
  function ImageAuthority(s: Stage, buf: seq<Byte>): Result<Stage>
  {
    var s :- Step(s, buf, "ISCLTX", 43, OptionalTrimmed);
    var s :- Step(s, buf, "ISCATP", 1, OptionalTrimmed);
    var s :- Step(s, buf, "ISCAUT", 40, OptionalTrimmed);
    var s :- Step(s, buf, "ISCRSN", 1, OptionalTrimmed);
    var s :- Step(s, buf, "ISSRDT", 8, OptionalDate);
    Step(s, buf, "ISCTLN", 15, OptionalTrimmed)
  }

  /** The field map of the image subheader at `offset`. */
  function ImageSubheader(buf: seq<Byte>, offset: nat): Result<FieldMap>
  {
    var s :- ImageIdentification(Stage(map[], offset), buf);
    var s :- ImageSecurity(s, buf);
    var s :- ImageDeclassification(s, buf);
    var s :- ImageAuthority(s, buf);
    Ok(s.fields)
  }

  const ImageIdentificationFields: seq<Field> := [
    Field("IM", 2, Raw), Field("IID1", 10, Raw), Field("IDATIM", 14, DateTime),
    Field("TGTID", 17, OptionalTrimmed), Field("IID2", 80, OptionalTrimmed)]

  const ImageSecurityFields: seq<Field> := [
    Field("ISCLAS", 1, Raw), Field("ISCLSY", 2, OptionalTrimmed), Field("ISCODE", 11, OptionalTrimmed),
    Field("ISCTLH", 2, OptionalTrimmed), Field("ISREL", 20, OptionalTrimmed)]

  const ImageDeclassificationFields: seq<Field> := [
    Field("ISDCTP", 2, OptionalTrimmed), Field("ISDCDT", 8, OptionalDate), Field("ISDCXM", 4, OptionalTrimmed),
    Field("ISDG", 1, OptionalTrimmed), Field("ISDGDT", 8, OptionalDate)]

  const ImageAuthorityFields: seq<Field> := [
    Field("ISCLTX", 43, OptionalTrimmed), Field("ISCATP", 1, OptionalTrimmed), Field("ISCAUT", 40, OptionalTrimmed),
    Field("ISCRSN", 1, OptionalTrimmed), Field("ISSRDT", 8, OptionalDate), Field("ISCTLN", 15, OptionalTrimmed)]

  /** The whole image subheader as one table, built from its four parts. */
  const ImageFront: seq<Field> := ImageIdentificationFields + ImageSecurityFields
  const ImageMiddle: seq<Field> := ImageFront + ImageDeclassificationFields
  const ImageFields: seq<Field> := ImageMiddle + ImageAuthorityFields

  lemma ImageIdentificationIsRun(s: Stage, buf: seq<Byte>)
    ensures AllFit(ImageIdentificationFields) && ImageIdentification(s, buf) == Run(s, buf, ImageIdentificationFields)
  {
  }

  lemma ImageSecurityIsRun(s: Stage, buf: seq<Byte>)
    ensures AllFit(ImageSecurityFields) && ImageSecurity(s, buf) == Run(s, buf, ImageSecurityFields)
  {
  }

  lemma ImageDeclassificationIsRun(s: Stage, buf: seq<Byte>)
    ensures AllFit(ImageDeclassificationFields) && ImageDeclassification(s, buf) == Run(s, buf, ImageDeclassificationFields)
  {
  }

  lemma ImageAuthorityIsRun(s: Stage, buf: seq<Byte>)
    ensures AllFit(ImageAuthorityFields) && ImageAuthority(s, buf) == Run(s, buf, ImageAuthorityFields)
  {
  }

  /** The run of the whole table from an empty map at `offset`. */
  function ImageRun(buf: seq<Byte>, offset: nat): Result<Stage>
  {
    ImageTableFits();
    Run(Stage(map[], offset), buf, ImageFields)
  }

  lemma ImageTableFits()
    ensures AllFit(ImageFields)
  {
    var s0, e := Stage(map[], 0), [];
    ImageIdentificationIsRun(s0, e);
    ImageSecurityIsRun(s0, e);
    ImageDeclassificationIsRun(s0, e);
    ImageAuthorityIsRun(s0, e);
    RunAppend(s0, e, ImageIdentificationFields, ImageSecurityFields);
    RunAppend(s0, e, ImageFront, ImageDeclassificationFields);
    RunAppend(s0, e, ImageMiddle, ImageAuthorityFields);
  }

  /** Reading the four parts in turn is one run over the whole table. */
  lemma ImageIsRun(buf: seq<Byte>, offset: nat)
    ensures var r := ImageRun(buf, offset);
      ImageSubheader(buf, offset) == if r.Ok? then Ok(r.value.fields) else Err(r.error)
  {
    var s0 := Stage(map[], offset);
    ImageIdentificationIsRun(s0, buf);
    ImageSecurityIsRun(s0, buf);
    ImageDeclassificationIsRun(s0, buf);
    ImageAuthorityIsRun(s0, buf);
    RunAppend(s0, buf, ImageIdentificationFields, ImageSecurityFields);
    assert AllFit(ImageFront);
    RunAppend(s0, buf, ImageFront, ImageDeclassificationFields);
    assert AllFit(ImageMiddle);
    RunAppend(s0, buf, ImageMiddle, ImageAuthorityFields);
    var r1 := Run(s0, buf, ImageIdentificationFields);
    if r1.Ok? {
      ImageSecurityIsRun(r1.value, buf);
      var r2 := Run(r1.value, buf, ImageSecurityFields);
      if r2.Ok? {
        ImageDeclassificationIsRun(r2.value, buf);
        var r3 := Run(r2.value, buf, ImageDeclassificationFields);
        if r3.Ok? {
          ImageAuthorityIsRun(r3.value, buf);
        }
      }
    }
  }

  lemma ImageIdentificationShape()
    ensures Width(ImageIdentificationFields) == 123
    ensures Distinct(ImageIdentificationFields) && TextOnly(ImageIdentificationFields)
  {
  }

  lemma ImageSecurityShape()
    ensures Width(ImageSecurityFields) == 36
    ensures Distinct(ImageSecurityFields) && TextOnly(ImageSecurityFields)
  {
  }

  lemma ImageDeclassificationShape()
    ensures Width(ImageDeclassificationFields) == 23
    ensures Distinct(ImageDeclassificationFields) && TextOnly(ImageDeclassificationFields)
  {
  }

  lemma ImageAuthorityShape()
    ensures Width(ImageAuthorityFields) == 108
    ensures Distinct(ImageAuthorityFields) && TextOnly(ImageAuthorityFields)
  {
  }

  lemma ImageFrontDisjoint()
    ensures Disjoint(ImageIdentificationFields, ImageSecurityFields)
    ensures Disjoint(ImageIdentificationFields, ImageDeclassificationFields)
    ensures Disjoint(ImageSecurityFields, ImageDeclassificationFields)
  {
  }

  lemma ImageBackDisjoint()
    ensures Disjoint(ImageIdentificationFields, ImageAuthorityFields)
    ensures Disjoint(ImageSecurityFields, ImageAuthorityFields)
    ensures Disjoint(ImageDeclassificationFields, ImageAuthorityFields)
  {
  }

  /** The parts end at 123, 159, 182 and 290 bytes. */
  lemma ImageWidth()
    ensures Width(ImageFront) == 159 && Width(ImageMiddle) == 182 && Width(ImageFields) == 290
  {
    ImageIdentificationShape();
    ImageSecurityShape();
    ImageDeclassificationShape();
    ImageAuthorityShape();
    WidthAppend(ImageIdentificationFields, ImageSecurityFields);
    WidthAppend(ImageFront, ImageDeclassificationFields);
    WidthAppend(ImageMiddle, ImageAuthorityFields);
  }

  /** The 21 keys are distinct and no field is the colour. */
  lemma ImageDistinct()
    ensures Distinct(ImageFields) && TextOnly(ImageFields)
  {
    ImageIdentificationShape();
    ImageSecurityShape();
    ImageDeclassificationShape();
    ImageAuthorityShape();
    ImageFrontDisjoint();
    ImageBackDisjoint();
    DistinctAppend(ImageIdentificationFields, ImageSecurityFields);
    DisjointAppend(ImageIdentificationFields, ImageSecurityFields, ImageDeclassificationFields);
    DistinctAppend(ImageFront, ImageDeclassificationFields);
    DisjointAppend(ImageIdentificationFields, ImageSecurityFields, ImageAuthorityFields);
    DisjointAppend(ImageFront, ImageDeclassificationFields, ImageAuthorityFields);
    DistinctAppend(ImageMiddle, ImageAuthorityFields);
  }

  /** The image subheader is read exactly when the 290 bytes from `offset` lie in
      the buffer and are ASCII. */
  lemma ImageReadable(buf: seq<Byte>, offset: nat)
    ensures ImageSubheader(buf, offset).Ok? <==> offset + 290 <= |buf| && AsciiSpan(buf, offset, offset + 290)
  {
    ImageIsRun(buf, offset);
    ImageTableFits();
    ImageWidth();
    ImageDistinct();
    RunOk(Stage(map[], offset), buf, ImageFields);
  }

  /** The image subheader depends on bytes offset to offset + 290 and no others. */
  lemma ImageLocal(b1: seq<Byte>, b2: seq<Byte>, offset: nat)
    requires offset + 290 <= |b1| && offset + 290 <= |b2|
    requires b1[offset..offset + 290] == b2[offset..offset + 290]
    ensures ImageSubheader(b1, offset) == ImageSubheader(b2, offset)
  {
    ImageIsRun(b1, offset);
    ImageIsRun(b2, offset);
    ImageTableFits();
    ImageWidth();
    RunLocal(Stage(map[], offset), b1, b2, ImageFields);
  }

  // ---------------------------------------------------------------------------
  // Where each image field comes from
  // ---------------------------------------------------------------------------

  /** Field j of the image table holds the entry of its slot, at `offset` plus
      the widths of the fields before it. */
  lemma ImageField(buf: seq<Byte>, offset: nat, j: nat)
    requires ImageSubheader(buf, offset).Ok? && j < |ImageFields|
    ensures AllFit(ImageFields)
    ensures var f := ImageFields[j];
      var at := offset + Offset(ImageFields, j);
      && at + f.width <= |buf|
      && Lookup(ImageSubheader(buf, offset).value, f.key) == SlotValue(buf, at, f.width, f.form)
  {
    ImageIsRun(buf, offset);
    ImageTableFits();
    ImageDistinct();
    RunField(Stage(map[], offset), buf, ImageFields, j);
  }

  // Where the fields of each part sit in the whole table.

  lemma IdentificationSlot(j: nat)
    requires j < 5
    ensures ImageFields[j] == ImageIdentificationFields[j]
    ensures Offset(ImageFields, j) == Offset(ImageIdentificationFields, j)
  {
    OffsetPrefix(ImageMiddle, ImageAuthorityFields, j);
    OffsetPrefix(ImageFront, ImageDeclassificationFields, j);
    OffsetPrefix(ImageIdentificationFields, ImageSecurityFields, j);
  }

  lemma SecuritySlot(j: nat)
    requires j < 5
    ensures ImageFields[5 + j] == ImageSecurityFields[j]
    ensures Offset(ImageFields, 5 + j) == 123 + Offset(ImageSecurityFields, j)
  {
    ImageIdentificationShape();
    OffsetPrefix(ImageMiddle, ImageAuthorityFields, 5 + j);
    OffsetPrefix(ImageFront, ImageDeclassificationFields, 5 + j);
    OffsetAppend(ImageIdentificationFields, ImageSecurityFields, j);
  }

  lemma DeclassificationSlot(j: nat)
    requires j < 5
    ensures ImageFields[10 + j] == ImageDeclassificationFields[j]
    ensures Offset(ImageFields, 10 + j) == 159 + Offset(ImageDeclassificationFields, j)
  {
    ImageWidth();
    OffsetPrefix(ImageMiddle, ImageAuthorityFields, 10 + j);
    OffsetAppend(ImageFront, ImageDeclassificationFields, j);
  }

  lemma AuthoritySlot(j: nat)
    requires j < 6
    ensures ImageFields[15 + j] == ImageAuthorityFields[j]
    ensures Offset(ImageFields, 15 + j) == 182 + Offset(ImageAuthorityFields, j)
  {
    ImageWidth();
    OffsetAppend(ImageMiddle, ImageAuthorityFields, j);
  }

  lemma ImageFacts()
    ensures var t := ImageFields;
      && t[0] == Field("IM", 2, Raw) && Offset(t, 0) == 0
      && t[1] == Field("IID1", 10, Raw) && Offset(t, 1) == 2
      && t[2] == Field("IDATIM", 14, DateTime) && Offset(t, 2) == 12
      && t[5] == Field("ISCLAS", 1, Raw) && Offset(t, 5) == 123
      && t[6] == Field("ISCLSY", 2, OptionalTrimmed) && Offset(t, 6) == 124
  {
    IdentificationSlot(0);
    IdentificationSlot(1);
    IdentificationSlot(2);
    SecuritySlot(0);
    SecuritySlot(1);
  }

  lemma ImageDateFacts()
    ensures var t := ImageFields;
      && t[11] == Field("ISDCDT", 8, OptionalDate) && Offset(t, 11) == 161
      && t[14] == Field("ISDGDT", 8, OptionalDate) && Offset(t, 14) == 174
      && t[19] == Field("ISSRDT", 8, OptionalDate) && Offset(t, 19) == 267
      && t[20] == Field("ISCTLN", 15, OptionalTrimmed) && Offset(t, 20) == 275
  {
    DeclassificationSlot(1);
    DeclassificationSlot(4);
    AuthoritySlot(4);
    AuthoritySlot(5);
  }

  /** IM, IID1 and ISCLAS are always present as read, at 0, 2 and 123 from the
      offset; IDATIM at 12 is the 19-character date and time; the classification
      system ISCLSY at 124 is trimmed. */
  lemma ImageIdentifiers(buf: seq<Byte>, offset: nat)
    requires ImageSubheader(buf, offset).Ok?
    ensures offset + 290 <= |buf|
    ensures var m := ImageSubheader(buf, offset).value;
      && Lookup(m, "IM") == Some(Text(buf[offset..offset + 2]))
      && Lookup(m, "IID1") == Some(Text(buf[offset + 2..offset + 12]))
      && Lookup(m, "IDATIM") == Some(DateTimeText(buf[offset + 12..offset + 26]))
      && |m["IDATIM"]| == 19
      && Lookup(m, "ISCLAS") == Some(Text(buf[offset + 123..offset + 124]))
      && Lookup(m, "ISCLSY") == SlotValue(buf, offset + 124, 2, OptionalTrimmed)
  {
    ImageReadable(buf, offset);
    ImageFacts();
    ImageField(buf, offset, 0);
    ImageField(buf, offset, 1);
    ImageField(buf, offset, 2);
    ImageField(buf, offset, 5);
    ImageField(buf, offset, 6);
    DateTimeShape(buf[offset + 12..offset + 26]);
  }

  /** The three dates are joined and trimmed, at 161, 174 and 267 from the
      offset, and ISCTLN, the last field, ends at 290. */
  lemma ImageDates(buf: seq<Byte>, offset: nat)
    requires ImageSubheader(buf, offset).Ok?
    ensures offset + 290 <= |buf|
    ensures var m := ImageSubheader(buf, offset).value;
      && Lookup(m, "ISDCDT") == SlotValue(buf, offset + 161, 8, OptionalDate)
      && Lookup(m, "ISDGDT") == SlotValue(buf, offset + 174, 8, OptionalDate)
      && Lookup(m, "ISSRDT") == SlotValue(buf, offset + 267, 8, OptionalDate)
      && Lookup(m, "ISCTLN") == SlotValue(buf, offset + 275, 15, OptionalTrimmed)
  {
    ImageReadable(buf, offset);
    ImageDateFacts();
    ImageField(buf, offset, 11);
    ImageField(buf, offset, 14);
    ImageField(buf, offset, 19);
    ImageField(buf, offset, 20);
  }

  // ---------------------------------------------------------------------------
  // Graphic, text and data extension subheaders: part type and identifier
  // ---------------------------------------------------------------------------

  /** The two leading fields of a subheader: a 2-byte part type and an
      identifier of `idWidth` bytes, both as read. */
  function TypeAndId(buf: seq<Byte>, offset: nat, typeKey: string, idKey: string, idWidth: nat): Result<FieldMap>
  {
    var s :- Step(Stage(map[], offset), buf, typeKey, 2, Raw);
    var s :- Step(s, buf, idKey, idWidth, Raw);
    Ok(s.fields)
  }

  /** SY and SID: 12 bytes. */
  function GraphicSubheader(buf: seq<Byte>, offset: nat): Result<FieldMap>
  {
    TypeAndId(buf, offset, "SY", "SID", 10)
  }

  /** TE and TEXTID: 9 bytes. */
  function TextSubheader(buf: seq<Byte>, offset: nat): Result<FieldMap>
  {
    TypeAndId(buf, offset, "TE", "TEXTID", 7)
  }

  /** DE and DESID: 27 bytes. */
  function DataExtensionSubheader(buf: seq<Byte>, offset: nat): Result<FieldMap>
  {
    TypeAndId(buf, offset, "DE", "DESID", 25)
  }

  /** The two fields are read exactly when their bytes lie in the buffer and are
      ASCII; the map then holds those two keys and nothing else. A failure names
      the start of the field that could not be read. */
  lemma TypeAndIdLayout(buf: seq<Byte>, offset: nat, typeKey: string, idKey: string, idWidth: nat)
    requires typeKey != idKey
    ensures var r := TypeAndId(buf, offset, typeKey, idKey, idWidth);
      var end := offset + 2 + idWidth;
      && (r.Ok? <==> end <= |buf| && AsciiSpan(buf, offset, end))
      && (r.Ok? ==> r.value == map[typeKey := Text(buf[offset..offset + 2]), idKey := Text(buf[offset + 2..end])])
      && (r.Err? ==> r.error.at == offset || r.error.at == offset + 2)
  {
    var end := offset + 2 + idWidth;
    var s0 := Stage(map[], offset);
    var r1 := Step(s0, buf, typeKey, 2, Raw);
    if r1.Ok? {
      StepFacts(s0, buf, typeKey, 2, Raw);
      var r2 := Step(r1.value, buf, idKey, idWidth, Raw);
      if r2.Ok? {
        StepFacts(r1.value, buf, idKey, idWidth, Raw);
      } else if end <= |buf| {
        assert !AsciiSpan(buf, offset + 2, end);
      }
    } else if end <= |buf| {
      assert !AsciiSpan(buf, offset, offset + 2);
    }
  }

  /** The graphic subheader holds SY from bytes 0 to 2 and SID from 2 to 12. */
  lemma GraphicLayout(buf: seq<Byte>, offset: nat)
    ensures var r := GraphicSubheader(buf, offset);
      && (r.Ok? <==> offset + 12 <= |buf| && AsciiSpan(buf, offset, offset + 12))
      && (r.Ok? ==> r.value == map["SY" := Text(buf[offset..offset + 2]), "SID" := Text(buf[offset + 2..offset + 12])])
  {
    TypeAndIdLayout(buf, offset, "SY", "SID", 10);
  }

  /** The text subheader holds TE from bytes 0 to 2 and TEXTID from 2 to 9. */
  lemma TextLayout(buf: seq<Byte>, offset: nat)
    ensures var r := TextSubheader(buf, offset);
      && (r.Ok? <==> offset + 9 <= |buf| && AsciiSpan(buf, offset, offset + 9))
      && (r.Ok? ==> r.value == map["TE" := Text(buf[offset..offset + 2]), "TEXTID" := Text(buf[offset + 2..offset + 9])])
  {
    TypeAndIdLayout(buf, offset, "TE", "TEXTID", 7);
  }

  /** The data extension subheader holds DE from bytes 0 to 2 and DESID from 2
      to 27. */
  lemma DataExtensionLayout(buf: seq<Byte>, offset: nat)
    ensures var r := DataExtensionSubheader(buf, offset);
      && (r.Ok? <==> offset + 27 <= |buf| && AsciiSpan(buf, offset, offset + 27))
      && (r.Ok? ==> r.value == map["DE" := Text(buf[offset..offset + 2]), "DESID" := Text(buf[offset + 2..offset + 27])])
  {
    TypeAndIdLayout(buf, offset, "DE", "DESID", 25);
  }

  // ---------------------------------------------------------------------------
  // The decoder's reads
  // ---------------------------------------------------------------------------

  method ReadImageIdentification(d: Decoder) returns (o: Outcome)
    modifies d
    ensures Agrees(o, ImageIdentification(old(d.State()), d.buf), d.State())
  {
    o := d.Slot("IM", 2, Raw);
    if o.Pass? { o := d.Slot("IID1", 10, Raw); }
    if o.Pass? { o := d.Slot("IDATIM", 14, DateTime); }
    if o.Pass? { o := d.Slot("TGTID", 17, OptionalTrimmed); }
    if o.Pass? { o := d.Slot("IID2", 80, OptionalTrimmed); }
  }

  method ReadImageSecurity(d: Decoder) returns (o: Outcome)
    modifies d
    ensures Agrees(o, ImageSecurity(old(d.State()), d.buf), d.State())
  {
    o := d.Slot("ISCLAS", 1, Raw);
    if o.Pass? { o := d.Slot("ISCLSY", 2, OptionalTrimmed); }
    if o.Pass? { o := d.Slot("ISCODE", 11, OptionalTrimmed); }
    if o.Pass? { o := d.Slot("ISCTLH", 2, OptionalTrimmed); }
    if o.Pass? { o := d.Slot("ISREL", 20, OptionalTrimmed); }
  }

  method ReadImageDeclassification(d: Decoder) returns (o: Outcome)
    modifies d
    ensures Agrees(o, ImageDeclassification(old(d.State()), d.buf), d.State())
  {
    o := d.Slot("ISDCTP", 2, OptionalTrimmed);
    if o.Pass? { o := d.Slot("ISDCDT", 8, OptionalDate); }
    if o.Pass? { o := d.Slot("ISDCXM", 4, OptionalTrimmed); }
    if o.Pass? { o := d.Slot("ISDG", 1, OptionalTrimmed); }
    if o.Pass? { o := d.Slot("ISDGDT", 8, OptionalDate); }
  }

  method ReadImageAuthority(d: Decoder) returns (o: Outcome)
    modifies d
    ensures Agrees(o, ImageAuthority(old(d.State()), d.buf), d.State())
  {
    o := d.Slot("ISCLTX", 43, OptionalTrimmed);
    if o.Pass? { o := d.Slot("ISCATP", 1, OptionalTrimmed); }
    if o.Pass? { o := d.Slot("ISCAUT", 40, OptionalTrimmed); }
    if o.Pass? { o := d.Slot("ISCRSN", 1, OptionalTrimmed); }
    if o.Pass? { o := d.Slot("ISSRDT", 8, OptionalDate); }
    if o.Pass? { o := d.Slot("ISCTLN", 15, OptionalTrimmed); }
  }

  /** Decodes the image subheader at `offset`. */
  method ParseImageSubheader(buf: seq<Byte>, offset: nat) returns (r: Result<FieldMap>)
    ensures r == ImageSubheader(buf, offset)
  {
    var d := new Decoder(buf, offset);
    var o := ReadImageIdentification(d);
    if o.Pass? { o := ReadImageSecurity(d); }
    if o.Pass? { o := ReadImageDeclassification(d); }
    if o.Pass? { o := ReadImageAuthority(d); }
    if o.Fail? {
      return Err(o.error);
    }
    return Ok(d.fields);
  }

  /** Decodes a part type and an identifier at `offset`. */
  method ParseTypeAndId(buf: seq<Byte>, offset: nat, typeKey: string, idKey: string, idWidth: nat)
    returns (r: Result<FieldMap>)
    ensures r == TypeAndId(buf, offset, typeKey, idKey, idWidth)
  {
    var d := new Decoder(buf, offset);
    var o := d.Slot(typeKey, 2, Raw);
    if o.Pass? { o := d.Slot(idKey, idWidth, Raw); }
    if o.Fail? {
      return Err(o.error);
    }
    return Ok(d.fields);
  }

  method ParseGraphicSubheader(buf: seq<Byte>, offset: nat) returns (r: Result<FieldMap>)
    ensures r == GraphicSubheader(buf, offset)
  {
    r := ParseTypeAndId(buf, offset, "SY", "SID", 10);
  }

  method ParseTextSubheader(buf: seq<Byte>, offset: nat) returns (r: Result<FieldMap>)
    ensures r == TextSubheader(buf, offset)
  {
    r := ParseTypeAndId(buf, offset, "TE", "TEXTID", 7);
  }

  method ParseDataExtensionSubheader(buf: seq<Byte>, offset: nat) returns (r: Result<FieldMap>)
    ensures r == DataExtensionSubheader(buf, offset)
  {
    r := ParseTypeAndId(buf, offset, "DE", "DESID", 25);
  }
}
