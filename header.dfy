/** The NITF file header as the decoder reads it: fixed fields from offset 0 to
    360, the five segment groups with NUMX between the graphic and text groups,
    then the user-defined and extended tag-length-value areas. */
module FileHeader {
  import opened Wrappers
  import opened Ascii
  import opened Fields
  import opened Groups
  import opened Decoding
  import opened FixedFields

  // ---------------------------------------------------------------------------
  // The reads in source order, as functions of the state before them
  // ---------------------------------------------------------------------------

  /** FHDR to FTITLE: bytes 0 to 119 when started at 0. */
  function Identification(s: Stage, buf: seq<Byte>): Result<Stage>
  {
    var s :- Step(s, buf, "FHDR", 4, Raw);
    var s :- Step(s, buf, "FVER", 5, Raw);
    var s :- Step(s, buf, "CLEVEL", 2, Raw);
    var s :- Step(s, buf, "STYPE", 4, Raw);
    var s :- Step(s, buf, "OSTAID", 10, Trimmed);
    var s :- Step(s, buf, "FDT", 14, DateTime);
    Step(s, buf, "FTITLE", 80, OptionalTrimmed)
  }

  /** FSCLAS to FSREL: bytes 119 to 155. */
  function Security(s: Stage, buf: seq<Byte>): Result<Stage>
  {
    var s :- Step(s, buf, "FSCLAS", 1, Raw);
    var s :- Step(s, buf, "FSCLSY", 2, OptionalRaw);
    var s :- Step(s, buf, "FSCODE", 11, OptionalTrimmed);
    var s :- Step(s, buf, "FSCTLH", 2, OptionalTrimmed);
    Step(s, buf, "FSREL", 20, OptionalTrimmed)
  }

  /** FSDCTP to FSDGDT: bytes 155 to 178. */
  function Declassification(s: Stage, buf: seq<Byte>): Result<Stage>
  {
    var s :- Step(s, buf, "FSDCTP", 2, OptionalTrimmed);
    var s :- Step(s, buf, "FSDCDT", 8, OptionalDate);
    var s :- Step(s, buf, "FSDCXM", 4, OptionalTrimmed);
    var s :- Step(s, buf, "FSDG", 1, OptionalTrimmed);
    Step(s, buf, "FSDGDT", 8, OptionalDateRaw)
  }

  /** FSCLTX to FSCLTN: bytes 178 to 286. */
  function Authority(s: Stage, buf: seq<Byte>): Result<Stage>
  {
    var s :- Step(s, buf, "FSCLTX", 43, OptionalTrimmed);
    var s :- Step(s, buf, "FSCATP", 1, OptionalRaw);
    var s :- Step(s, buf, "FSCAUT", 40, OptionalTrimmed);
    var s :- Step(s, buf, "FSCRSN", 1, OptionalRaw);
    var s :- Step(s, buf, "FSSRDT", 8, OptionalDate);
    Step(s, buf, "FSCLTN", 15, OptionalTrimmed)
  }

  /** FSCOP to OPHONE: bytes 286 to 342. */
  function Origin(s: Stage, buf: seq<Byte>): Result<Stage>
  {
    var s :- Step(s, buf, "FSCOP", 5, Trimmed);
    var s :- Step(s, buf, "FSCPYS", 5, Trimmed);
    var s :- Step(s, buf, "ENCRYP", 1, Trimmed);
    var s :- Step(s, buf, "FBKGC", 3, Color);
    var s :- Step(s, buf, "ONAME", 24, OptionalTrimmed);
    Step(s, buf, "OPHONE", 18, OptionalTrimmed)
  }

  /** FL and HL: bytes 342 to 360. */
  function Lengths(s: Stage, buf: seq<Byte>): Result<Stage>
  {
    var s :- Step(s, buf, "FL", 12, Raw);
    Step(s, buf, "HL", 6, Raw)
  }

  /** The five groups, with NUMX between the graphic and the text group. */
  function Segments(s: Stage, buf: seq<Byte>): Result<Stage>
  {
    var s :- GroupStep(s, buf, Images);
    var s :- GroupStep(s, buf, Graphics);
    var s :- Step(s, buf, "NUMX", CountWidth, Raw);
    var s :- GroupStep(s, buf, Texts);
    var s :- GroupStep(s, buf, DataExtensions);
    GroupStep(s, buf, ReservedExtensions)
  }

  /** The fixed part of the header, bytes 0 to 360: 41 fields in six runs. */
  function Prefix(buf: seq<Byte>): Result<Stage>
  {
    var s :- Identification(Stage(map[], 0), buf);
    var s :- Security(s, buf);
    var s :- Declassification(s, buf);
    var s :- Authority(s, buf);
    var s :- Origin(s, buf);
    Lengths(s, buf)
  }

  /** Every read of the header in order; the cursor ends where the decoder stops. */
  function HeaderStages(buf: seq<Byte>): Result<Stage>
  {
    var s :- Prefix(buf);
    var s :- Segments(s, buf);
    var s :- UserStep(s, buf);
    ExtendedStep(s, buf)
  }

  /** The file header's field map. */
  function HeaderSpec(buf: seq<Byte>): Result<FieldMap>
  {
    var s :- HeaderStages(buf);
    Ok(s.fields)
  }

  // ---------------------------------------------------------------------------
  // The fixed part as tables
  // ---------------------------------------------------------------------------

  const IdentificationFields: seq<Field> := [
    Field("FHDR", 4, Raw), Field("FVER", 5, Raw), Field("CLEVEL", 2, Raw), Field("STYPE", 4, Raw),
    Field("OSTAID", 10, Trimmed), Field("FDT", 14, DateTime), Field("FTITLE", 80, OptionalTrimmed)]

  const SecurityFields: seq<Field> := [
    Field("FSCLAS", 1, Raw), Field("FSCLSY", 2, OptionalRaw), Field("FSCODE", 11, OptionalTrimmed),
    Field("FSCTLH", 2, OptionalTrimmed), Field("FSREL", 20, OptionalTrimmed)]

  const DeclassificationFields: seq<Field> := [
    Field("FSDCTP", 2, OptionalTrimmed), Field("FSDCDT", 8, OptionalDate), Field("FSDCXM", 4, OptionalTrimmed),
    Field("FSDG", 1, OptionalTrimmed), Field("FSDGDT", 8, OptionalDateRaw)]

  const AuthorityFields: seq<Field> := [
    Field("FSCLTX", 43, OptionalTrimmed), Field("FSCATP", 1, OptionalRaw), Field("FSCAUT", 40, OptionalTrimmed),
    Field("FSCRSN", 1, OptionalRaw), Field("FSSRDT", 8, OptionalDate), Field("FSCLTN", 15, OptionalTrimmed)]

  const OriginFields: seq<Field> := [
    Field("FSCOP", 5, Trimmed), Field("FSCPYS", 5, Trimmed), Field("ENCRYP", 1, Trimmed), Field("FBKGC", 3, Color),
    Field("ONAME", 24, OptionalTrimmed), Field("OPHONE", 18, OptionalTrimmed)]

  const LengthsFields: seq<Field> := [Field("FL", 12, Raw), Field("HL", 6, Raw)]

  lemma IdentificationIsRun(s: Stage, buf: seq<Byte>)
    ensures AllFit(IdentificationFields) && Identification(s, buf) == Run(s, buf, IdentificationFields)
  {
  }

  lemma SecurityIsRun(s: Stage, buf: seq<Byte>)
    ensures AllFit(SecurityFields) && Security(s, buf) == Run(s, buf, SecurityFields)
  {
    assert AllFit(SecurityFields);
  }

  lemma DeclassificationIsRun(s: Stage, buf: seq<Byte>)
    ensures AllFit(DeclassificationFields) && Declassification(s, buf) == Run(s, buf, DeclassificationFields)
  {
    assert AllFit(DeclassificationFields);
  }

  lemma AuthorityIsRun(s: Stage, buf: seq<Byte>)
    ensures AllFit(AuthorityFields) && Authority(s, buf) == Run(s, buf, AuthorityFields)
  {
    assert AllFit(AuthorityFields);
  }

  lemma OriginIsRun(s: Stage, buf: seq<Byte>)
    ensures AllFit(OriginFields) && Origin(s, buf) == Run(s, buf, OriginFields)
  {
    assert AllFit(OriginFields);
  }

  lemma LengthsIsRun(s: Stage, buf: seq<Byte>)
    ensures AllFit(LengthsFields) && Lengths(s, buf) == Run(s, buf, LengthsFields)
  {
    assert AllFit(LengthsFields);
  }

  // ---------------------------------------------------------------------------
  // The decoder's reads
  // ---------------------------------------------------------------------------

  method ReadIdentification(d: Decoder) returns (o: Outcome)
    modifies d
    ensures Agrees(o, Identification(old(d.State()), d.buf), d.State())
  {
    o := d.Slot("FHDR", 4, Raw);
    if o.Pass? { o := d.Slot("FVER", 5, Raw); }
    if o.Pass? { o := d.Slot("CLEVEL", 2, Raw); }
    if o.Pass? { o := d.Slot("STYPE", 4, Raw); }
    if o.Pass? { o := d.Slot("OSTAID", 10, Trimmed); }
    if o.Pass? { o := d.Slot("FDT", 14, DateTime); }
    if o.Pass? { o := d.Slot("FTITLE", 80, OptionalTrimmed); }
  }

  method ReadSecurity(d: Decoder) returns (o: Outcome)
    modifies d
    ensures Agrees(o, Security(old(d.State()), d.buf), d.State())
  {
    o := d.Slot("FSCLAS", 1, Raw);
    if o.Pass? { o := d.Slot("FSCLSY", 2, OptionalRaw); }
    if o.Pass? { o := d.Slot("FSCODE", 11, OptionalTrimmed); }
    if o.Pass? { o := d.Slot("FSCTLH", 2, OptionalTrimmed); }
    if o.Pass? { o := d.Slot("FSREL", 20, OptionalTrimmed); }
  }

  method ReadDeclassification(d: Decoder) returns (o: Outcome)
    modifies d
    ensures Agrees(o, Declassification(old(d.State()), d.buf), d.State())
  {
    o := d.Slot("FSDCTP", 2, OptionalTrimmed);
    if o.Pass? { o := d.Slot("FSDCDT", 8, OptionalDate); }
    if o.Pass? { o := d.Slot("FSDCXM", 4, OptionalTrimmed); }
    if o.Pass? { o := d.Slot("FSDG", 1, OptionalTrimmed); }
    if o.Pass? { o := d.Slot("FSDGDT", 8, OptionalDateRaw); }
  }

  method ReadAuthority(d: Decoder) returns (o: Outcome)
    modifies d
    ensures Agrees(o, Authority(old(d.State()), d.buf), d.State())
  {
    o := d.Slot("FSCLTX", 43, OptionalTrimmed);
    if o.Pass? { o := d.Slot("FSCATP", 1, OptionalRaw); }
    if o.Pass? { o := d.Slot("FSCAUT", 40, OptionalTrimmed); }
    if o.Pass? { o := d.Slot("FSCRSN", 1, OptionalRaw); }
    if o.Pass? { o := d.Slot("FSSRDT", 8, OptionalDate); }
    if o.Pass? { o := d.Slot("FSCLTN", 15, OptionalTrimmed); }
  }

  method ReadOrigin(d: Decoder) returns (o: Outcome)
    modifies d
    ensures Agrees(o, Origin(old(d.State()), d.buf), d.State())
  {
    o := d.Slot("FSCOP", 5, Trimmed);
    if o.Pass? { o := d.Slot("FSCPYS", 5, Trimmed); }
    if o.Pass? { o := d.Slot("ENCRYP", 1, Trimmed); }
    if o.Pass? { o := d.Slot("FBKGC", 3, Color); }
    if o.Pass? { o := d.Slot("ONAME", 24, OptionalTrimmed); }
    if o.Pass? { o := d.Slot("OPHONE", 18, OptionalTrimmed); }
  }

  method ReadLengths(d: Decoder) returns (o: Outcome)
    modifies d
    ensures Agrees(o, Lengths(old(d.State()), d.buf), d.State())
  {
    o := d.Slot("FL", 12, Raw);
    if o.Pass? { o := d.Slot("HL", 6, Raw); }
  }

  method ReadSegments(d: Decoder) returns (o: Outcome)
    modifies d
    ensures Agrees(o, Segments(old(d.State()), d.buf), d.State())
  {
    o := d.Group(Images);
    if o.Pass? { o := d.Group(Graphics); }
    if o.Pass? { o := d.Slot("NUMX", CountWidth, Raw); }
    if o.Pass? { o := d.Group(Texts); }
    if o.Pass? { o := d.Group(DataExtensions); }
    if o.Pass? { o := d.Group(ReservedExtensions); }
  }

  /** Decodes the file header of `buf`. */
  method ParseHeader(buf: seq<Byte>) returns (r: Result<FieldMap>)
    ensures r == HeaderSpec(buf)
  {
    var d := new Decoder(buf, 0);
    var o := ReadIdentification(d);
    if o.Pass? { o := ReadSecurity(d); }
    if o.Pass? { o := ReadDeclassification(d); }
    if o.Pass? { o := ReadAuthority(d); }
    if o.Pass? { o := ReadOrigin(d); }
    if o.Pass? { o := ReadLengths(d); }
    if o.Pass? { o := ReadSegments(d); }
    if o.Pass? { o := d.UserArea(); }
    if o.Pass? { o := d.ExtendedArea(); }
    if o.Fail? {
      return Err(o.error);
    }
    return Ok(d.fields);
  }
}
