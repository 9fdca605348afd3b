/** The NITF model as a whole: the file header, then for each kind of segment its
    subheader offsets and the subheaders read at them. */
module Nitf {
  import opened Wrappers
  import opened Ascii
  import opened Numbers
  import opened Groups
  import opened FileHeader
  import opened HeaderLayout
  import opened Offsets
  import opened Subheaders

  /** The decoded metadata: the file header and the subheaders of each kind, in
      the order of their offsets. */
  datatype Metadata = Metadata(fileHeader: FieldMap, imageSubheaders: seq<FieldMap>,
                               graphicSubheaders: seq<FieldMap>, textSubheaders: seq<FieldMap>,
                               dataExtensionSubheaders: seq<FieldMap>)

  datatype Kind = ImageKind | GraphicKind | TextKind | DataExtensionKind

  /** The subheader of the given kind at `offset`. */
  function SubheaderAt(kind: Kind, buf: seq<Byte>, offset: nat): Result<FieldMap>
  {
    match kind
    case ImageKind => ImageSubheader(buf, offset)
    case GraphicKind => GraphicSubheader(buf, offset)
    case TextKind => TextSubheader(buf, offset)
    case DataExtensionKind => DataExtensionSubheader(buf, offset)
  }

  /** The subheaders at each offset in turn, or the first that fails. */
  function DecodeAll(kind: Kind, buf: seq<Byte>, offsets: seq<nat>): Result<seq<FieldMap>>
    decreases |offsets|
  {
    if offsets == [] then Ok([])
    else
      var init :- DecodeAll(kind, buf, offsets[..|offsets| - 1]);
      var last :- SubheaderAt(kind, buf, offsets[|offsets| - 1]);
      Ok(init + [last])
  }

  /** The whole decode: the header, then its segments. */
  function Decoded(buf: seq<Byte>): Result<Metadata>
  {
    var header :- HeaderSpec(buf);
    DecodeSegments(buf, header)
  }

  /** Everything after the header, in the source's order: for each kind its
      count, its offsets and its subheaders before the next kind's count. */
  function DecodeSegments(buf: seq<Byte>, header: FieldMap): Result<Metadata>
  {
    var hl :- Number(header, "HL");
    var ni :- Number(header, Images.countKey);
    var images :- GroupLayout(SizeOf(header, Images), hl, ni);
    var imageSubheaders :- DecodeAll(ImageKind, buf, images.offsets);
    var ns :- Number(header, Graphics.countKey);
    var graphics :- GroupLayout(SizeOf(header, Graphics), images.next, ns);
    var graphicSubheaders :- DecodeAll(GraphicKind, buf, graphics.offsets);
    var nt :- Number(header, Texts.countKey);
    var texts :- GroupLayout(SizeOf(header, Texts), graphics.next, nt);
    var textSubheaders :- DecodeAll(TextKind, buf, texts.offsets);
    var nd :- Number(header, DataExtensions.countKey);
    var des :- GroupLayout(SizeOf(header, DataExtensions), texts.next, nd);
    var desSubheaders :- DecodeAll(DataExtensionKind, buf, des.offsets);
    Ok(Metadata(header, imageSubheaders, graphicSubheaders, textSubheaders, desSubheaders))
  }

  // ---------------------------------------------------------------------------
  // Properties
  // ---------------------------------------------------------------------------

  /** The subheaders decode exactly when each one does, one per offset, each the
      subheader read at its offset. */
  lemma {:induction false} DecodeAllAt(kind: Kind, buf: seq<Byte>, offsets: seq<nat>)
    ensures DecodeAll(kind, buf, offsets).Ok? <==>
      forall j :: 0 <= j < |offsets| ==> SubheaderAt(kind, buf, offsets[j]).Ok?
    ensures DecodeAll(kind, buf, offsets).Ok? ==>
      var r := DecodeAll(kind, buf, offsets).value;
      && |r| == |offsets|
      && forall j :: 0 <= j < |offsets| ==> SubheaderAt(kind, buf, offsets[j]) == Ok(r[j])
    decreases |offsets|
  {
    if offsets != [] {
      var n := |offsets|;
      var init := offsets[..n - 1];
      DecodeAllAt(kind, buf, init);
      forall j | 0 <= j < n - 1 ensures init[j] == offsets[j] {
      }
      var p, last := DecodeAll(kind, buf, init), SubheaderAt(kind, buf, offsets[n - 1]);
      if p.Err? {
        var j :| 0 <= j < n - 1 && SubheaderAt(kind, buf, init[j]).Err?;
        assert SubheaderAt(kind, buf, offsets[j]).Err?;
      } else if last.Err? {
        assert DecodeAll(kind, buf, offsets).Err?;
      } else {
        var r := p.value + [last.value];
        assert DecodeAll(kind, buf, offsets) == Ok(r);
        forall j | 0 <= j < n ensures SubheaderAt(kind, buf, offsets[j]) == Ok(r[j]) {
          if j < n - 1 {
            assert r[j] == p.value[j];
          }
        }
      }
    }
  }

  /** Decoding the segments of a header map needs the offsets FileLayout
      computes from it and keeps the header map. */
  lemma SegmentsLayout(buf: seq<Byte>, h: FieldMap)
    requires DecodeSegments(buf, h).Ok?
    ensures FileLayout(h).Ok? && DecodeSegments(buf, h).value.fileHeader == h
    ensures var o, d := FileLayout(h).value, DecodeSegments(buf, h).value;
      && DecodeAll(ImageKind, buf, o.images) == Ok(d.imageSubheaders)
      && DecodeAll(GraphicKind, buf, o.graphics) == Ok(d.graphicSubheaders)
      && DecodeAll(TextKind, buf, o.texts) == Ok(d.textSubheaders)
      && DecodeAll(DataExtensionKind, buf, o.dataExtensions) == Ok(d.dataExtensionSubheaders)
  {
    var hl := Number(h, "HL").value;
    var images := GroupLayout(SizeOf(h, Images), hl, Number(h, Images.countKey).value).value;
    var di := DecodeAll(ImageKind, buf, images.offsets).value;
    var graphics := GroupLayout(SizeOf(h, Graphics), images.next, Number(h, Graphics.countKey).value).value;
    var dg := DecodeAll(GraphicKind, buf, graphics.offsets).value;
    var texts := GroupLayout(SizeOf(h, Texts), graphics.next, Number(h, Texts.countKey).value).value;
    var dt := DecodeAll(TextKind, buf, texts.offsets).value;
    var des := GroupLayout(SizeOf(h, DataExtensions), texts.next, Number(h, DataExtensions.countKey).value).value;
    var dd := DecodeAll(DataExtensionKind, buf, des.offsets).value;
    assert DecodeSegments(buf, h) == Ok(Metadata(h, di, dg, dt, dd));
    assert FileLayout(h) == Ok(SegmentOffsets(images.offsets, graphics.offsets, texts.offsets, des.offsets));
  }

  /** Image subheader j is the one read at image offset j, one per offset. */
  lemma SegmentsImages(buf: seq<Byte>, h: FieldMap)
    requires DecodeSegments(buf, h).Ok?
    ensures FileLayout(h).Ok? &&
      var d, o := DecodeSegments(buf, h).value.imageSubheaders, FileLayout(h).value.images;
      && |d| == |o|
      && forall j :: 0 <= j < |o| ==> ImageSubheader(buf, o[j]) == Ok(d[j])
  {
    SegmentsLayout(buf, h);
    DecodeAllAt(ImageKind, buf, FileLayout(h).value.images);
  }

  /** Graphic subheader j is the one read at graphic offset j, one per offset. */
  lemma SegmentsGraphics(buf: seq<Byte>, h: FieldMap)
    requires DecodeSegments(buf, h).Ok?
    ensures FileLayout(h).Ok? &&
      var d, o := DecodeSegments(buf, h).value.graphicSubheaders, FileLayout(h).value.graphics;
      && |d| == |o|
      && forall j :: 0 <= j < |o| ==> GraphicSubheader(buf, o[j]) == Ok(d[j])
  {
    SegmentsLayout(buf, h);
    DecodeAllAt(GraphicKind, buf, FileLayout(h).value.graphics);
  }

  /** Text subheader j is the one read at text offset j, one per offset. */
  lemma SegmentsTexts(buf: seq<Byte>, h: FieldMap)
    requires DecodeSegments(buf, h).Ok?
    ensures FileLayout(h).Ok? &&
      var d, o := DecodeSegments(buf, h).value.textSubheaders, FileLayout(h).value.texts;
      && |d| == |o|
      && forall j :: 0 <= j < |o| ==> TextSubheader(buf, o[j]) == Ok(d[j])
  {
    SegmentsLayout(buf, h);
    DecodeAllAt(TextKind, buf, FileLayout(h).value.texts);
  }

  /** Data extension subheader j is the one read at data extension offset j. */
  lemma SegmentsDataExtensions(buf: seq<Byte>, h: FieldMap)
    requires DecodeSegments(buf, h).Ok?
    ensures FileLayout(h).Ok? &&
      var d, o := DecodeSegments(buf, h).value.dataExtensionSubheaders, FileLayout(h).value.dataExtensions;
      && |d| == |o|
      && forall j :: 0 <= j < |o| ==> DataExtensionSubheader(buf, o[j]) == Ok(d[j])
  {
    SegmentsLayout(buf, h);
    DecodeAllAt(DataExtensionKind, buf, FileLayout(h).value.dataExtensions);
  }

  /** A decoded file is its header followed by the segments of that header. */
  lemma DecodedParts(buf: seq<Byte>)
    requires Decoded(buf).Ok?
    ensures HeaderStages(buf).Ok? && HeaderSpec(buf) == Ok(HeaderStages(buf).value.fields)
    ensures DecodeSegments(buf, HeaderSpec(buf).value) == Decoded(buf)
  {
  }

  /** A decoded file has as many image subheaders as the three digits at byte
      360 of the file say, and the first of them is read at the header length
      HL, the six bytes at 354. */
  lemma DecodedImages(buf: seq<Byte>)
    requires Decoded(buf).Ok?
    ensures HeaderStages(buf).Ok? && 363 <= |buf| && AllDigits(Text(buf[360..363])) &&
      var d := Decoded(buf).value;
      && |d.imageSubheaders| == HeaderCounts(buf)[0] == DecimalValue(Text(buf[360..363]))
      && ParseUsize(Text(buf[354..360])).Some?
      && (|d.imageSubheaders| > 0 ==>
            ImageSubheader(buf, ParseUsize(Text(buf[354..360])).value) == Ok(d.imageSubheaders[0]))
  {
    DecodedParts(buf);
    var h := HeaderSpec(buf).value;
    SegmentsLayout(buf, h);
    SegmentsImages(buf, h);
    HeaderImageCount(buf);
    HeaderNumi(buf);
    HeaderLengthFields(buf);
    ParseUsizeOfDigits(Text(buf[360..363]));
    FileCounts(h);
  }

  /** Every subheader offset lies at or past HL, and in the order the subheaders
      are read the offsets never decrease. */
  lemma DecodedInOrder(buf: seq<Byte>)
    requires Decoded(buf).Ok?
    ensures HeaderSpec(buf).Ok? && FileLayout(HeaderSpec(buf).value).Ok?
    ensures var h := HeaderSpec(buf).value;
      var all := AllOffsets(FileLayout(h).value);
      && Sorted(all)
      && forall i :: 0 <= i < |all| ==> Number(h, "HL").value <= all[i]
  {
    DecodedParts(buf);
    SegmentsLayout(buf, HeaderSpec(buf).value);
    FileSorted(HeaderSpec(buf).value);
  }

  // ---------------------------------------------------------------------------
  // The decoder
  // ---------------------------------------------------------------------------

  /** Once the subheader at offset j fails, decoding them all fails with it. */
  lemma {:induction false} DecodeAllFailsFrom(kind: Kind, buf: seq<Byte>, offsets: seq<nat>, j: nat)
    requires j <= |offsets| && DecodeAll(kind, buf, offsets[..j]).Err?
    ensures DecodeAll(kind, buf, offsets) == DecodeAll(kind, buf, offsets[..j])
    decreases |offsets| - j
  {
    if j < |offsets| {
      var init := offsets[..|offsets| - 1];
      assert init[..j] == offsets[..j];
      DecodeAllFailsFrom(kind, buf, init, j);
    } else {
      assert offsets[..j] == offsets;
    }
  }

  method ParseSubheader(kind: Kind, buf: seq<Byte>, offset: nat) returns (r: Result<FieldMap>)
    ensures r == SubheaderAt(kind, buf, offset)
  {
    match kind
    case ImageKind => r := ParseImageSubheader(buf, offset);
    case GraphicKind => r := ParseGraphicSubheader(buf, offset);
    case TextKind => r := ParseTextSubheader(buf, offset);
    case DataExtensionKind => r := ParseDataExtensionSubheader(buf, offset);
  }

  /** The subheaders at the offsets, one after the other. The source reads them
      in parallel; here they are read in offset order. */
  method ParseAll(kind: Kind, buf: seq<Byte>, offsets: seq<nat>) returns (r: Result<seq<FieldMap>>)
    ensures r == DecodeAll(kind, buf, offsets)
  {
    var done: seq<FieldMap> := [];
    var j := 0;
    while j < |offsets|
      invariant 0 <= j <= |offsets|
      invariant DecodeAll(kind, buf, offsets[..j]) == Ok(done)
    {
      var h := ParseSubheader(kind, buf, offsets[j]);
      assert offsets[..j + 1][..j] == offsets[..j];
      if h.Err? {
        DecodeAllFailsFrom(kind, buf, offsets, j + 1);
        return Err(h.error);
      }
      done := done + [h.value];
      j := j + 1;
    }
    assert offsets[..j] == offsets;
    return Ok(done);
  }

  /** `NITF::new` on the bytes of the file. */
  method New(buf: seq<Byte>) returns (r: Result<Metadata>)
    ensures r == Decoded(buf)
  {
    var header :- ParseHeader(buf);
    r := ParseSegments(buf, header);
  }

  method ParseSegments(buf: seq<Byte>, header: FieldMap) returns (r: Result<Metadata>)
    ensures r == DecodeSegments(buf, header)
  {
    var hl :- Number(header, "HL");
    var ni :- Number(header, Images.countKey);
    var images :- CollectOffsets(header, Images, ni, hl);
    var imageSubheaders :- ParseAll(ImageKind, buf, images.offsets);
    var ns :- Number(header, Graphics.countKey);
    var graphics :- CollectOffsets(header, Graphics, ns, images.next);
    var graphicSubheaders :- ParseAll(GraphicKind, buf, graphics.offsets);
    var nt :- Number(header, Texts.countKey);
    var texts :- CollectOffsets(header, Texts, nt, graphics.next);
    var textSubheaders :- ParseAll(TextKind, buf, texts.offsets);
    var nd :- Number(header, DataExtensions.countKey);
    var des :- CollectOffsets(header, DataExtensions, nd, texts.next);
    var desSubheaders :- ParseAll(DataExtensionKind, buf, des.offsets);
    return Ok(Metadata(header, imageSubheaders, graphicSubheaders, textSubheaders, desSubheaders));
  }
}
