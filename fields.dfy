/** The ways the decoder turns one fixed-width slot of the buffer into a field-map
    entry: as read, trimmed, omitted when blank, joined as a date, or formatted as
    a hexadecimal colour. */
module Fields {
  import opened Wrappers
  import opened Ascii
  import opened Numbers

  /** How one slot becomes an entry of the field map. */
  datatype Form =
    | Raw              // always inserted, as read
    | Trimmed          // always inserted, trimmed
    | OptionalRaw      // omitted when blank, otherwise as read
    | OptionalTrimmed  // omitted when blank, otherwise trimmed
    | DateTime         // 14 bytes joined as YYYY/MM/DD hh:mm:ss, always inserted
    | OptionalDate     // 8 bytes joined as YYYY/MM/DD and trimmed, omitted when blank
    | OptionalDateRaw  // 8 bytes joined as YYYY/MM/DD, not trimmed, omitted when blank
    | Color            // 3 bytes as "0x" and six hexadecimal digits, never read as text

  predicate IsOptional(form: Form)
  {
    form.OptionalRaw? || form.OptionalTrimmed? || form.OptionalDate? || form.OptionalDateRaw?
  }

  /** The composite forms have a fixed width. */
  predicate Fits(form: Form, width: nat)
  {
    match form
    case DateTime => width == 14
    case OptionalDate => width == 8
    case OptionalDateRaw => width == 8
    case Color => width == 3
    case _ => true
  }

  /** YYYY "/" MM "/" DD from eight consecutive bytes. */
  function DateText(s: seq<Byte>): string
    requires |s| == 8
  {
    Text(s[0..4]) + "/" + Text(s[4..6]) + "/" + Text(s[6..8])
  }

  /** YYYY "/" MM "/" DD " " hh ":" mm ":" ss from fourteen consecutive bytes. */
  function DateTimeText(s: seq<Byte>): string
    requires |s| == 14
  {
    DateText(s[0..8]) + " " + Text(s[8..10]) + ":" + Text(s[10..12]) + ":" + Text(s[12..14])
  }

  /** The background colour text of three bytes: "0x" and two upper-case hex digits per byte. */
  function ColorText(s: seq<Byte>): string
    requires |s| == 3
  {
    "0x" + Hex2(s[0]) + Hex2(s[1]) + Hex2(s[2])
  }

  /** The entry a slot holding bytes s becomes, or None when the field is omitted.
      The omission test is the source's: the slot's text is empty once trimmed. */
  function Render(form: Form, s: seq<Byte>): Option<string>
    requires Fits(form, |s|)
  {
    match form
    case Raw => Some(Text(s))
    case Trimmed => Some(Trim(Text(s)))
    case OptionalRaw => if Trim(Text(s)) == [] then None else Some(Text(s))
    case OptionalTrimmed => if Trim(Text(s)) == [] then None else Some(Trim(Text(s)))
    case DateTime => Some(DateTimeText(s))
    case OptionalDate => if Trim(Text(s)) == [] then None else Some(Trim(DateText(s)))
    case OptionalDateRaw => if Trim(Text(s)) == [] then None else Some(DateText(s))
    case Color => Some(ColorText(s))
  }

  /** `map.insert(key, v)` when there is a value, nothing otherwise. */
  function Put(m: FieldMap, key: string, v: Option<string>): FieldMap
  {
    if v.Some? then m[key := v.value] else m
  }

  /** A slot of `width` bytes at `at` can be read: it lies inside the buffer and,
      unless it is the colour, its bytes are text. */
  predicate SlotReadable(buf: seq<Byte>, at: nat, width: nat, form: Form)
  {
    at + width <= |buf| && (form.Color? || AsciiSpan(buf, at, at + width))
  }

  /** Why a slot that is not readable fails. */
  function SlotError(buf: seq<Byte>, at: nat, width: nat): Error
  {
    if at + width > |buf| then Truncated(at) else InvalidEncoding(at)
  }

  /** The entry of a slot, read from the whole buffer at an absolute position. */
  function SlotValue(buf: seq<Byte>, at: nat, width: nat, form: Form): Option<string>
    requires at + width <= |buf| && Fits(form, width)
  {
    Render(form, buf[at..at + width])
  }

  // ---------------------------------------------------------------------------
  // What each form promises
  // ---------------------------------------------------------------------------

  /** Only optional forms ever omit a field, and they omit it exactly when the
      slot is blank. A field that is kept and trimmed is never blank and has no
      whitespace at either end. */
  lemma OmittedIffBlank(form: Form, s: seq<Byte>)
    requires Fits(form, |s|)
    ensures Render(form, s).None? <==> IsOptional(form) && Blank(Text(s))
    ensures (form.OptionalTrimmed? || form.OptionalRaw?) && Render(form, s).Some? ==> !Blank(Render(form, s).value)
    ensures form.OptionalTrimmed? && Render(form, s).Some? ==>
      var v := Render(form, s).value;
      v != [] && !IsSpace(v[0]) && !IsSpace(v[|v| - 1])
  {
    var t := Text(s);
    TrimEmptyIffBlank(t);
    if form.OptionalTrimmed? && Trim(t) != [] {
      TrimSlice(t);
    }
  }

  /** A date-time is 19 characters: the six parts of the slot in order, separated
      by '/', '/', ' ', ':', ':'. Dropping the separators gives back the slot. */
  lemma DateTimeShape(s: seq<Byte>)
    requires |s| == 14
    ensures |DateTimeText(s)| == 19
    ensures DateTimeText(s)[4] == '/' && DateTimeText(s)[7] == '/' && DateTimeText(s)[10] == ' '
    ensures DateTimeText(s)[13] == ':' && DateTimeText(s)[16] == ':'
    ensures
      var d := DateTimeText(s);
      d[0..4] + d[5..7] + d[8..10] + d[11..13] + d[14..16] + d[17..19] == Text(s)
  {
    var d := DateTimeText(s);
    var date := s[0..8];
    assert date[0..4] == s[0..4] && date[4..6] == s[4..6] && date[6..8] == s[6..8];
    DateShape(date);
    var hh, mm, ss := Text(s[8..10]), Text(s[10..12]), Text(s[12..14]);
    assert d == DateText(date) + " " + hh + ":" + mm + ":" + ss;
    assert d[0..10] == DateText(date);
    assert d[0..4] == Text(s[0..4]);
    assert d[5..7] == Text(s[4..6]);
    assert d[8..10] == Text(s[6..8]);
    assert d[11..13] == Text(s[8..10]);
    assert d[14..16] == Text(s[10..12]);
    assert d[17..19] == Text(s[12..14]);
  }

  /** A date is 10 characters: year, month and day separated by '/'. */
  lemma DateShape(s: seq<Byte>)
    requires |s| == 8
    ensures |DateText(s)| == 10 && DateText(s)[4] == '/' && DateText(s)[7] == '/'
    ensures
      var d := DateText(s);
      d[0..4] + d[5..7] + d[8..10] == Text(s)
  {
    var d := DateText(s);
    var y, m, dd := Text(s[0..4]), Text(s[4..6]), Text(s[6..8]);
    assert |y| == 4 && |m| == 2 && |dd| == 2;
    assert d == y + "/" + m + "/" + dd;
    assert d[0..4] == Text(s[0..4]);
    assert d[5..7] == Text(s[4..6]);
    assert d[8..10] == Text(s[6..8]);
  }

  /** The colour is "0x" and eight characters in all; its hexadecimal pairs read
      back as the three bytes. */
  lemma ColorShape(s: seq<Byte>)
    requires |s| == 3
    ensures |ColorText(s)| == 8 && ColorText(s)[0..2] == "0x"
    ensures forall k :: 0 <= k < 3 ==>
      var c := ColorText(s);
      IsUpperHex(c[2 + 2 * k]) && IsUpperHex(c[3 + 2 * k]) &&
      16 * HexValue(c[2 + 2 * k]) + HexValue(c[3 + 2 * k]) == s[k]
  {
    Hex2RoundTrip(s[0]);
    Hex2RoundTrip(s[1]);
    Hex2RoundTrip(s[2]);
  }
}
