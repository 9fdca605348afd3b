# NITF metadata decoder, modelled in Dafny

ossim_oxide reads the metadata of a NITF 2.1 file (MIL-STD-2500C). It works in
two stages.

- `parse_header` walks the byte buffer with a cursor. It reads the file header
  into a map from field name to text:
  - fixed-width fields, some of them optional and some of them joined dates;
  - the background colour in hexadecimal;
  - five segment groups, each a 3-digit count followed by that many
    (subheader length, segment length) pairs;
  - the user-defined and extended tag-length-value areas.
- `NITF::new` starts a running offset at HL. It walks the length pairs of the
  images, graphics, texts and data extensions in that order to find where each
  subheader begins. It then decodes the image subheader (its first 290 bytes)
  and the part type and identifier of the other subheaders at those offsets.

The model keeps the source's form.

- A `Decoder` class holds the buffer, the cursor and the field map. Its methods
  read one slot, a count, a group of pairs (a loop) and a tag-length-value area
  (a loop).
- The methods are proved against step functions (`Step`, `GroupStep`,
  `UserStep`, `ExtendedStep`). Each header and subheader function chains these
  step functions in the source's order.
- The offset walk is a method with a loop (`CollectOffsets`), proved equal to
  `GroupLayout`. `PrefixSums` proves `GroupLayout` equal to an independent
  reference: each offset is HL plus the sizes of the segments before it.
- Every slice the source takes with `nitf[a..b]` and every `unwrap` that can
  panic becomes an error result:
  - `Truncated` for a slice past the end;
  - `InvalidEncoding` for a byte that is not ASCII;
  - `MalformedCount` for a count that is not all digits;
  - `MalformedTlv` for a tag-length-value entry that cannot be read;
  - `MissingField` and `BadNumber` for the `parse::<usize>()` calls of `new`.
- Bytes are `Byte = 0..255`. Text is one character per ASCII byte. `trim`
  removes ASCII whitespace (tab to carriage return, and space).

Modules, in dependency order:
- `Wrappers`: Option, Result, Outcome and the error kinds.
- `Ascii`: bytes as text, trim.
- `Numbers`: digit summation, decimal value, `parse::<usize>`, `{:03}`, hex.
- `Fields`: how a slot becomes a value: raw, trimmed, optional, a date, the colour.
- `Tlv`: tag-length-value entries.
- `Groups`: pair keys and pair fields.
- `Decoding`: the stage and step functions, and the `Decoder` class.
- `FixedFields`: tables of fixed-width fields read in a run.
- `FileHeader`: the file header.
- `HeaderLayout`: where each header field comes from.
- `Subheaders`: the four subheaders.
- `Offsets`: the offset walk.
- `Nitf`: the whole decode.

## Model

| member | source | states |
|---|---|---|
| Ascii.TrimStart | src/model/nitf/mod.rs:180 | trimming the front never makes the text longer |
| Ascii.TrimStartSuffix | src/model/nitf/mod.rs:180 | the front trim removes a prefix made only of whitespace and stops at a non-space |
| Ascii.TrimEnd | src/model/nitf/mod.rs:180 | trimming the back never makes the text longer |
| Ascii.TrimEndPrefix | src/model/nitf/mod.rs:180 | the back trim removes a suffix made only of whitespace and stops at a non-space |
| Ascii.TrimEmptyIffBlank | src/model/nitf/mod.rs:201 | `trim().is_empty()` holds exactly when every character of the slot is whitespace |
| Ascii.TrimSlice | src/model/nitf/mod.rs:180 | the trimmed text is a contiguous piece of the input with no whitespace at either end |
| Ascii.TextConcat | src/model/nitf/mod.rs:184-198 | the text of joined byte slices is the joined texts, as in the date concatenations |
| Numbers.SumDigits | src/model/nitf/mod.rs:362-365 | the summation loop over the reversed bytes computes DigitSum; for a field of digits this is its decimal value |
| Numbers.DigitSumIsDecimal | src/model/nitf/mod.rs:363-365 | on a field of digits, the sum of (b - 48)·10^i over the reversed bytes equals the ordinary decimal value |
| Numbers.DigitSumAcceptsNonDigits | src/model/nitf/mod.rs:363-365 | the summation accepts non-digits: "00:" sums to 10 and "-01" to -299 |
| Numbers.DigitsValueIsDecimal | src/model/nitf/mod.rs:363-365 | reading the digit bytes from the most significant one gives the decimal value |
| Numbers.CountValue | src/model/nitf/mod.rs:361-366 | a count field is accepted exactly when all its bytes are digits |
| Numbers.CountValueIsDecimal | src/model/nitf/mod.rs:363-365 | an accepted count is the decimal value of the field, equals the source's digit sum and is below 10^width |
| Numbers.ParseUsizeOfDigits | src/model/nitf/mod.rs:56 | `parse::<usize>()` of a stored field of at most 19 digits gives its decimal value, so it agrees with the digit sum |
| Numbers.ParseUsizeRejects | src/model/nitf/mod.rs:53 | `parse::<usize>()` refuses a field whose first character is neither a digit nor '+' |
| Numbers.DecimalTextRoundTrip | src/model/nitf/mod.rs:370 | the shortest decimal text of n is all digits and reads back as n; it has at most 3 digits below 1000 |
| Numbers.FormatIndexRoundTrip | src/model/nitf/mod.rs:370 | `{:03}` of n is at least 3 digits, exactly 3 below 1000, and reads back as n |
| Numbers.FormatIndexInjective | src/model/nitf/mod.rs:370-372 | distinct pair indexes give distinct key suffixes |
| Numbers.Hex2RoundTrip | src/model/nitf/mod.rs:337 | `{:02X}` of a byte is two upper-case hex digits that read back as the byte |
| Fields.OmittedIffBlank | src/model/nitf/mod.rs:200-322 | a field is omitted exactly when its form is optional and its slot is blank; a present optional value is not blank, and a trimmed one has no whitespace at either end |
| Fields.DateTimeShape | src/model/nitf/mod.rs:184-198 | the date and time is 19 characters: YYYY/MM/DD hh:mm:ss taken from consecutive sub-slices of the 14 bytes |
| Fields.DateShape | src/model/nitf/mod.rs:240-252 | a date is 10 characters: YYYY/MM/DD from the 8 bytes |
| Fields.ColorShape | src/model/nitf/mod.rs:337 | the colour is "0x" and two upper-case hex digits per byte, which read back as the three bytes |
| Tlv.EntryAt | src/model/nitf/mod.rs:458-467 | an entry takes 6 + 5 + its declared length bytes |
| Tlv.EntryBytes | src/model/nitf/mod.rs:458-467 | an entry re-encodes to exactly the bytes it was read from, which lie in the buffer |
| Tlv.WalkTurn | src/model/nitf/mod.rs:458-467 | one turn of the area loop advances `i` by the entry's size and inserts its trimmed value under its tag |
| Tlv.WalkFailsAt | src/model/nitf/mod.rs:458-466 | an entry that cannot be read fails the whole area at its offset |
| Tlv.WalkEnds | src/model/nitf/mod.rs:457 | once `i` reaches the bound, the area is the entries read so far |
| Tlv.WalkRoundTrip | src/model/nitf/mod.rs:457-468 | the walked entries re-encode, byte for byte, to the part of the buffer the loop consumed |
| Tlv.WalkWellFormed | src/model/nitf/mod.rs:458-467 | every walked entry has a 6-byte tag, a 5-digit length and a value of exactly that length |
| Tlv.WalkStops | src/model/nitf/mod.rs:457 | the loop stops at or past the bound, reads nothing when it starts there, and its last entry starts before the bound |
| Tlv.WalkLayout | src/model/nitf/mod.rs:457-469 | a successful area reaches at least its bound, stays in the buffer, re-encodes to its bytes and has well-formed entries |
| Tlv.ApplyKeepsOtherKeys | src/model/nitf/mod.rs:466 | inserting entries changes no key that is not 6 characters long |
| Tlv.ApplyKeepsUntagged | src/model/nitf/mod.rs:466 | a key that no entry is tagged with keeps its value |
| Tlv.ApplyLastWins | src/model/nitf/mod.rs:466 | an entry that no later entry overrides leaves its trimmed value under its tag |
| Groups.AllGroupsWellKeyed | src/model/nitf/mod.rs:368-442 | in every group the segment-length prefix is a proper prefix of the subheader-length prefix (LI of LISH, LS of LSSH, ...), no prefix or count key holds a digit, and both pair widths are positive |
| Groups.PairFieldsStep | src/model/nitf/mod.rs:368-374 | pair n is read where pair n - 1 ended and adds exactly its two keys |
| Groups.PairKeysDistinct | src/model/nitf/mod.rs:368-374 | the keys of different pairs never collide |
| Groups.SubheaderNotSegment | src/model/nitf/mod.rs:370-372 | a subheader-length key never equals a segment-length key |
| Groups.PairAt | src/model/nitf/mod.rs:368-374 | pair k lies at at + (k - 1)·width: its subheader length is the first slice and its segment length the rest |
| Groups.PairFieldsKeepOtherKeys | src/model/nitf/mod.rs:368-374 | the pairs change no key other than their own |
| Groups.PairFieldsKeys | src/model/nitf/mod.rs:368-374 | the pairs add exactly the 2n pair keys |
| Decoding.StepFacts | src/model/nitf/mod.rs:164-165 | one read moves the cursor by the width, inside the buffer, sets the key (unless omitted) and changes no other key |
| Decoding.Decoder.constructor | src/model/nitf/mod.rs:157-159 | an empty map with the cursor at the start |
| Decoding.Decoder.Slot | src/model/nitf/mod.rs:164-358 | reading a slot does what Step computes, error included |
| Decoding.Decoder.Count | src/model/nitf/mod.rs:361-366 | a count succeeds exactly when its slot is readable and all digits; it stores the text, moves the cursor by the width and returns the digit sum |
| Decoding.Decoder.Group | src/model/nitf/mod.rs:361-374 | reading a group does what GroupStep computes |
| Decoding.Decoder.Pairs | src/model/nitf/mod.rs:368-374 | the pair loop leaves PairFields of the old map and the cursor past count pairs |
| Decoding.Decoder.ReadEntry | src/model/nitf/mod.rs:458-464 | reading an entry succeeds exactly when it is readable, gives EntryAt, and otherwise fails at its offset |
| Decoding.Decoder.Entries | src/model/nitf/mod.rs:457-468 | the area loop applies the walked entries, reports how far it went and does not move the cursor |
| Decoding.Decoder.UserArea | src/model/nitf/mod.rs:445-470 | reading the user-defined area does what UserStep computes |
| Decoding.Decoder.ExtendedArea | src/model/nitf/mod.rs:473-498 | reading the extended area does what ExtendedStep computes |
| FixedFields.RunAppend | src/model/nitf/mod.rs:159-358 | reading two tables back to back is reading their concatenation |
| FixedFields.RunCursor | src/model/nitf/mod.rs:159-358 | a run advances the cursor by exactly the sum of the widths, inside the buffer |
| FixedFields.RunFrame | src/model/nitf/mod.rs:159-358 | a run changes no key outside its table |
| FixedFields.RunSlot | src/model/nitf/mod.rs:159-358 | field j's slot starts at the offset of the fields before it and lies in the buffer as text |
| FixedFields.RunField | src/model/nitf/mod.rs:159-358 | with distinct keys, field j holds the value of its slot, or keeps the old value when omitted |
| FixedFields.RunOk | src/model/nitf/mod.rs:159-358 | a run of text fields succeeds exactly when the bytes it spans are in the buffer and ASCII |
| FixedFields.RunLocal | src/model/nitf/mod.rs:159-358 | a run reads nothing outside the bytes it spans |
| FixedFields.ChainCursor | src/model/nitf/mod.rs:159-358 | runs read back to back each start where the previous one ended |
| FixedFields.ChainKeeps | src/model/nitf/mod.rs:159-358 | runs that lack a key leave it alone |
| FixedFields.ChainField | src/model/nitf/mod.rs:159-358 | a field whose key occurs only in its own table ends up as the value of its slot |
| FileHeader.IdentificationIsRun | src/model/nitf/mod.rs:164-204 | FHDR to FTITLE are one run of the table of their keys, widths and forms |
| FileHeader.SecurityIsRun | src/model/nitf/mod.rs:207-232 | FSCLAS to FSREL are one run of their table |
| FileHeader.DeclassificationIsRun | src/model/nitf/mod.rs:235-278 | FSDCTP to FSDGDT are one run of their table |
| FileHeader.AuthorityIsRun | src/model/nitf/mod.rs:281-322 | FSCLTX to FSCLTN are one run of their table |
| FileHeader.OriginIsRun | src/model/nitf/mod.rs:325-350 | FSCOP to OPHONE are one run of their table |
| FileHeader.LengthsIsRun | src/model/nitf/mod.rs:353-358 | FL and HL are one run of their table |
| FileHeader.ReadIdentification | src/model/nitf/mod.rs:164-204 | the reads agree with Identification |
| FileHeader.ReadSecurity | src/model/nitf/mod.rs:207-232 | the reads agree with Security |
| FileHeader.ReadDeclassification | src/model/nitf/mod.rs:235-278 | the reads agree with Declassification |
| FileHeader.ReadAuthority | src/model/nitf/mod.rs:281-322 | the reads agree with Authority |
| FileHeader.ReadOrigin | src/model/nitf/mod.rs:325-350 | the reads agree with Origin |
| FileHeader.ReadLengths | src/model/nitf/mod.rs:353-358 | the reads agree with Lengths |
| FileHeader.ReadSegments | src/model/nitf/mod.rs:361-442 | the five groups, with NUMX between graphics and texts, agree with Segments |
| FileHeader.ParseHeader | src/model/nitf/mod.rs:157-502 | the decoded header is HeaderSpec, error included |
| HeaderLayout.PrefixEnd | src/model/nitf/mod.rs:159-358 | the fixed part ends at byte 360 |
| HeaderLayout.PrefixField | src/model/nitf/mod.rs:159-358 | a fixed field holds the value of its slot at the start of its run plus its offset in the run |
| HeaderLayout.PrefixIdentification | src/model/nitf/mod.rs:164-198 | FHDR, FVER, CLEVEL, STYPE, OSTAID and FDT come from bytes 0, 4, 9, 11, 15 and 25 |
| HeaderLayout.PrefixUntrimmed | src/model/nitf/mod.rs:210-278 | FSCLSY at 120 is stored raw; FSDGDT at 170 is the joined date, untrimmed |
| HeaderLayout.PrefixAuthorityRaw | src/model/nitf/mod.rs:286-302 | FSCATP at 221 and FSCRSN at 262 are stored raw |
| HeaderLayout.PrefixCopy | src/model/nitf/mod.rs:325-334 | FSCOP, FSCPYS and ENCRYP are always present, trimmed, from 286, 291 and 296 |
| HeaderLayout.PrefixBackground | src/model/nitf/mod.rs:337-338 | FBKGC is the colour of the three bytes at 297 |
| HeaderLayout.PrefixLengths | src/model/nitf/mod.rs:353-358 | FL and HL come from 342..354 and 354..360, as read |
| HeaderLayout.GroupCountLayout | src/model/nitf/mod.rs:361-374 | a group's count is the value of its three digits, below 1000, stored as read; the cursor ends after count pairs |
| HeaderLayout.GroupCursor | src/model/nitf/mod.rs:366-374 | a group ends at c + 3 + count·pair width, inside the buffer |
| HeaderLayout.GroupPairLayout | src/model/nitf/mod.rs:368-374 | pair k of a group sits at c + 3 + (k - 1)·pair width |
| HeaderLayout.GroupFrame | src/model/nitf/mod.rs:361-374 | a group changes only its count key and its pair keys |
| HeaderLayout.PairWidths | src/model/nitf/mod.rs:368-442 | pairs are 6+10, 4+6, 4+5, 4+9 and 4+7 bytes |
| HeaderLayout.SegmentsCursor | src/model/nitf/mod.rs:361-442 | each group and NUMX end where the widths and counts say |
| HeaderLayout.SegmentsFrame | src/model/nitf/mod.rs:361-442 | the segment part changes no key that starts with neither 'L' nor 'N' |
| HeaderLayout.UserAreaLength | src/model/nitf/mod.rs:445-450 | UDHDL is the five digits at the cursor, stored as read; when it is zero nothing else is read |
| HeaderLayout.UserAreaEntries | src/model/nitf/mod.rs:452-470 | UDHOFL is the raw three bytes; the entries start 8 bytes in, reach UDHDL bytes, re-encode to their bytes and are well formed; the fields are the earlier map with each entry's trimmed value inserted under its tag in order; the cursor advances past them |
| HeaderLayout.UserEntries | src/model/nitf/mod.rs:466 | an entry not overridden later leaves its trimmed value under its tag |
| HeaderLayout.UserKeeps | src/model/nitf/mod.rs:445-470 | the user-defined area leaves every key of other than six characters as UDHDL and UDHOFL left it |
| HeaderLayout.UserFrame | src/model/nitf/mod.rs:445-470 | the user-defined area changes no key of other than six characters but UDHDL |
| HeaderLayout.ExtendedAreaLength | src/model/nitf/mod.rs:473-479 | XHDL is the five digits at the cursor, stored as read; when it is zero nothing else is read |
| HeaderLayout.ExtendedAreaOverflow | src/model/nitf/mod.rs:481-484 | a nonzero XHDL is at least 3; XHOFL is trimmed; the cursor stops past XHOFL |
| HeaderLayout.ExtendedAreaEntries | src/model/nitf/mod.rs:480-498 | a nonzero XHDL is at least 3; the entries start 8 bytes in, reach XHDL - 3 bytes, re-encode to their bytes and are well formed |
| HeaderLayout.ExtendedAreaFields | src/model/nitf/mod.rs:480-498 | with a nonzero XHDL the fields are the earlier map with XHDL, the trimmed XHOFL and each entry's trimmed value inserted under its tag in order; the cursor stays past XHOFL |
| HeaderLayout.ExtendedEntries | src/model/nitf/mod.rs:495 | an extended entry not overridden later leaves its trimmed value under its tag |
| HeaderLayout.ExtendedKeeps | src/model/nitf/mod.rs:473-498 | the extended area leaves every key of other than six characters as XHDL and XHOFL left it |
| HeaderLayout.ExtendedRejectsShortArea | src/model/nitf/mod.rs:487 | an XHDL of 1 or 2, for which `XHDL - 3` underflows, fails just past XHOFL |
| HeaderLayout.ExtendedFrame | src/model/nitf/mod.rs:473-498 | the extended area changes no key of other than six characters but XHDL and XHOFL |
| HeaderLayout.AfterSegmentsKeeps | src/model/nitf/mod.rs:445-498 | the two areas keep a key of other than six characters that is none of UDHDL, XHDL and XHOFL |
| HeaderLayout.AfterPrefixKeeps | src/model/nitf/mod.rs:361-498 | what the fixed part stores under such a key is what the whole header stores |
| HeaderLayout.HeaderIdentification | src/model/nitf/mod.rs:164-198 | in the decoded header FHDR, FVER, STYPE are bytes 0..4, 4..9, 11..15, and FDT is the 19-character date of 25..39 |
| HeaderLayout.HeaderCopy | src/model/nitf/mod.rs:325-326 | in the decoded header FSCOP is the trimmed text of 286..291 |
| HeaderLayout.HeaderColor | src/model/nitf/mod.rs:337 | in the decoded header FBKGC is the colour of 297..300 |
| HeaderLayout.HeaderLengthFields | src/model/nitf/mod.rs:353-358 | in the decoded header FL and HL are 342..354 and 354..360 |
| HeaderLayout.SegmentsImagePair | src/model/nitf/mod.rs:368-374 | image pair k holds 6 bytes at c + 3 + 16(k - 1) and the 10 after them |
| HeaderLayout.SegmentsNumi | src/model/nitf/mod.rs:361 | NUMI holds the first three bytes of the segment part |
| HeaderLayout.SegmentsNumx | src/model/nitf/mod.rs:393-394 | NUMX holds the three bytes between the graphic and the text group |
| HeaderLayout.HeaderImagePair | src/model/nitf/mod.rs:368-374 | in the decoded header LISHk is 6 bytes at 363 + 16(k - 1) and LIk the 10 after them |
| HeaderLayout.HeaderNumi | src/model/nitf/mod.rs:361 | in the decoded header NUMI is bytes 360..363 |
| HeaderLayout.HeaderImageCount | src/model/nitf/mod.rs:361-366 | the image count is the decimal value of the digits at 360..363 |
| HeaderLayout.HeaderNumx | src/model/nitf/mod.rs:393 | NUMX is at 366 + 16·NUMI + 10·NUMS |
| HeaderLayout.HeaderSegmentsEnd | src/model/nitf/mod.rs:361-442 | the segment part ends at 378 + 16·NUMI + 10·NUMS + 9·NUMT + 13·NUMDES + 11·NUMRES |
| HeaderLayout.SegmentsAllZero | src/model/nitf/mod.rs:361-442 | eighteen zero bytes make all counts zero and a segment part of 18 bytes |
| HeaderLayout.ZeroAreasKeep | src/model/nitf/mod.rs:445-479 | zero-length areas add only UDHDL and XHDL and take ten bytes |
| HeaderLayout.MinimalHeader | src/model/nitf/mod.rs:361-479 | with all counts and area lengths zero, the header is 388 bytes long, has no segments and no UDHOFL or XHOFL |
| Subheaders.ImageIdentificationIsRun | src/model/nitf/mod.rs:513-546 | IM to IID2 are one run of their table |
| Subheaders.ImageSecurityIsRun | src/model/nitf/mod.rs:550-575 | ISCLAS to ISREL are one run of their table |
| Subheaders.ImageDeclassificationIsRun | src/model/nitf/mod.rs:579-621 | ISDCTP to ISDGDT are one run of their table |
| Subheaders.ImageAuthorityIsRun | src/model/nitf/mod.rs:625-665 | ISCLTX to ISCTLN are one run of their table |
| Subheaders.ImageIsRun | src/model/nitf/mod.rs:506-669 | the image subheader is one run over its 21 fields |
| Subheaders.ImageWidth | src/model/nitf/mod.rs:506-669 | the parts end at 123, 159, 182 and 290 bytes |
| Subheaders.ImageDistinct | src/model/nitf/mod.rs:513-663 | the 21 keys are distinct and all slots are text |
| Subheaders.ImageReadable | src/model/nitf/mod.rs:506-669 | the image subheader decodes exactly when its 290 bytes are in the buffer and ASCII |
| Subheaders.ImageLocal | src/model/nitf/mod.rs:506-669 | the image subheader depends on bytes offset..offset + 290 only |
| Subheaders.ImageField | src/model/nitf/mod.rs:506-669 | field j holds the value of its slot at offset plus the widths before it |
| Subheaders.ImageIdentifiers | src/model/nitf/mod.rs:513-557 | IM at +0..2, IID1 at +2..12, ISCLAS at +123 as read; IDATIM is the 19-character date of +12..26; ISCLSY is trimmed |
| Subheaders.ImageDates | src/model/nitf/mod.rs:583-666 | ISDCDT, ISDGDT and ISSRDT are trimmed dates at +161, +174 and +267; ISCTLN ends at +290 |
| Subheaders.TypeAndIdLayout | src/model/nitf/mod.rs:672-727 | the two fields decode exactly when their bytes are readable, then the map is exactly the two keys; a failure names one of the two field starts |
| Subheaders.GraphicLayout | src/model/nitf/mod.rs:672-688 | the graphic subheader is exactly {SY, SID} from 12 bytes |
| Subheaders.TextLayout | src/model/nitf/mod.rs:691-707 | the text subheader is exactly {TE, TEXTID} from 9 bytes |
| Subheaders.DataExtensionLayout | src/model/nitf/mod.rs:710-727 | the data extension subheader is exactly {DE, DESID} from 27 bytes |
| Subheaders.ReadImageIdentification | src/model/nitf/mod.rs:513-546 | the reads agree with ImageIdentification |
| Subheaders.ReadImageSecurity | src/model/nitf/mod.rs:550-575 | the reads agree with ImageSecurity |
| Subheaders.ReadImageDeclassification | src/model/nitf/mod.rs:579-621 | the reads agree with ImageDeclassification |
| Subheaders.ReadImageAuthority | src/model/nitf/mod.rs:625-665 | the reads agree with ImageAuthority |
| Subheaders.ParseImageSubheader | src/model/nitf/mod.rs:506-669 | the decoded image subheader is ImageSubheader, error included |
| Subheaders.ParseTypeAndId | src/model/nitf/mod.rs:672-727 | the two leading fields are TypeAndId |
| Subheaders.ParseGraphicSubheader | src/model/nitf/mod.rs:672-688 | the decoded graphic subheader is GraphicSubheader |
| Subheaders.ParseTextSubheader | src/model/nitf/mod.rs:691-707 | the decoded text subheader is TextSubheader |
| Subheaders.ParseDataExtensionSubheader | src/model/nitf/mod.rs:710-727 | the decoded data extension subheader is DataExtensionSubheader |
| Offsets.SizesOk | src/model/nitf/mod.rs:58-62 | the sizes can be read exactly when every pair's two lengths can |
| Offsets.SizesAt | src/model/nitf/mod.rs:60-61 | size i is LxSHi + Lxi |
| Offsets.PrefixSums | src/model/nitf/mod.rs:57-62 | the layout succeeds exactly when the sizes can be read; segment k starts at the start plus the sizes before it; the next kind starts past all of them |
| Offsets.LayoutFailsFrom | src/model/nitf/mod.rs:60-61 | once a pair fails, the whole kind fails with that error |
| Offsets.GroupSorted | src/model/nitf/mod.rs:57-62 | a kind's offsets never decrease, the first is the start, and the next kind starts past the last segment |
| Offsets.GroupStep | src/model/nitf/mod.rs:59-61 | offset k + 1 is offset k plus LxSHk + Lxk |
| Offsets.GroupIncreasing | src/model/nitf/mod.rs:57-62 | when every segment has nonzero size, a kind's offsets strictly increase and lie before the next kind's start |
| Offsets.FileCounts | src/model/nitf/mod.rs:53-98 | each kind has NUMI, NUMS, NUMT or NUMDES offsets; images start at HL and each later kind where the one before ended |
| Offsets.FileSorted | src/model/nitf/mod.rs:53-98 | all offsets, in visiting order, are at least HL and never decrease |
| Offsets.FileIncreasing | src/model/nitf/mod.rs:53-98 | when every image, graphic, text and data-extension pair from 1 to its kind's count has a positive size, the offsets strictly increase across all kinds, from HL on |
| Offsets.CollectOffsets | src/model/nitf/mod.rs:57-62 | the push-and-add loop computes GroupLayout, error included |
| Offsets.ResolveOffsets | src/model/nitf/mod.rs:53-98 | the offset walk computes FileLayout |
| Nitf.DecodeAllAt | src/model/nitf/mod.rs:66-67 | the subheaders of a kind decode exactly when each one does; there is one per offset, each read at its offset |
| Nitf.DecodeAllFailsFrom | src/model/nitf/mod.rs:66-67 | once a subheader fails, the whole kind fails with it |
| Nitf.SegmentsLayout | src/model/nitf/mod.rs:53-119 | decoding the segments uses FileLayout's offsets and keeps the header map |
| Nitf.SegmentsImages | src/model/nitf/mod.rs:57-67 | image subheader j is the one read at image offset j |
| Nitf.SegmentsGraphics | src/model/nitf/mod.rs:69-79 | graphic subheader j is the one read at graphic offset j |
| Nitf.SegmentsTexts | src/model/nitf/mod.rs:81-91 | text subheader j is the one read at text offset j |
| Nitf.SegmentsDataExtensions | src/model/nitf/mod.rs:93-103 | data extension subheader j is the one read at data extension offset j |
| Nitf.DecodedParts | src/model/nitf/mod.rs:51-119 | a decoded file is its header followed by the segments of that header |
| Nitf.DecodedImages | src/model/nitf/mod.rs:51-67 | there are as many image subheaders as the digits at 360 say, and the first is read at HL, the six bytes at 354 |
| Nitf.DecodedInOrder | src/model/nitf/mod.rs:53-103 | every subheader offset is at least HL, and in reading order the offsets never decrease |
| Nitf.ParseSubheader | src/model/nitf/mod.rs:66-102 | the subheader of a kind at an offset is SubheaderAt |
| Nitf.ParseAll | src/model/nitf/mod.rs:66-67 | the loop over the offsets computes DecodeAll |
| Nitf.ParseSegments | src/model/nitf/mod.rs:53-119 | the segment decode computes DecodeSegments |
| Nitf.New | src/model/nitf/mod.rs:44-120 | the whole decode of the bytes is Decoded, error included |

## Left out

- File I/O in `new` (`File::open`, `read_to_end`). The model takes the file's bytes as its input.
- Display for NITF. It is presentation only.
- The rayon parallel iteration and channel fan-in of `new`. Subheaders are decoded one after the other, in offset order. The source's collection order is not guaranteed; the model fixes it to offset order.
- Text is ASCII only. `String::from_utf8` also accepts multi-byte UTF-8 and `trim` removes Unicode whitespace. The model rejects every byte above 127 with `InvalidEncoding`, so it is stricter than the source on valid non-ASCII UTF-8.
- Panics become error results. Slices out of range, `unwrap` on invalid UTF-8 and failed `parse::<usize>()` each give an `Err`. The model does not distinguish a panic from an I/O error.
- Integer widths are not modelled. The source's i32 digit sums, `10_i32.pow` and usize offset additions could overflow; the model's integers are unbounded. Counts have at most 5 digits, so the i32 sums cannot overflow. The offset sum could only overflow past usize::MAX. `parse::<usize>()` is modelled for a 64-bit usize.
- Decoding.Decoder.Count: a count with non-digit bytes fails with `MalformedCount`. The source would go on with the digit sum as computed (see Findings), so this contract is the corrected behaviour.
- Decoding.UserStep and Decoding.ExtendedStep: a TLV length with non-digit bytes fails with `MalformedTlv`. In the source it yields a wrong (possibly negative) length and then a slice panic or a wrong read.
- HeaderLayout.ExtendedRejectsShortArea: an XHDL of 1 or 2 fails. In the source, `XHDL - 3` underflows a usize: it panics in debug builds and wraps in release builds.
- The extended area loop does not advance the cursor in the source. The model keeps this, so the final cursor stops just past XHOFL.
- A TLV tag is 6 characters and can overwrite any earlier 6-character key, such as CLEVEL, OSTAID, NUMDES, NUMRES, UDHOFL or FSCODE. The layout lemmas therefore state which keys survive only for keys of other lengths (UserKeeps, ExtendedKeeps, AfterPrefixKeeps).
- HeaderLayout.PrefixIdentification and HeaderLayout.HeaderIdentification state positions for the six identification fields and for FHDR, FVER, STYPE and FDT. CLEVEL and OSTAID are 6 characters long, so their value in the final header can be replaced by a TLV entry and is stated in the fixed part only.
- The reserved extension pairs (LRESH, LRE) are read into the header but take no part in the offset walk, as in the source.

## Findings

| source | as written | input that shows it | evidently intended | confidence | as-written member | corrected member |
|---|---|---|---|---|---|---|
| src/model/nitf/mod.rs:363-365 | a count is the sum of (b - 48)·10^i over its reversed bytes, whatever the bytes are | NUMI = "00:" sums to 10, so ten image pairs are read, while `new` fails to parse "00:" as a usize; "-01" sums to -299 | a count field of anything but digits is refused | not executed | Numbers.DigitSumAcceptsNonDigits | Numbers.CountValue |
