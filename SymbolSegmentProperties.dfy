/**
 * What a successful symbol-subheader parse has read, and why a parse fails.
 *
 * The layout lemmas say which reads `parse` performs, in which order and how wide each
 * is: the twenty fixed fields (SY to NELUT), one entry per LUT entry, then the
 * extended-subheader block. Together with `Reads` they pin down the exact bytes of each
 * field, and the `...Decodes` predicates say that each header value is the conversion of
 * its own bytes.
 */
module SymbolSegmentProperties {
  import opened NitfCommon
  import opened NitfReading
  import opened NitfTre
  import opened SymbolSegmentParsing

  /** Where the security block starts, counted from the start of the subheader. */
  const SECURITY_OFFSET: nat := |SY_MAGIC| + SID_LENGTH + SNAME_LENGTH

  /** The reads of SY, SID, SNAME, the security block and ENCRYP. */
  function IdentificationShape(securityWidth: nat): seq<(Field, nat)>
  {
    [(SY, |SY_MAGIC|), (SID, SID_LENGTH), (SNAME, SNAME_LENGTH), (Security, securityWidth), (ENCRYP, ENCRYP_LENGTH)]
  }

  const GeometryShape: seq<(Field, nat)> :=
    [(STYPE, SYTYPE_LENGTH), (NLIPS, NLIPS_LENGTH), (NPIXPL, NPIXPL_LENGTH), (NWDTH, NWDTH_LENGTH), (NBPP, SYNBPP_LENGTH)]

  const PlacementShape: seq<(Field, nat)> :=
    [(SDLVL, SDLVL_LENGTH), (SALVL, SALVL_LENGTH),
     (SLOCRow, SLOC_HALF_LENGTH), (SLOCColumn, SLOC_HALF_LENGTH), (SLOC2Row, SLOC_HALF_LENGTH), (SLOC2Column, SLOC_HALF_LENGTH)]

  const AppearanceShape: seq<(Field, nat)> :=
    [(SCOLOR, SCOLOR_LENGTH), (SNUM, SNUM_LENGTH), (SROT, SROT_LENGTH), (NELUT, SYNELUT_LENGTH)]

  /** The reads of the fixed part, SY to NELUT, given the width of the security block. */
  function FixedShape(securityWidth: nat): seq<(Field, nat)>
  {
    IdentificationShape(securityWidth) + GeometryShape + PlacementShape + AppearanceShape
  }

  /** SID and SNAME are the trimmed bytes of their reads. */
  ghost predicate IdentificationDecodes(fmt: ReaderFormat, es: seq<Event>, x: Identification)
    requires |es| == 5
  {
    x.identifier == fmt.trim(es[1].bytes) && x.symbolName == fmt.trim(es[2].bytes)
  }

  lemma IdentificationReads(dec: Decoders, src: ByteSource, c: Cursor) returns (es: seq<Event>, securityWidth: nat)
    requires c.pos <= |src.data| && ReadIdentificationStep(dec, src, c).Ok?
    ensures var g := ReadIdentificationStep(dec, src, c).value;
      && Reads(src, c, g.next, es)
      && Shape(es) == IdentificationShape(securityWidth)
      && IdentificationDecodes(src.format, es, g.value)
      && dec.security(src.data[c.pos + SECURITY_OFFSET..]) == Some((g.value.securityMetadata, securityWidth))
  {
    var sy := VerifyHeaderMagicStep(src, c, SY, SY_MAGIC).value;
    var sid := ReadTrimmedBytesStep(src, sy.next, SID, SID_LENGTH).value;
    var sname := ReadTrimmedBytesStep(src, sid.next, SNAME, SNAME_LENGTH).value;
    var security := ReadDelegatedStep(src, sname.next, Security, dec.security, BadSecurityMetadata).value;
    securityWidth := dec.security(src.data[sname.next.pos..]).value.1;
    var encryp := ReadBytesStep(src, security.next, ENCRYP, ENCRYP_LENGTH).value;
    var front := ThreeReads(src, c, sy.next, sid.next, sname.next, SY, |SY_MAGIC|, SID, SID_LENGTH, SNAME, SNAME_LENGTH);
    var back := TwoReads(src, sname.next, security.next, encryp.next, Security, securityWidth, ENCRYP, ENCRYP_LENGTH);
    ReadsThen(src, c, sname.next, encryp.next, front, back);
    ShapeAppend(front, back);
    es := front + back;
  }

  /** STYPE names the symbol type; NLIPS, NPIXPL, NWDTH and NBPP are the numbers their bytes spell. */
  ghost predicate GeometryDecodes(dec: Decoders, fmt: ReaderFormat, es: seq<Event>, x: Geometry)
    requires |es| == 5
  {
    && dec.symbolType(fmt.trim(es[0].bytes)) == Some(x.symbolType)
    && fmt.asInteger(es[1].bytes) == Some(x.numberOfLinesPerSymbol)
    && fmt.asInteger(es[2].bytes) == Some(x.numberOfPixelsPerLine)
    && fmt.asInteger(es[3].bytes) == Some(x.lineWidth)
    && fmt.asInteger(es[4].bytes) == Some(x.numberOfBitsPerPixel)
  }

  lemma GeometryReads(dec: Decoders, src: ByteSource, c: Cursor) returns (es: seq<Event>)
    requires c.pos <= |src.data| && ReadGeometryStep(dec, src, c).Ok?
    ensures var g := ReadGeometryStep(dec, src, c).value;
      Reads(src, c, g.next, es) && Shape(es) == GeometryShape && GeometryDecodes(dec, src.format, es, g.value)
  {
    var stype := ReadTrimmedBytesStep(src, c, STYPE, SYTYPE_LENGTH).value;
    var nlips := ReadBytesAsIntegerStep(src, stype.next, NLIPS, NLIPS_LENGTH).value;
    var npixpl := ReadBytesAsIntegerStep(src, nlips.next, NPIXPL, NPIXPL_LENGTH).value;
    var nwdth := ReadBytesAsIntegerStep(src, npixpl.next, NWDTH, NWDTH_LENGTH).value;
    var nbpp := ReadBytesAsIntegerStep(src, nwdth.next, NBPP, SYNBPP_LENGTH).value;
    var front := ThreeReads(src, c, stype.next, nlips.next, npixpl.next, STYPE, SYTYPE_LENGTH, NLIPS, NLIPS_LENGTH, NPIXPL, NPIXPL_LENGTH);
    var back := TwoReads(src, npixpl.next, nwdth.next, nbpp.next, NWDTH, NWDTH_LENGTH, NBPP, SYNBPP_LENGTH);
    ReadsThen(src, c, npixpl.next, nbpp.next, front, back);
    ShapeAppend(front, back);
    es := front + back;
  }

  /** SDLVL, SALVL and the four location halves are the numbers their bytes spell. */
  ghost predicate PlacementDecodes(fmt: ReaderFormat, es: seq<Event>, x: Placement)
    requires |es| == 6
  {
    && fmt.asInteger(es[0].bytes) == Some(x.symbolDisplayLevel)
    && fmt.asInteger(es[1].bytes) == Some(x.attachmentLevel)
    && fmt.asInteger(es[2].bytes) == Some(x.symbolLocationRow)
    && fmt.asInteger(es[3].bytes) == Some(x.symbolLocationColumn)
    && fmt.asInteger(es[4].bytes) == Some(x.symbolLocation2Row)
    && fmt.asInteger(es[5].bytes) == Some(x.symbolLocation2Column)
  }

  lemma PlacementReads(src: ByteSource, c: Cursor) returns (es: seq<Event>)
    requires c.pos <= |src.data| && ReadPlacementStep(src, c).Ok?
    ensures var g := ReadPlacementStep(src, c).value;
      Reads(src, c, g.next, es) && Shape(es) == PlacementShape && PlacementDecodes(src.format, es, g.value)
  {
    var sdlvl := ReadBytesAsIntegerStep(src, c, SDLVL, SDLVL_LENGTH).value;
    var salvl := ReadBytesAsIntegerStep(src, sdlvl.next, SALVL, SALVL_LENGTH).value;
    var row := ReadBytesAsIntegerStep(src, salvl.next, SLOCRow, SLOC_HALF_LENGTH).value;
    var column := ReadBytesAsIntegerStep(src, row.next, SLOCColumn, SLOC_HALF_LENGTH).value;
    var row2 := ReadBytesAsIntegerStep(src, column.next, SLOC2Row, SLOC_HALF_LENGTH).value;
    var column2 := ReadBytesAsIntegerStep(src, row2.next, SLOC2Column, SLOC_HALF_LENGTH).value;
    var front := ThreeReads(src, c, sdlvl.next, salvl.next, row.next, SDLVL, SDLVL_LENGTH, SALVL, SALVL_LENGTH, SLOCRow, SLOC_HALF_LENGTH);
    var back := ThreeReads(src, row.next, column.next, row2.next, column2.next,
                           SLOCColumn, SLOC_HALF_LENGTH, SLOC2Row, SLOC_HALF_LENGTH, SLOC2Column, SLOC_HALF_LENGTH);
    ReadsThen(src, c, row.next, column2.next, front, back);
    ShapeAppend(front, back);
    es := front + back;
  }

  /** SCOLOR names the colour format, SNUM is kept as read, SROT and NELUT are numbers. */
  ghost predicate AppearanceDecodes(dec: Decoders, fmt: ReaderFormat, es: seq<Event>, x: Appearance)
    requires |es| == 4
  {
    && dec.symbolColour(es[0].bytes) == Some(x.symbolColour)
    && x.symbolNumber == es[1].bytes
    && fmt.asInteger(es[2].bytes) == Some(x.symbolRotation)
    && fmt.asInteger(es[3].bytes) == Some(x.numberOfEntriesInLUT)
  }

  lemma AppearanceReads(dec: Decoders, src: ByteSource, c: Cursor) returns (es: seq<Event>)
    requires c.pos <= |src.data| && ReadAppearanceStep(dec, src, c).Ok?
    ensures var g := ReadAppearanceStep(dec, src, c).value;
      Reads(src, c, g.next, es) && Shape(es) == AppearanceShape && AppearanceDecodes(dec, src.format, es, g.value)
  {
    var scolor := ReadBytesStep(src, c, SCOLOR, SCOLOR_LENGTH).value;
    var snum := ReadBytesStep(src, scolor.next, SNUM, SNUM_LENGTH).value;
    var srot := ReadBytesAsIntegerStep(src, snum.next, SROT, SROT_LENGTH).value;
    var nelut := ReadBytesAsIntegerStep(src, srot.next, NELUT, SYNELUT_LENGTH).value;
    var front := TwoReads(src, c, scolor.next, snum.next, SCOLOR, SCOLOR_LENGTH, SNUM, SNUM_LENGTH);
    var back := TwoReads(src, snum.next, srot.next, nelut.next, SROT, SROT_LENGTH, NELUT, SYNELUT_LENGTH);
    ReadsThen(src, c, snum.next, nelut.next, front, back);
    ShapeAppend(front, back);
    es := front + back;
  }

  /**
   * Each value of the header read so far is the conversion of its own read: the trimmed
   * bytes for SID, SNAME and STYPE, the bytes as they are for SCOLOR and SNUM, and the
   * number they spell for every integer field.
   */
  ghost predicate FixedDecodes(dec: Decoders, fmt: ReaderFormat, es: seq<Event>, p: Parsed)
    requires |es| == 20
  {
    var h := p.segment;
    && h.identifier == fmt.trim(es[1].bytes)
    && h.symbolName == fmt.trim(es[2].bytes)
    && dec.symbolType(fmt.trim(es[5].bytes)) == Some(h.symbolType)
    && fmt.asInteger(es[6].bytes) == Some(h.numberOfLinesPerSymbol)
    && fmt.asInteger(es[7].bytes) == Some(h.numberOfPixelsPerLine)
    && fmt.asInteger(es[8].bytes) == Some(h.lineWidth)
    && fmt.asInteger(es[9].bytes) == Some(h.numberOfBitsPerPixel)
    && fmt.asInteger(es[10].bytes) == Some(h.symbolDisplayLevel)
    && fmt.asInteger(es[11].bytes) == Some(h.attachmentLevel)
    && fmt.asInteger(es[12].bytes) == Some(h.symbolLocationRow)
    && fmt.asInteger(es[13].bytes) == Some(h.symbolLocationColumn)
    && fmt.asInteger(es[14].bytes) == Some(h.symbolLocation2Row)
    && fmt.asInteger(es[15].bytes) == Some(h.symbolLocation2Column)
    && dec.symbolColour(es[16].bytes) == Some(h.symbolColour)
    && h.symbolNumber == es[17].bytes
    && fmt.asInteger(es[18].bytes) == Some(h.symbolRotation)
    && fmt.asInteger(es[19].bytes) == Some(p.numberOfEntriesInLUT)
  }

  /**
   * The fixed part reads SY to NELUT in order, each at its width, the security block as
   * wide as the security parser says; the header takes its data length from the caller
   * and its file type from the reader, and has no extended-subheader data yet.
   */
  lemma FixedFieldsReads(dec: Decoders, src: ByteSource, c: Cursor, dataLength: int64) returns (es: seq<Event>, securityWidth: nat)
    requires c.pos <= |src.data| && ReadFixedFieldsStep(dec, src, c, dataLength).Ok?
    ensures var g := ReadFixedFieldsStep(dec, src, c, dataLength).value; var h := g.value.segment;
      && Reads(src, c, g.next, es)
      && Shape(es) == FixedShape(securityWidth)
      && FixedDecodes(dec, src.format, es, g.value)
      && dec.security(src.data[c.pos + SECURITY_OFFSET..]) == Some((h.securityMetadata, securityWidth))
      && h.dataLength == dataLength && h.fileType == src.fileType
      && h.extendedHeaderDataOverflow == 0 && h.tres == [] && g.value.symbolExtendedSubheaderLength == 0
  {
    var id := ReadIdentificationStep(dec, src, c).value;
    var es1, w := IdentificationReads(dec, src, c);
    var geo := ReadGeometryStep(dec, src, id.next).value;
    var es2 := GeometryReads(dec, src, id.next);
    var place := ReadPlacementStep(src, geo.next).value;
    var es3 := PlacementReads(src, geo.next);
    var look := ReadAppearanceStep(dec, src, place.next).value;
    var es4 := AppearanceReads(dec, src, place.next);
    ReadsThen(src, c, id.next, geo.next, es1, es2);
    ReadsThen(src, c, geo.next, place.next, es1 + es2, es3);
    ReadsThen(src, c, place.next, look.next, es1 + es2 + es3, es4);
    ShapeAppend(es1, es2);
    ShapeAppend(es1 + es2, es3);
    ShapeAppend(es1 + es2 + es3, es4);
    es, securityWidth := es1 + es2 + es3 + es4, w;
  }

  /** Only a bitmap symbol with a colour or grayscale LUT format may carry LUT entries. */
  predicate HasLut(t: SymbolType, col: SymbolColour)
  {
    t == Bitmap && (col == UseColourLut || col == UseGrayscaleLut)
  }

  /** The width of one LUT entry: three bytes in colour, one in grayscale. */
  function LutEntryWidth(t: SymbolType, col: SymbolColour): nat
  {
    if HasLut(t, col) then
      if col == UseColourLut then NUM_BYTES_IN_COLOUR_LUT_ENTRY else NUM_BYTES_IN_GRAYSCALE_LUT_ENTRY
    else
      0
  }

  /** `count` LUT-entry reads of `width` bytes each; none for a count below one. */
  function LutShape(width: nat, count: int): seq<(Field, nat)>
    decreases count
  {
    if count <= 0 then [] else [(LUTEntry, width)] + LutShape(width, count - 1)
  }

  /**
   * The LUT loop: with no entries it reads nothing; with entries it succeeds exactly when
   * the pair has a LUT and the bytes for every entry are there, and then moves past them.
   * A pair without a LUT fails at once, before any entry is read; a truncated LUT fails
   * with a truncation.
   */
  lemma {:induction false} LutOutcome(src: ByteSource, c: Cursor, t: SymbolType, col: SymbolColour, count: int)
    requires c.pos <= |src.data|
    ensures var s := ReadLUTStep(src, c, t, col, count);
      && (s.Ok? <==> count <= 0 || (HasLut(t, col) && c.pos + count * LutEntryWidth(t, col) <= |src.data|))
      && (count <= 0 ==> s == Ok(Got((), c)))
      && (count > 0 && !HasLut(t, col) ==> s == Err(Failure(LutNotPermitted, c)))
      && (count > 0 && HasLut(t, col) && s.Err? ==> s.error.reason == Truncated)
    decreases count
  {
    if count > 0 && HasLut(t, col) {
      var w := LutEntryWidth(t, col);
      assert count * w == w + (count - 1) * w;
      if c.pos + w <= |src.data| {
        var entry := ReadLUTEntryStep(src, c, t, col).value;
        LutOutcome(src, entry.next, t, col, count - 1);
      } else {
        assert (count - 1) * w >= 0;
      }
    }
  }

  /** The first entry of a LUT the symbol cannot have is refused before anything is read. */
  lemma LutWithoutTableRejected(src: ByteSource, c: Cursor, t: SymbolType, col: SymbolColour, count: int)
    requires count > 0 && !HasLut(t, col)
    ensures ReadLUTStep(src, c, t, col, count) == Err(Failure(LutNotPermitted, c))
  {
  }

  /** A successful LUT loop reads one entry of the pair's width per entry, in order. */
  lemma {:induction false} LutReads(src: ByteSource, c: Cursor, t: SymbolType, col: SymbolColour, count: int) returns (es: seq<Event>)
    requires c.pos <= |src.data| && ReadLUTStep(src, c, t, col, count).Ok?
    ensures Reads(src, c, ReadLUTStep(src, c, t, col, count).value.next, es)
    ensures Shape(es) == LutShape(LutEntryWidth(t, col), count)
    decreases count
  {
    if count <= 0 {
      ReadsNothing(src, c);
      es := [];
    } else {
      var w := LutEntryWidth(t, col);
      var entry := ReadLUTEntryStep(src, c, t, col).value;
      ConsumedReads(src, c, entry.next, LUTEntry, w);
      var rest := LutReads(src, entry.next, t, col, count - 1);
      var first := [Read(LUTEntry, src.data[c.pos..c.pos + w])];
      ReadsThen(src, c, entry.next, ReadLUTStep(src, c, t, col, count).value.next, first, rest);
      ShapeAppend(first, rest);
      es := first + rest;
    }
  }

  /**
   * A successful LUT loop moves the reader over `count` entries of the pair's width:
   * three bytes each in colour, one in grayscale, and nothing for a count below one.
   */
  lemma {:induction false} LutConsumes(src: ByteSource, c: Cursor, t: SymbolType, col: SymbolColour, count: int)
    requires c.pos <= |src.data| && ReadLUTStep(src, c, t, col, count).Ok?
    ensures ReadLUTStep(src, c, t, col, count).value.next.pos == c.pos + if count <= 0 then 0 else count * LutEntryWidth(t, col)
    decreases count
  {
    if count > 0 {
      var w := LutEntryWidth(t, col);
      var entry := ReadLUTEntryStep(src, c, t, col).value;
      LutConsumes(src, entry.next, t, col, count - 1);
      assert count * w == w + (count - 1) * w;
    }
  }

  /**
   * SXSHDL, then SXSOFL when the length is positive, then the TRE area when the length
   * leaves a budget of zero or more after SXSOFL.
   */
  function ExtendedShape(length: int32): seq<(Field, nat)>
  {
    [(SXSHDL, SXSHDL_LENGTH)] + ExtendedTailShape(length)
  }

  /** The reads of an extended block after SXSHDL. */
  function ExtendedTailShape(length: int32): seq<(Field, nat)>
  {
    (if length > 0 then [(SXSOFL, SXSOFL_LENGTH)] else [])
      + (if SXSOFL_LENGTH <= length as int then [(SXSHD, length as int - SXSOFL_LENGTH)] else [])
  }

  /**
   * The TREs an extended block of length `length` yields: the decoding of the TRE area's
   * bytes `area`, or, for a length shorter than SXSOFL, the decoder's answer to the
   * negative budget.
   */
  function ExtendedTres(treDecoder: TreDecoder, length: int32, area: seq<byte>): Option<TreCollection>
  {
    if SXSOFL_LENGTH <= length as int then treDecoder.decodeArea(area, SymbolExtendedSubheaderData)
    else treDecoder.negativeBudget(length as int - SXSOFL_LENGTH, SymbolExtendedSubheaderData)
  }

  /** The bytes of the TRE area among the reads of an extended block, if it has one. */
  function AreaBytes(es: seq<Event>): seq<byte>
  {
    if |es| == 3 then es[2].bytes else []
  }

  /**
   * The extended-subheader block: SXSHDL is the length kept by the parser. A length of
   * zero or less ends the subheader and leaves the header as it was; a positive length
   * covers SXSOFL, which becomes the overflow field, and the TRE area, whose TREs are
   * added to the header's. A length of one or two leaves a negative budget, for which the
   * decoder decides the TREs and nothing more is read.
   */
  lemma ExtendedReads(treDecoder: TreDecoder, src: ByteSource, c: Cursor, p: Parsed) returns (es: seq<Event>)
    requires c.pos <= |src.data| && ReadExtendedSubheaderStep(treDecoder, src, c, p).Ok?
    ensures var g := ReadExtendedSubheaderStep(treDecoder, src, c, p).value; var length := g.value.symbolExtendedSubheaderLength;
      && Reads(src, c, g.next, es)
      && Shape(es) == ExtendedShape(length)
      && src.format.asInteger(es[0].bytes) == Some(length)
      && g.value.numberOfEntriesInLUT == p.numberOfEntriesInLUT
      && (length <= 0 ==> g.value.segment == p.segment)
      && (length > 0 ==>
            && src.format.asInteger(es[1].bytes) == Some(g.value.segment.extendedHeaderDataOverflow)
            && ExtendedTres(treDecoder, length, AreaBytes(es)).Some?
            && g.value.segment == p.segment.(extendedHeaderDataOverflow := g.value.segment.extendedHeaderDataOverflow,
                                             tres := p.segment.tres + ExtendedTres(treDecoder, length, AreaBytes(es)).value.tres))
  {
    var sxshdl := ReadBytesAsIntegerStep(src, c, SXSHDL, SXSHDL_LENGTH).value;
    ConsumedReads(src, c, sxshdl.next, SXSHDL, SXSHDL_LENGTH);
    es := [Read(SXSHDL, src.data[c.pos..sxshdl.next.pos])];
    if sxshdl.value > 0 {
      var tail := ExtendedTailReads(treDecoder, src, sxshdl.next, sxshdl.value);
      ReadsThen(src, c, sxshdl.next, ReadExtendedSubheaderStep(treDecoder, src, c, p).value.next, es, tail);
      ShapeAppend(es, tail);
      assert AreaBytes(es + tail) == if |tail| == 2 then tail[1].bytes else [];
      es := es + tail;
    }
  }

  /** The part of a positive-length extended block after SXSHDL: SXSOFL, then the TRE area if any. */
  lemma ExtendedTailReads(treDecoder: TreDecoder, src: ByteSource, c: Cursor, length: int32) returns (es: seq<Event>)
    requires length > 0
    requires var sxsofl := ReadBytesAsIntegerStep(src, c, SXSOFL, SXSOFL_LENGTH);
      sxsofl.Ok? && ParseTresStep(treDecoder, src, sxsofl.value.next, length as int - SXSOFL_LENGTH, SymbolExtendedSubheaderData, SXSHD).Ok?
    ensures var sxsofl := ReadBytesAsIntegerStep(src, c, SXSOFL, SXSOFL_LENGTH).value;
      var area := ParseTresStep(treDecoder, src, sxsofl.next, length as int - SXSOFL_LENGTH, SymbolExtendedSubheaderData, SXSHD).value;
      && Reads(src, c, area.next, es)
      && Shape(es) == ExtendedTailShape(length)
      && src.format.asInteger(es[0].bytes) == Some(sxsofl.value)
      && Some(area.value) == ExtendedTres(treDecoder, length, if |es| == 2 then es[1].bytes else [])
  {
    var sxsofl := ReadBytesAsIntegerStep(src, c, SXSOFL, SXSOFL_LENGTH).value;
    var width := length as int - SXSOFL_LENGTH;
    var area := ParseTresStep(treDecoder, src, sxsofl.next, width, SymbolExtendedSubheaderData, SXSHD).value;
    ConsumedReads(src, c, sxsofl.next, SXSOFL, SXSOFL_LENGTH);
    es := [Read(SXSOFL, src.data[c.pos..sxsofl.next.pos])];
    if 0 <= width {
      ConsumedThen(src, c, sxsofl.next, area.next, es, SXSHD, width);
      es := es + [Read(SXSHD, src.data[sxsofl.next.pos..area.next.pos])];
    }
  }

  /**
   * The extended block is SXSHDL followed, when the length L it holds is positive, by
   * exactly L more bytes, or by SXSOFL alone when L is shorter than SXSOFL.
   */
  lemma ExtendedConsumes(treDecoder: TreDecoder, src: ByteSource, c: Cursor, p: Parsed)
    requires c.pos <= |src.data| && ReadExtendedSubheaderStep(treDecoder, src, c, p).Ok?
    ensures var g := ReadExtendedSubheaderStep(treDecoder, src, c, p).value; var length := g.value.symbolExtendedSubheaderLength;
      g.next.pos == c.pos + SXSHDL_LENGTH + if length <= 0 then 0 else if length as int < SXSOFL_LENGTH then SXSOFL_LENGTH else length as int
  {
    var sxshdl := ReadBytesAsIntegerStep(src, c, SXSHDL, SXSHDL_LENGTH).value;
    if sxshdl.value > 0 {
      var sxsofl := ReadBytesAsIntegerStep(src, sxshdl.next, SXSOFL, SXSOFL_LENGTH).value;
      var area := ParseTresStep(treDecoder, src, sxsofl.next, sxshdl.value as int - SXSOFL_LENGTH, SymbolExtendedSubheaderData, SXSHD).value;
      if SXSOFL_LENGTH <= sxshdl.value as int {
        assert area.next.pos == sxsofl.next.pos + (sxshdl.value as int - SXSOFL_LENGTH);
      }
    }
  }

  /**
   * An SXSHDL of one or two leaves less than nothing for the TRE area once SXSOFL is
   * read. The block then ends right after SXSOFL, and the decoder's answer to the
   * negative budget decides it: a rejection fails the parse there, a collection is added
   * to the header's TREs.
   */
  lemma ShortExtendedSubheaderDelegated(treDecoder: TreDecoder, src: ByteSource, c: Cursor, p: Parsed)
    requires var sxshdl := ReadBytesAsIntegerStep(src, c, SXSHDL, SXSHDL_LENGTH);
      && sxshdl.Ok? && 0 < sxshdl.value.value as int < SXSOFL_LENGTH
      && ReadBytesAsIntegerStep(src, sxshdl.value.next, SXSOFL, SXSOFL_LENGTH).Ok?
    ensures var sxshdl := ReadBytesAsIntegerStep(src, c, SXSHDL, SXSHDL_LENGTH).value;
      var sxsofl := ReadBytesAsIntegerStep(src, sxshdl.next, SXSOFL, SXSOFL_LENGTH).value;
      var verdict := treDecoder.negativeBudget(sxshdl.value as int - SXSOFL_LENGTH, SymbolExtendedSubheaderData);
      var s := ReadExtendedSubheaderStep(treDecoder, src, c, p);
      && (verdict.None? ==> s == Err(Failure(NegativeTreLength, sxsofl.next)))
      && (verdict.Some? ==>
            && s.Ok? && s.value.next == sxsofl.next
            && s.value.value.segment == p.segment.(extendedHeaderDataOverflow := sxsofl.value, tres := p.segment.tres + verdict.value.tres))
  {
  }

  /** A successful parse is its three phases, each successful, one after the other. */
  lemma ParsePhases(dec: Decoders, treDecoder: TreDecoder, src: ByteSource, c: Cursor, dataLength: int64)
    requires c.pos <= |src.data| && ParseSymbolSegment(dec, treDecoder, src, c, dataLength).Ok?
    ensures var f := ReadFixedFieldsStep(dec, src, c, dataLength);
      && f.Ok?
      && var p := f.value.value;
         var l := ReadLUTStep(src, f.value.next, p.segment.symbolType, p.segment.symbolColour, p.numberOfEntriesInLUT as int);
         && l.Ok?
         && ParseSymbolSegment(dec, treDecoder, src, c, dataLength) == ReadExtendedSubheaderStep(treDecoder, src, l.value.next, p)
  {
  }

  /** A LUT loop that fails ends the parse with its failure. */
  lemma ParseStopsInLut(dec: Decoders, treDecoder: TreDecoder, src: ByteSource, c: Cursor, dataLength: int64, f: Got<Parsed>)
    requires c.pos <= |src.data| && ReadFixedFieldsStep(dec, src, c, dataLength) == Ok(f)
    requires ReadLUTStep(src, f.next, f.value.segment.symbolType, f.value.segment.symbolColour, f.value.numberOfEntriesInLUT as int).Err?
    ensures ParseSymbolSegment(dec, treDecoder, src, c, dataLength)
         == Err(ReadLUTStep(src, f.next, f.value.segment.symbolType, f.value.segment.symbolColour, f.value.numberOfEntriesInLUT as int).error)
  {
  }

  /**
   * A successful parse reads the fixed part, then one entry per LUT entry, then the
   * extended-subheader block, and nothing else; the LUT entries are there only for a
   * symbol that has a LUT, and are as wide as its format says. Every header value is the
   * conversion of its own read; the data length is the caller's and the file type the
   * reader's; the overflow field and the TREs come from the extended block, if any.
   */
  lemma ParseReads(dec: Decoders, treDecoder: TreDecoder, src: ByteSource, c: Cursor, dataLength: int64)
    returns (fixed: seq<Event>, lut: seq<Event>, extended: seq<Event>, securityWidth: nat)
    requires c.pos <= |src.data| && ParseSymbolSegment(dec, treDecoder, src, c, dataLength).Ok?
    ensures var g := ParseSymbolSegment(dec, treDecoder, src, c, dataLength).value;
      var h := g.value.segment; var length := g.value.symbolExtendedSubheaderLength;
      && Reads(src, c, g.next, fixed + lut + extended)
      && Shape(fixed) == FixedShape(securityWidth)
      && (g.value.numberOfEntriesInLUT > 0 ==> HasLut(h.symbolType, h.symbolColour))
      && Shape(lut) == LutShape(LutEntryWidth(h.symbolType, h.symbolColour), g.value.numberOfEntriesInLUT as int)
      && Shape(extended) == ExtendedShape(length)
      && FixedDecodes(dec, src.format, fixed, g.value)
      && dec.security(src.data[c.pos + SECURITY_OFFSET..]) == Some((h.securityMetadata, securityWidth))
      && h.dataLength == dataLength && h.fileType == src.fileType
      && src.format.asInteger(extended[0].bytes) == Some(length)
      && (length <= 0 ==> h.extendedHeaderDataOverflow == 0 && h.tres == [])
      && (length > 0 ==>
            && src.format.asInteger(extended[1].bytes) == Some(h.extendedHeaderDataOverflow)
            && ExtendedTres(treDecoder, length, AreaBytes(extended)) == Some(TreCollection(h.tres)))
  {
    ParsePhases(dec, treDecoder, src, c, dataLength);
    var f := ReadFixedFieldsStep(dec, src, c, dataLength).value;
    var p := f.value;
    var t, col, count := p.segment.symbolType, p.segment.symbolColour, p.numberOfEntriesInLUT as int;
    var l := ReadLUTStep(src, f.next, t, col, count).value;
    var g := ReadExtendedSubheaderStep(treDecoder, src, l.next, p).value;
    fixed, securityWidth := FixedFieldsReads(dec, src, c, dataLength);
    lut := LutReads(src, f.next, t, col, count);
    LutOutcome(src, f.next, t, col, count);
    extended := ExtendedReads(treDecoder, src, l.next, p);
    ReadsThen(src, c, f.next, l.next, fixed, lut);
    ReadsThen(src, c, l.next, g.next, fixed + lut, extended);
    ShapeEntries(fixed);
    ShapeEntries(lut);
    ShapeEntries(extended);
    if g.value.symbolExtendedSubheaderLength > 0 {
      var collection := ExtendedTres(treDecoder, g.value.symbolExtendedSubheaderLength, AreaBytes(extended)).value;
      assert p.segment.tres + collection.tres == collection.tres;
    }
  }

  /** Parsing keeps the reader's trace a faithful record of the bytes it has moved over. */
  lemma ParseKeepsFaithful(dec: Decoders, treDecoder: TreDecoder, src: ByteSource, start: nat, c: Cursor, dataLength: int64)
    requires Faithful(src, start, c) && ParseSymbolSegment(dec, treDecoder, src, c, dataLength).Ok?
    ensures Faithful(src, start, ParseSymbolSegment(dec, treDecoder, src, c, dataLength).value.next)
  {
    var fixed, lut, extended, _ := ParseReads(dec, treDecoder, src, c, dataLength);
    ReadsKeepFaithful(src, start, c, ParseSymbolSegment(dec, treDecoder, src, c, dataLength).value.next, fixed + lut + extended);
  }

  /** A subheader that does not open with "SY" is rejected where it starts, before anything is read. */
  lemma WrongMagicRejected(dec: Decoders, treDecoder: TreDecoder, src: ByteSource, c: Cursor, dataLength: int64)
    requires c.pos <= |src.data|
    requires !(c.pos + |SY_MAGIC| <= |src.data| && src.data[c.pos..c.pos + |SY_MAGIC|] == SY_MAGIC)
    ensures var s := ParseSymbolSegment(dec, treDecoder, src, c, dataLength);
      && s.Err? && s.error.at == c
      && s.error.reason == (if c.pos + |SY_MAGIC| <= |src.data| then WrongMagic else Truncated)
  {
  }

  /**
   * Once the fixed part is read, a positive NELUT for a symbol without a LUT is rejected
   * right after NELUT.
   */
  lemma LutNotPermittedRejected(dec: Decoders, treDecoder: TreDecoder, src: ByteSource, c: Cursor, dataLength: int64)
    requires c.pos <= |src.data|
    requires var f := ReadFixedFieldsStep(dec, src, c, dataLength);
      && f.Ok? && f.value.value.numberOfEntriesInLUT > 0
      && !HasLut(f.value.value.segment.symbolType, f.value.value.segment.symbolColour)
    ensures ParseSymbolSegment(dec, treDecoder, src, c, dataLength)
         == Err(Failure(LutNotPermitted, ReadFixedFieldsStep(dec, src, c, dataLength).value.next))
  {
    var f := ReadFixedFieldsStep(dec, src, c, dataLength).value;
    LutWithoutTableRejected(src, f.next, f.value.segment.symbolType, f.value.segment.symbolColour, f.value.numberOfEntriesInLUT as int);
    ParseStopsInLut(dec, treDecoder, src, c, dataLength, f);
  }

  /** The fixed part does not depend on the data length, which it only copies into the header. */
  lemma FixedIgnoresDataLength(dec: Decoders, src: ByteSource, c: Cursor, d1: int64, d2: int64)
    requires c.pos <= |src.data|
    ensures var s1, s2 := ReadFixedFieldsStep(dec, src, c, d1), ReadFixedFieldsStep(dec, src, c, d2);
      match s1
      case Err(f) => s2 == Err(f)
      case Ok(g) => s2 == Ok(Got(g.value.(segment := g.value.segment.(dataLength := d2)), g.next))
  {
  }

  /** Nor does the extended block, which leaves the data length as it is. */
  lemma ExtendedIgnoresDataLength(treDecoder: TreDecoder, src: ByteSource, c: Cursor, p: Parsed, d: int64)
    ensures var s1 := ReadExtendedSubheaderStep(treDecoder, src, c, p);
      var s2 := ReadExtendedSubheaderStep(treDecoder, src, c, p.(segment := p.segment.(dataLength := d)));
      match s1
      case Err(f) => s2 == Err(f)
      case Ok(g) => g.value.segment.dataLength == p.segment.dataLength
                    && s2 == Ok(Got(g.value.(segment := g.value.segment.(dataLength := d)), g.next))
  {
  }

  /**
   * The data length is passed through, not read: two parses of the same bytes that differ
   * only in it read the same and fail the same, and their headers differ only in it.
   */
  lemma DataLengthPassedThrough(dec: Decoders, treDecoder: TreDecoder, src: ByteSource, c: Cursor, d1: int64, d2: int64)
    requires c.pos <= |src.data|
    ensures var s1, s2 := ParseSymbolSegment(dec, treDecoder, src, c, d1), ParseSymbolSegment(dec, treDecoder, src, c, d2);
      match s1
      case Err(f) => s2 == Err(f)
      case Ok(g) =>
        && g.value.segment.dataLength == d1
        && s2 == Ok(Got(g.value.(segment := g.value.segment.(dataLength := d2)), g.next))
  {
    FixedIgnoresDataLength(dec, src, c, d1, d2);
    var f1 := ReadFixedFieldsStep(dec, src, c, d1);
    if f1.Ok? {
      var p := f1.value.value;
      var _, _ := FixedFieldsReads(dec, src, c, d1);
      var l := ReadLUTStep(src, f1.value.next, p.segment.symbolType, p.segment.symbolColour, p.numberOfEntriesInLUT as int);
      if l.Ok? {
        ExtendedIgnoresDataLength(treDecoder, src, l.value.next, p, d2);
      }
    }
  }
}
