/**
 * The NITF 2.0 symbol subheader (MIL-STD-2500A) and its parser.
 *
 * `ParseSymbolSegment` is the specification: the subheader read as a chain of reader
 * steps over a `Cursor`, in three phases (the fixed fields up to NELUT, the look-up
 * table, the extended-subheader block). `SymbolSegmentParser.Parse` is the parser itself,
 * which assigns its fields and the segment's fields step by step as it reads, and is
 * proved to perform exactly the specification's reads and to fail exactly where it does.
 */
module SymbolSegmentParsing {
  import opened NitfCommon
  import opened NitfReading
  import opened NitfTre

  // Field widths of the NITF 2.0 symbol subheader, in bytes.
  const SY_MAGIC: seq<byte> := [0x53, 0x59]   // "SY"
  const SID_LENGTH: nat := 10
  const SNAME_LENGTH: nat := 20
  const ENCRYP_LENGTH: nat := 1
  const SYTYPE_LENGTH: nat := 1
  const NLIPS_LENGTH: nat := 4
  const NPIXPL_LENGTH: nat := 4
  const NWDTH_LENGTH: nat := 4
  const SYNBPP_LENGTH: nat := 1
  const SDLVL_LENGTH: nat := 3
  const SALVL_LENGTH: nat := 3
  const SLOC_HALF_LENGTH: nat := 5
  const SCOLOR_LENGTH: nat := 1
  const SNUM_LENGTH: nat := 6
  const SROT_LENGTH: nat := 3
  const SYNELUT_LENGTH: nat := 3
  const SXSHDL_LENGTH: nat := 5
  const SXSOFL_LENGTH: nat := 3

  const NUM_BYTES_IN_GRAYSCALE_LUT_ENTRY: nat := 1
  const NUM_BYTES_IN_COLOUR_LUT_ENTRY: nat := 3

  /** The symbol type: the parser only distinguishes BITMAP from the other constants. */
  datatype SymbolType = Bitmap | OtherSymbolType(name: string)

  /** The symbol colour format: the two LUT formats, and the other constants by name. */
  datatype SymbolColour = UseColourLut | UseGrayscaleLut | OtherSymbolColour(name: string)

  /** The security block, copied as its parser returns it. */
  datatype SecurityMetadata = SecurityMetadata(fields: seq<seq<byte>>)

  /**
   * The collaborators the parser calls statically, whose behaviour is not part of this
   * model: the enum lookups of STYPE and SCOLOR (None where the lookup throws) and the
   * security-metadata parser, which reports the metadata and the bytes it consumed.
   */
  datatype Decoders = Decoders(
    symbolType: seq<byte> -> Option<SymbolType>,
    symbolColour: seq<byte> -> Option<SymbolColour>,
    security: seq<byte> -> Option<(SecurityMetadata, nat)>)

  /** A decoded symbol subheader: the values the parser hands to the segment's setters. */
  datatype SymbolHeader = SymbolHeader(
    dataLength: int64,
    fileType: FileType,
    identifier: seq<byte>,
    symbolName: seq<byte>,
    securityMetadata: SecurityMetadata,
    symbolType: SymbolType,
    numberOfLinesPerSymbol: int32,
    numberOfPixelsPerLine: int32,
    lineWidth: int32,
    numberOfBitsPerPixel: int32,
    symbolDisplayLevel: int32,
    attachmentLevel: int32,
    symbolLocationRow: int32,
    symbolLocationColumn: int32,
    symbolLocation2Row: int32,
    symbolLocation2Column: int32,
    symbolColour: SymbolColour,
    symbolNumber: seq<byte>,
    symbolRotation: int32,
    extendedHeaderDataOverflow: int32,
    tres: seq<Tre>)

  /** The decoded header together with the two counts the parser keeps in its own fields. */
  datatype Parsed = Parsed(segment: SymbolHeader, numberOfEntriesInLUT: int32, symbolExtendedSubheaderLength: int32)

  /** `readSTYPE`: the trimmed STYPE bytes looked up as a symbol type. */
  function ReadSymbolTypeStep(dec: Decoders, src: ByteSource, c: Cursor): (s: Step<SymbolType>)
    ensures s.Ok? <==> c.pos + SYTYPE_LENGTH <= |src.data| && dec.symbolType(src.format.trim(src.data[c.pos..c.pos + SYTYPE_LENGTH])).Some?
    ensures s.Ok? ==> Consumed(src, c, s.value.next, STYPE, SYTYPE_LENGTH)
                      && Some(s.value.value) == dec.symbolType(src.format.trim(src.data[c.pos..c.pos + SYTYPE_LENGTH]))
    ensures s.Err? ==> s.error == if c.pos + SYTYPE_LENGTH <= |src.data|
      then Failure(UnknownSymbolType, Cursor(c.pos + SYTYPE_LENGTH, c.trace + [Read(STYPE, src.data[c.pos..c.pos + SYTYPE_LENGTH])]))
      else Failure(Truncated, c)
  {
    var stype :- ReadTrimmedBytesStep(src, c, STYPE, SYTYPE_LENGTH);
    match dec.symbolType(stype.value)
    case Some(t) => Ok(Got(t, stype.next))
    case None => Err(Failure(UnknownSymbolType, stype.next))
  }

  /** `readSCOLOR`: the SCOLOR bytes, untrimmed, looked up as a colour format. */
  function ReadSymbolColourStep(dec: Decoders, src: ByteSource, c: Cursor): (s: Step<SymbolColour>)
    ensures s.Ok? <==> c.pos + SCOLOR_LENGTH <= |src.data| && dec.symbolColour(src.data[c.pos..c.pos + SCOLOR_LENGTH]).Some?
    ensures s.Ok? ==> Consumed(src, c, s.value.next, SCOLOR, SCOLOR_LENGTH)
                      && Some(s.value.value) == dec.symbolColour(src.data[c.pos..c.pos + SCOLOR_LENGTH])
    ensures s.Err? ==> s.error == if c.pos + SCOLOR_LENGTH <= |src.data|
      then Failure(UnknownSymbolColour, Cursor(c.pos + SCOLOR_LENGTH, c.trace + [Read(SCOLOR, src.data[c.pos..c.pos + SCOLOR_LENGTH])]))
      else Failure(Truncated, c)
  {
    var scolor :- ReadBytesStep(src, c, SCOLOR, SCOLOR_LENGTH);
    match dec.symbolColour(scolor.value)
    case Some(col) => Ok(Got(col, scolor.next))
    case None => Err(Failure(UnknownSymbolColour, scolor.next))
  }

  /** SY, SID, SNAME, the security block and ENCRYP. */
  datatype Identification = Identification(identifier: seq<byte>, symbolName: seq<byte>, securityMetadata: SecurityMetadata)

  /** STYPE, NLIPS, NPIXPL, NWDTH and NBPP. */
  datatype Geometry = Geometry(symbolType: SymbolType, numberOfLinesPerSymbol: int32, numberOfPixelsPerLine: int32,
                               lineWidth: int32, numberOfBitsPerPixel: int32)

  /** SDLVL, SALVL, SLOC and SLOC2. */
  datatype Placement = Placement(symbolDisplayLevel: int32, attachmentLevel: int32,
                                 symbolLocationRow: int32, symbolLocationColumn: int32,
                                 symbolLocation2Row: int32, symbolLocation2Column: int32)

  /** SCOLOR, SNUM, SROT and NELUT. */
  datatype Appearance = Appearance(symbolColour: SymbolColour, symbolNumber: seq<byte>, symbolRotation: int32,
                                   numberOfEntriesInLUT: int32)

  /** The magic check, then SID, SNAME, the security block and ENCRYP (whose value is not kept). */
  function ReadIdentificationStep(dec: Decoders, src: ByteSource, c: Cursor): (s: Step<Identification>)
    requires c.pos <= |src.data|
    ensures s.Ok? ==>
      var sid, sname := c.pos + |SY_MAGIC|, c.pos + |SY_MAGIC| + SID_LENGTH;
      var security := sname + SNAME_LENGTH;
      && security <= |src.data|
      && src.data[c.pos..sid] == SY_MAGIC
      && s.value.value.identifier == src.format.trim(src.data[sid..sname])
      && s.value.value.symbolName == src.format.trim(src.data[sname..security])
      && dec.security(src.data[security..]).Some?
      && dec.security(src.data[security..]).value.0 == s.value.value.securityMetadata
      && s.value.next.pos == security + dec.security(src.data[security..]).value.1 + ENCRYP_LENGTH
    ensures !(c.pos + |SY_MAGIC| <= |src.data| && src.data[c.pos..c.pos + |SY_MAGIC|] == SY_MAGIC) ==> s.Err? && s.error.at == c
  {
    var sy :- VerifyHeaderMagicStep(src, c, SY, SY_MAGIC);
    var sid :- ReadTrimmedBytesStep(src, sy.next, SID, SID_LENGTH);
    var sname :- ReadTrimmedBytesStep(src, sid.next, SNAME, SNAME_LENGTH);
    var security :- ReadDelegatedStep(src, sname.next, Security, dec.security, BadSecurityMetadata);
    var encryp :- ReadBytesStep(src, security.next, ENCRYP, ENCRYP_LENGTH);
    Ok(Got(Identification(sid.value, sname.value, security.value), encryp.next))
  }

  /** STYPE, then the four numbers NLIPS, NPIXPL, NWDTH and NBPP, fourteen bytes in all. */
  function ReadGeometryStep(dec: Decoders, src: ByteSource, c: Cursor): (s: Step<Geometry>)
    ensures s.Ok? ==>
      var g, p := s.value.value, c.pos;
      && s.value.next.pos == p + SYTYPE_LENGTH + NLIPS_LENGTH + NPIXPL_LENGTH + NWDTH_LENGTH + SYNBPP_LENGTH <= |src.data|
      && Some(g.symbolType) == dec.symbolType(src.format.trim(src.data[p..p + 1]))
      && Some(g.numberOfBitsPerPixel) == src.format.asInteger(src.data[p + 13..p + 14])
  {
    var stype :- ReadSymbolTypeStep(dec, src, c);
    var nlips :- ReadBytesAsIntegerStep(src, stype.next, NLIPS, NLIPS_LENGTH);
    var npixpl :- ReadBytesAsIntegerStep(src, nlips.next, NPIXPL, NPIXPL_LENGTH);
    var nwdth :- ReadBytesAsIntegerStep(src, npixpl.next, NWDTH, NWDTH_LENGTH);
    var nbpp :- ReadBytesAsIntegerStep(src, nwdth.next, NBPP, SYNBPP_LENGTH);
    Ok(Got(Geometry(stype.value, nlips.value, npixpl.value, nwdth.value, nbpp.value), nbpp.next))
  }

  /** SDLVL, SALVL, then each location as its row followed by its column. */
  function ReadPlacementStep(src: ByteSource, c: Cursor): (s: Step<Placement>)
    ensures s.Ok? ==>
      var x, p := s.value.value, c.pos;
      && s.value.next.pos == p + SDLVL_LENGTH + SALVL_LENGTH + 4 * SLOC_HALF_LENGTH <= |src.data|
      && Some(x.symbolLocationRow) == src.format.asInteger(src.data[p + 6..p + 11])
      && Some(x.symbolLocationColumn) == src.format.asInteger(src.data[p + 11..p + 16])
  {
    var sdlvl :- ReadBytesAsIntegerStep(src, c, SDLVL, SDLVL_LENGTH);
    var salvl :- ReadBytesAsIntegerStep(src, sdlvl.next, SALVL, SALVL_LENGTH);
    var slocRow :- ReadBytesAsIntegerStep(src, salvl.next, SLOCRow, SLOC_HALF_LENGTH);
    var slocColumn :- ReadBytesAsIntegerStep(src, slocRow.next, SLOCColumn, SLOC_HALF_LENGTH);
    var sloc2Row :- ReadBytesAsIntegerStep(src, slocColumn.next, SLOC2Row, SLOC_HALF_LENGTH);
    var sloc2Column :- ReadBytesAsIntegerStep(src, sloc2Row.next, SLOC2Column, SLOC_HALF_LENGTH);
    Ok(Got(Placement(sdlvl.value, salvl.value, slocRow.value, slocColumn.value, sloc2Row.value, sloc2Column.value),
           sloc2Column.next))
  }

  /** SCOLOR and SNUM as they are, then the numbers SROT and NELUT, thirteen bytes in all. */
  function ReadAppearanceStep(dec: Decoders, src: ByteSource, c: Cursor): (s: Step<Appearance>)
    ensures s.Ok? ==>
      var x, p := s.value.value, c.pos;
      && s.value.next.pos == p + SCOLOR_LENGTH + SNUM_LENGTH + SROT_LENGTH + SYNELUT_LENGTH <= |src.data|
      && Some(x.symbolColour) == dec.symbolColour(src.data[p..p + 1])
      && x.symbolNumber == src.data[p + 1..p + 7]
      && Some(x.numberOfEntriesInLUT) == src.format.asInteger(src.data[p + 10..p + 13])
  {
    var scolor :- ReadSymbolColourStep(dec, src, c);
    var snum :- ReadBytesStep(src, scolor.next, SNUM, SNUM_LENGTH);
    var srot :- ReadBytesAsIntegerStep(src, snum.next, SROT, SROT_LENGTH);
    var nelut :- ReadBytesAsIntegerStep(src, srot.next, NELUT, SYNELUT_LENGTH);
    Ok(Got(Appearance(scolor.value, snum.value, srot.value, nelut.value), nelut.next))
  }

  /**
   * The first phase of `parse`: the magic, then every field up to and including NELUT.
   * The segment starts with the given data length and the reader's file type, with no
   * overflow value and no TREs. The extended-subheader length of 0 is a placeholder:
   * `parse` never resets the parser's SXSHDL, so a reused parser still holds the previous
   * segment's until `ReadExtendedSubheaderStep` reads it and always overwrites it.
   */
  function ReadFixedFieldsStep(dec: Decoders, src: ByteSource, c: Cursor, dataLength: int64): (s: Step<Parsed>)
    requires c.pos <= |src.data|
    ensures s.Ok? ==>
      var h := s.value.value.segment;
      && h.dataLength == dataLength && h.fileType == src.fileType
      && h.extendedHeaderDataOverflow == 0 && h.tres == []
      && s.value.value.symbolExtendedSubheaderLength == 0
  {
    var id :- ReadIdentificationStep(dec, src, c);
    var geo :- ReadGeometryStep(dec, src, id.next);
    var place :- ReadPlacementStep(src, geo.next);
    var look :- ReadAppearanceStep(dec, src, place.next);
    Ok(Got(Parsed(Assemble(dataLength, src.fileType, id.value, geo.value, place.value, look.value), look.value.numberOfEntriesInLUT, 0),
           look.next))
  }

  /** The header the fixed fields describe, before any extended-subheader data. */
  function Assemble(dataLength: int64, fileType: FileType, id: Identification, geo: Geometry, place: Placement, look: Appearance): SymbolHeader
  {
    SymbolHeader(
      dataLength, fileType, id.identifier, id.symbolName, id.securityMetadata,
      geo.symbolType, geo.numberOfLinesPerSymbol, geo.numberOfPixelsPerLine, geo.lineWidth, geo.numberOfBitsPerPixel,
      place.symbolDisplayLevel, place.attachmentLevel,
      place.symbolLocationRow, place.symbolLocationColumn, place.symbolLocation2Row, place.symbolLocation2Column,
      look.symbolColour, look.symbolNumber, look.symbolRotation, 0, [])
  }

  /** `readLUTEntry`: one entry's bytes are skipped only for a bitmap with a colour or grayscale LUT. */
  function ReadLUTEntryStep(src: ByteSource, c: Cursor, t: SymbolType, col: SymbolColour): (s: Step<()>)
    ensures var width := if col == UseColourLut then NUM_BYTES_IN_COLOUR_LUT_ENTRY else NUM_BYTES_IN_GRAYSCALE_LUT_ENTRY;
      && (s.Ok? <==> t == Bitmap && (col == UseColourLut || col == UseGrayscaleLut) && c.pos + width <= |src.data|)
      && (s.Ok? ==> Consumed(src, c, s.value.next, LUTEntry, width))
    ensures !(t == Bitmap && (col == UseColourLut || col == UseGrayscaleLut)) ==> s == Err(Failure(LutNotPermitted, c))
  {
    if t == Bitmap then
      if col == UseColourLut then
        SkipStep(src, c, LUTEntry, NUM_BYTES_IN_COLOUR_LUT_ENTRY)
      else if col == UseGrayscaleLut then
        SkipStep(src, c, LUTEntry, NUM_BYTES_IN_GRAYSCALE_LUT_ENTRY)
      else
        Err(Failure(LutNotPermitted, c))
    else
      Err(Failure(LutNotPermitted, c))
  }

  /** The loop over the LUT: `readLUTEntry` once for each of the `remaining` entries. */
  function ReadLUTStep(src: ByteSource, c: Cursor, t: SymbolType, col: SymbolColour, remaining: int): (s: Step<()>)
    ensures remaining <= 0 ==> s == Ok(Got((), c))
    ensures s.Ok? && remaining > 0 ==> t == Bitmap && (col == UseColourLut || col == UseGrayscaleLut)
    ensures s.Ok? ==> c.pos <= s.value.next.pos && (remaining > 0 ==> s.value.next.pos <= |src.data|)
    decreases remaining
  {
    if remaining <= 0 then
      Ok(Got((), c))
    else
      var entry :- ReadLUTEntryStep(src, c, t, col);
      ReadLUTStep(src, entry.next, t, col, remaining - 1)
  }

  /**
   * `readSXSHDL` and, when the length it reads is positive, `readSXSOFL` and `readSXSHD`:
   * the overflow field is stored and the rest of the block goes to TRE parsing.
   */
  function ReadExtendedSubheaderStep(treDecoder: TreDecoder, src: ByteSource, c: Cursor, p: Parsed): (s: Step<Parsed>)
    ensures s.Ok? ==> s.value.value.numberOfEntriesInLUT == p.numberOfEntriesInLUT
    ensures s.Ok? ==> c.pos + SXSHDL_LENGTH <= |src.data|
                      && Some(s.value.value.symbolExtendedSubheaderLength) == src.format.asInteger(src.data[c.pos..c.pos + SXSHDL_LENGTH])
    ensures s.Ok? && s.value.value.symbolExtendedSubheaderLength <= 0 ==> s.value.value.segment == p.segment && s.value.next.pos == c.pos + SXSHDL_LENGTH
    ensures s.Ok? ==> s.value.value.segment == p.segment.(extendedHeaderDataOverflow := s.value.value.segment.extendedHeaderDataOverflow,
                                                          tres := s.value.value.segment.tres)
  {
    var sxshdl :- ReadBytesAsIntegerStep(src, c, SXSHDL, SXSHDL_LENGTH);
    var length := sxshdl.value;
    if length > 0 then
      var sxsofl :- ReadBytesAsIntegerStep(src, sxshdl.next, SXSOFL, SXSOFL_LENGTH);
      var tres :- ParseTresStep(treDecoder, src, sxsofl.next, length as int - SXSOFL_LENGTH,
                                SymbolExtendedSubheaderData, SXSHD);
      var header := p.segment.(extendedHeaderDataOverflow := sxsofl.value, tres := p.segment.tres + tres.value.tres);
      Ok(Got(p.(segment := header, symbolExtendedSubheaderLength := length), tres.next))
    else
      Ok(Got(p.(symbolExtendedSubheaderLength := length), sxshdl.next))
  }

  /** The whole of `parse`, as a specification over a cursor. */
  function ParseSymbolSegment(dec: Decoders, treDecoder: TreDecoder, src: ByteSource, c: Cursor, dataLength: int64): (s: Step<Parsed>)
    requires c.pos <= |src.data|
    ensures s.Ok? ==>
      var h := s.value.value.segment;
      && h.dataLength == dataLength && h.fileType == src.fileType
      && (s.value.value.numberOfEntriesInLUT > 0 ==> h.symbolType == Bitmap && (h.symbolColour == UseColourLut || h.symbolColour == UseGrayscaleLut))
      && (s.value.value.symbolExtendedSubheaderLength <= 0 ==> h.extendedHeaderDataOverflow == 0 && h.tres == [])
    ensures !(c.pos + |SY_MAGIC| <= |src.data| && src.data[c.pos..c.pos + |SY_MAGIC|] == SY_MAGIC) ==> s.Err? && s.error.at == c
  {
    var fixed :- ReadFixedFieldsStep(dec, src, c, dataLength);
    var p := fixed.value;
    var lut :- ReadLUTStep(src, fixed.next, p.segment.symbolType, p.segment.symbolColour, p.numberOfEntriesInLUT as int);
    ReadExtendedSubheaderStep(treDecoder, src, lut.next, p)
  }

  /**
   * The fields of a segment as one value. Fields the source holds as objects are
   * Options, None standing for a field never set; integer fields start at 0.
   */
  datatype SegmentState = SegmentState(
    dataLength: int64,
    fileType: Option<FileType>,
    identifier: Option<seq<byte>>,
    symbolName: Option<seq<byte>>,
    securityMetadata: Option<SecurityMetadata>,
    symbolType: Option<SymbolType>,
    numberOfLinesPerSymbol: int32,
    numberOfPixelsPerLine: int32,
    lineWidth: int32,
    numberOfBitsPerPixel: int32,
    symbolDisplayLevel: int32,
    attachmentLevel: int32,
    symbolLocationRow: int32,
    symbolLocationColumn: int32,
    symbolLocation2Row: int32,
    symbolLocation2Column: int32,
    symbolColour: Option<SymbolColour>,
    symbolNumber: Option<seq<byte>>,
    symbolRotation: int32,
    extendedHeaderDataOverflow: int32,
    tres: seq<Tre>)

  /** A newly constructed segment. */
  const BlankState := SegmentState(0, None, None, None, None, None, 0, 0, 0, 0, 0, 0, 0, 0, 0, 0, None, None, 0, 0, [])

  /** The segment whose every setter has been called with the values of `h`. */
  function Filled(h: SymbolHeader): SegmentState
  {
    SegmentState(
      h.dataLength, Some(h.fileType), Some(h.identifier), Some(h.symbolName), Some(h.securityMetadata),
      Some(h.symbolType), h.numberOfLinesPerSymbol, h.numberOfPixelsPerLine, h.lineWidth, h.numberOfBitsPerPixel,
      h.symbolDisplayLevel, h.attachmentLevel,
      h.symbolLocationRow, h.symbolLocationColumn, h.symbolLocation2Row, h.symbolLocation2Column,
      Some(h.symbolColour), Some(h.symbolNumber), h.symbolRotation, h.extendedHeaderDataOverflow, h.tres)
  }

  /** `st` after the setters for SID, SNAME and the security block. */
  function WithIdentification(st: SegmentState, x: Identification): SegmentState
  {
    st.(identifier := Some(x.identifier), symbolName := Some(x.symbolName), securityMetadata := Some(x.securityMetadata))
  }

  /** `st` after the setters for STYPE, NLIPS, NPIXPL, NWDTH and NBPP. */
  function WithGeometry(st: SegmentState, x: Geometry): SegmentState
  {
    st.(symbolType := Some(x.symbolType), numberOfLinesPerSymbol := x.numberOfLinesPerSymbol,
        numberOfPixelsPerLine := x.numberOfPixelsPerLine, lineWidth := x.lineWidth,
        numberOfBitsPerPixel := x.numberOfBitsPerPixel)
  }

  /** `st` after the setters for SDLVL, SALVL, SLOC and SLOC2. */
  function WithPlacement(st: SegmentState, x: Placement): SegmentState
  {
    st.(symbolDisplayLevel := x.symbolDisplayLevel, attachmentLevel := x.attachmentLevel,
        symbolLocationRow := x.symbolLocationRow, symbolLocationColumn := x.symbolLocationColumn,
        symbolLocation2Row := x.symbolLocation2Row, symbolLocation2Column := x.symbolLocation2Column)
  }

  /** `st` after the setters for SCOLOR, SNUM and SROT. */
  function WithAppearance(st: SegmentState, x: Appearance): SegmentState
  {
    st.(symbolColour := Some(x.symbolColour), symbolNumber := Some(x.symbolNumber), symbolRotation := x.symbolRotation)
  }

  /** The segment the parser fills in through its setters. */
  class SymbolSegment {
    var dataLength: int64
    var fileType: Option<FileType>
    var identifier: Option<seq<byte>>
    var symbolName: Option<seq<byte>>
    var securityMetadata: Option<SecurityMetadata>
    var symbolType: Option<SymbolType>
    var numberOfLinesPerSymbol: int32
    var numberOfPixelsPerLine: int32
    var lineWidth: int32
    var numberOfBitsPerPixel: int32
    var symbolDisplayLevel: int32
    var attachmentLevel: int32
    var symbolLocationRow: int32
    var symbolLocationColumn: int32
    var symbolLocation2Row: int32
    var symbolLocation2Column: int32
    var symbolColour: Option<SymbolColour>
    var symbolNumber: Option<seq<byte>>
    var symbolRotation: int32
    var extendedHeaderDataOverflow: int32
    var tres: seq<Tre>

    ghost function State(): SegmentState
      reads this
    {
      SegmentState(
        dataLength, fileType, identifier, symbolName, securityMetadata, symbolType,
        numberOfLinesPerSymbol, numberOfPixelsPerLine, lineWidth, numberOfBitsPerPixel,
        symbolDisplayLevel, attachmentLevel,
        symbolLocationRow, symbolLocationColumn, symbolLocation2Row, symbolLocation2Column,
        symbolColour, symbolNumber, symbolRotation, extendedHeaderDataOverflow, tres)
    }

    /** The segment's fields hold exactly the values of `h`. */
    ghost predicate Holds(h: SymbolHeader)
      reads this
    {
      State() == Filled(h)
    }

    constructor ()
      ensures State() == BlankState
    {
      dataLength, fileType, identifier, symbolName := 0, None, None, None;
      securityMetadata, symbolType := None, None;
      numberOfLinesPerSymbol, numberOfPixelsPerLine, lineWidth, numberOfBitsPerPixel := 0, 0, 0, 0;
      symbolDisplayLevel, attachmentLevel := 0, 0;
      symbolLocationRow, symbolLocationColumn, symbolLocation2Row, symbolLocation2Column := 0, 0, 0, 0;
      symbolColour, symbolNumber, symbolRotation := None, None, 0;
      extendedHeaderDataOverflow, tres := 0, [];
    }
  }

  /** The parser: its state is assigned step by step by the `Read...` methods. */
  class SymbolSegmentParser {
    const decoders: Decoders
    var numberOfEntriesInLUT: int32
    var symbolExtendedSubheaderLength: int32
    var segment: SymbolSegment?
    var reader: NitfReader?
    var parsingStrategy: ParseStrategy?

    constructor (decoders: Decoders)
      ensures this.decoders == decoders
      ensures numberOfEntriesInLUT == 0 && symbolExtendedSubheaderLength == 0
      ensures segment == null && reader == null && parsingStrategy == null
    {
      this.decoders := decoders;
      numberOfEntriesInLUT, symbolExtendedSubheaderLength := 0, 0;
      segment, reader, parsingStrategy := null, null, null;
    }

    /** What every `Read...` step needs: a reader, a segment and a strategy to work with. */
    ghost predicate Ready()
      reads this, reader
    {
      reader != null && segment != null && parsingStrategy != null && reader.Valid()
    }

    /**
     * `parse`: decodes a symbol subheader from `nitfReader`. On success the returned
     * segment is fresh and holds the specification's header; on failure the exception is
     * the specification's. Either way the reader has performed exactly the specification's
     * reads.
     */
    method Parse(nitfReader: NitfReader, parseStrategy: ParseStrategy, dataLength: int64)
      returns (r: Result<SymbolSegment, FormatReason>)
      requires nitfReader.Valid()
      modifies this, nitfReader
      ensures nitfReader.Valid() && reader == nitfReader && parsingStrategy == parseStrategy
      ensures var s := ParseSymbolSegment(decoders, parseStrategy.treDecoder, nitfReader.source, old(nitfReader.At()), dataLength);
        match s
        case Ok(g) =>
          && r.Ok? && fresh(r.value) && segment == r.value && r.value.Holds(g.value.segment)
          && numberOfEntriesInLUT == g.value.numberOfEntriesInLUT
          && symbolExtendedSubheaderLength == g.value.symbolExtendedSubheaderLength
          && nitfReader.At() == g.next
        case Err(f) => r == Err(f.reason) && nitfReader.At() == f.at
    {
      reader := nitfReader;
      segment := new SymbolSegment();
      segment.dataLength := dataLength;
      parsingStrategy := parseStrategy;
      segment.fileType := Some(nitfReader.GetFileType());

      :- ReadSubheader();
      return Ok(segment);
    }

    /**
     * The three phases of `parse` after the segment is created: the fixed fields, the LUT
     * entries and the extended-subheader block.
     */
    method ReadSubheader() returns (o: Outcome<FormatReason>)
      requires Ready() && segment.fileType == Some(reader.source.fileType)
      requires segment.extendedHeaderDataOverflow == 0 && segment.tres == []
      modifies reader, segment, this`numberOfEntriesInLUT, this`symbolExtendedSubheaderLength
      ensures Ready()
      ensures var s := ParseSymbolSegment(decoders, parsingStrategy.treDecoder, reader.source, old(reader.At()), old(segment.dataLength));
        && reader.Did(o, s)
        && (s.Ok? ==> && segment.Holds(s.value.value.segment)
                      && numberOfEntriesInLUT == s.value.value.numberOfEntriesInLUT
                      && symbolExtendedSubheaderLength == s.value.value.symbolExtendedSubheaderLength)
    {
      ghost var fixed := ReadFixedFieldsStep(decoders, reader.source, reader.At(), segment.dataLength);
      o := ReadFixedFields();
      if o.Fail? { return; }
      o := ReadLUT();
      if o.Fail? { return; }
      o := ReadExtendedSubheader(fixed.value.value);
    }

    /**
     * Every field from SY to NELUT, in order: the first phase of `parse`, on a segment
     * that holds the reader's file type and no extended-subheader data yet.
     */
    method ReadFixedFields() returns (o: Outcome<FormatReason>)
      requires Ready() && segment.fileType == Some(reader.source.fileType)
      requires segment.extendedHeaderDataOverflow == 0 && segment.tres == []
      modifies reader, segment, this`numberOfEntriesInLUT
      ensures Ready()
      ensures var s := ReadFixedFieldsStep(decoders, reader.source, old(reader.At()), old(segment.dataLength));
        && reader.Did(o, s)
        && (s.Ok? ==> segment.Holds(s.value.value.segment) && numberOfEntriesInLUT == s.value.value.numberOfEntriesInLUT)
    {
      o := ReadIdentification();
      if o.Fail? { return; }
      o := ReadGeometry();
      if o.Fail? { return; }
      o := ReadPlacement();
      if o.Fail? { return; }
      o := ReadAppearance();
    }

    /** SY, SID, SNAME, the security block and ENCRYP, in that order. */
    method ReadIdentification() returns (o: Outcome<FormatReason>)
      requires Ready()
      modifies reader, segment`identifier, segment`symbolName, segment`securityMetadata
      ensures Ready()
      ensures var s := ReadIdentificationStep(decoders, reader.source, old(reader.At()));
        && reader.Did(o, s)
        && (s.Ok? ==> segment.State() == WithIdentification(old(segment.State()), s.value.value))
    {
      o := ReadSY();
      if o.Fail? { return; }
      o := ReadSID();
      if o.Fail? { return; }
      o := ReadSNAME();
      if o.Fail? { return; }
      o := ReadSecurityMetadata();
      if o.Fail? { return; }
      o := ReadENCRYP();
    }

    /** STYPE, NLIPS, NPIXPL, NWDTH and NBPP, in that order. */
    method ReadGeometry() returns (o: Outcome<FormatReason>)
      requires Ready()
      modifies reader, segment`symbolType, segment`numberOfLinesPerSymbol, segment`numberOfPixelsPerLine
      modifies segment`lineWidth, segment`numberOfBitsPerPixel
      ensures Ready()
      ensures var s := ReadGeometryStep(decoders, reader.source, old(reader.At()));
        && reader.Did(o, s)
        && (s.Ok? ==> segment.State() == WithGeometry(old(segment.State()), s.value.value))
    {
      o := ReadSTYPE();
      if o.Fail? { return; }
      o := ReadNLIPS();
      if o.Fail? { return; }
      o := ReadNPIXPL();
      if o.Fail? { return; }
      o := ReadNWDTH();
      if o.Fail? { return; }
      o := ReadNBPP();
    }

    /** SDLVL, SALVL, SLOC and SLOC2, in that order. */
    method ReadPlacement() returns (o: Outcome<FormatReason>)
      requires Ready()
      modifies reader, segment`symbolDisplayLevel, segment`attachmentLevel
      modifies segment`symbolLocationRow, segment`symbolLocationColumn, segment`symbolLocation2Row, segment`symbolLocation2Column
      ensures Ready()
      ensures var s := ReadPlacementStep(reader.source, old(reader.At()));
        && reader.Did(o, s)
        && (s.Ok? ==> segment.State() == WithPlacement(old(segment.State()), s.value.value))
    {
      o := ReadSDLVL();
      if o.Fail? { return; }
      o := ReadSALVL();
      if o.Fail? { return; }
      o := ReadSLOC();
      if o.Fail? { return; }
      o := ReadSLOC2();
    }

    /** SCOLOR, SNUM, SROT and NELUT, in that order. */
    method ReadAppearance() returns (o: Outcome<FormatReason>)
      requires Ready()
      modifies reader, segment`symbolColour, segment`symbolNumber, segment`symbolRotation, this`numberOfEntriesInLUT
      ensures Ready()
      ensures var s := ReadAppearanceStep(decoders, reader.source, old(reader.At()));
        && reader.Did(o, s)
        && (s.Ok? ==> segment.State() == WithAppearance(old(segment.State()), s.value.value) && numberOfEntriesInLUT == s.value.value.numberOfEntriesInLUT)
    {
      o := ReadSCOLOR();
      if o.Fail? { return; }
      o := ReadSNUM();
      if o.Fail? { return; }
      o := ReadSROT();
      if o.Fail? { return; }
      o := ReadNELUT();
    }

    /** The LUT loop of `parse`: `readLUTEntry` once for each of the NELUT entries. */
    method ReadLUT() returns (o: Outcome<FormatReason>)
      requires Ready() && segment.symbolType.Some? && segment.symbolColour.Some?
      modifies reader
      ensures Ready()
      ensures reader.Did(o, ReadLUTStep(reader.source, old(reader.At()), segment.symbolType.value, segment.symbolColour.value,
                                        numberOfEntriesInLUT as int))
    {
      ghost var c := reader.At();
      var i: int := 0;
      while i < numberOfEntriesInLUT as int
        invariant 0 <= i && (0 <= numberOfEntriesInLUT as int ==> i <= numberOfEntriesInLUT as int)
        invariant Ready()
        invariant ReadLUTStep(reader.source, c, segment.symbolType.value, segment.symbolColour.value, numberOfEntriesInLUT as int)
               == ReadLUTStep(reader.source, reader.At(), segment.symbolType.value, segment.symbolColour.value,
                              numberOfEntriesInLUT as int - i)
        modifies reader
      {
        o := ReadLUTEntry();
        if o.Fail? { return; }
        i := i + 1;
      }
      return Pass;
    }

    /**
     * SXSHDL and, when it is positive, SXSOFL and SXSHD: the tail of `parse`, taking the
     * header read so far, `p`, to the finished one.
     */
    method ReadExtendedSubheader(ghost p: Parsed) returns (o: Outcome<FormatReason>)
      requires Ready() && segment.Holds(p.segment)
      modifies reader, this`symbolExtendedSubheaderLength, segment`extendedHeaderDataOverflow, segment`tres
      ensures Ready()
      ensures var s := ReadExtendedSubheaderStep(parsingStrategy.treDecoder, reader.source, old(reader.At()), p);
        && reader.Did(o, s)
        && (s.Ok? ==> segment.Holds(s.value.value.segment)
                      && symbolExtendedSubheaderLength == s.value.value.symbolExtendedSubheaderLength)
    {
      o := ReadSXSHDL();
      if o.Fail? { return; }
      if symbolExtendedSubheaderLength > 0 {
        o := ReadSXSOFL();
        if o.Fail? { return; }
        o := ReadSXSHD();
      }
    }

    method ReadSY() returns (o: Outcome<FormatReason>)
      requires Ready()
      modifies reader
      ensures Ready() && reader.Did(o, VerifyHeaderMagicStep(reader.source, old(reader.At()), SY, SY_MAGIC))
    {
      o := reader.VerifyHeaderMagic(SY_MAGIC, SY);
    }

    method ReadSID() returns (o: Outcome<FormatReason>)
      requires Ready()
      modifies reader, segment`identifier
      ensures Ready()
      ensures var s := ReadTrimmedBytesStep(reader.source, old(reader.At()), SID, SID_LENGTH);
        reader.Did(o, s)
        && segment.State() == if s.Ok? then old(segment.State()).(identifier := Some(s.value.value)) else old(segment.State())
    {
      var r := reader.ReadTrimmedBytes(SID_LENGTH, SID);
      if r.Err? { return Fail(r.error); }
      segment.identifier := Some(r.value);
      return Pass;
    }

    method ReadSNAME() returns (o: Outcome<FormatReason>)
      requires Ready()
      modifies reader, segment`symbolName
      ensures Ready()
      ensures var s := ReadTrimmedBytesStep(reader.source, old(reader.At()), SNAME, SNAME_LENGTH);
        reader.Did(o, s)
        && segment.State() == if s.Ok? then old(segment.State()).(symbolName := Some(s.value.value)) else old(segment.State())
    {
      var r := reader.ReadTrimmedBytes(SNAME_LENGTH, SNAME);
      if r.Err? { return Fail(r.error); }
      segment.symbolName := Some(r.value);
      return Pass;
    }

    /** The security block, read by the security-metadata parser and stored in the segment. */
    method ReadSecurityMetadata() returns (o: Outcome<FormatReason>)
      requires Ready()
      modifies reader, segment`securityMetadata
      ensures Ready()
      ensures var s := ReadDelegatedStep(reader.source, old(reader.At()), Security, decoders.security, BadSecurityMetadata);
        reader.Did(o, s)
        && segment.State() == if s.Ok? then old(segment.State()).(securityMetadata := Some(s.value.value)) else old(segment.State())
    {
      var r := reader.ReadDelegated(decoders.security, BadSecurityMetadata, Security);
      if r.Err? { return Fail(r.error); }
      segment.securityMetadata := Some(r.value);
      return Pass;
    }

    /** ENCRYP is read and its value not kept. */
    method ReadENCRYP() returns (o: Outcome<FormatReason>)
      requires Ready()
      modifies reader
      ensures Ready() && reader.Did(o, ReadBytesStep(reader.source, old(reader.At()), ENCRYP, ENCRYP_LENGTH))
    {
      var r := reader.ReadBytes(ENCRYP_LENGTH, ENCRYP);
      if r.Err? { return Fail(r.error); }
      return Pass;
    }

    method ReadSTYPE() returns (o: Outcome<FormatReason>)
      requires Ready()
      modifies reader, segment`symbolType
      ensures Ready()
      ensures var s := ReadSymbolTypeStep(decoders, reader.source, old(reader.At()));
        reader.Did(o, s)
        && segment.State() == if s.Ok? then old(segment.State()).(symbolType := Some(s.value.value)) else old(segment.State())
    {
      var r := reader.ReadTrimmedBytes(SYTYPE_LENGTH, STYPE);
      if r.Err? { return Fail(r.error); }
      match decoders.symbolType(r.value)
      case None =>
        return Fail(UnknownSymbolType);
      case Some(t) =>
        segment.symbolType := Some(t);
        return Pass;
    }

    method ReadNLIPS() returns (o: Outcome<FormatReason>)
      requires Ready()
      modifies reader, segment`numberOfLinesPerSymbol
      ensures Ready()
      ensures var s := ReadBytesAsIntegerStep(reader.source, old(reader.At()), NLIPS, NLIPS_LENGTH);
        reader.Did(o, s)
        && segment.State() == if s.Ok? then old(segment.State()).(numberOfLinesPerSymbol := s.value.value) else old(segment.State())
    {
      var r := reader.ReadBytesAsInteger(NLIPS_LENGTH, NLIPS);
      if r.Err? { return Fail(r.error); }
      segment.numberOfLinesPerSymbol := r.value;
      return Pass;
    }

    method ReadNPIXPL() returns (o: Outcome<FormatReason>)
      requires Ready()
      modifies reader, segment`numberOfPixelsPerLine
      ensures Ready()
      ensures var s := ReadBytesAsIntegerStep(reader.source, old(reader.At()), NPIXPL, NPIXPL_LENGTH);
        reader.Did(o, s)
        && segment.State() == if s.Ok? then old(segment.State()).(numberOfPixelsPerLine := s.value.value) else old(segment.State())
    {
      var r := reader.ReadBytesAsInteger(NPIXPL_LENGTH, NPIXPL);
      if r.Err? { return Fail(r.error); }
      segment.numberOfPixelsPerLine := r.value;
      return Pass;
    }

    method ReadNWDTH() returns (o: Outcome<FormatReason>)
      requires Ready()
      modifies reader, segment`lineWidth
      ensures Ready()
      ensures var s := ReadBytesAsIntegerStep(reader.source, old(reader.At()), NWDTH, NWDTH_LENGTH);
        reader.Did(o, s)
        && segment.State() == if s.Ok? then old(segment.State()).(lineWidth := s.value.value) else old(segment.State())
    {
      var r := reader.ReadBytesAsInteger(NWDTH_LENGTH, NWDTH);
      if r.Err? { return Fail(r.error); }
      segment.lineWidth := r.value;
      return Pass;
    }

    method ReadNBPP() returns (o: Outcome<FormatReason>)
      requires Ready()
      modifies reader, segment`numberOfBitsPerPixel
      ensures Ready()
      ensures var s := ReadBytesAsIntegerStep(reader.source, old(reader.At()), NBPP, SYNBPP_LENGTH);
        reader.Did(o, s)
        && segment.State() == if s.Ok? then old(segment.State()).(numberOfBitsPerPixel := s.value.value) else old(segment.State())
    {
      var r := reader.ReadBytesAsInteger(SYNBPP_LENGTH, NBPP);
      if r.Err? { return Fail(r.error); }
      segment.numberOfBitsPerPixel := r.value;
      return Pass;
    }

    method ReadSDLVL() returns (o: Outcome<FormatReason>)
      requires Ready()
      modifies reader, segment`symbolDisplayLevel
      ensures Ready()
      ensures var s := ReadBytesAsIntegerStep(reader.source, old(reader.At()), SDLVL, SDLVL_LENGTH);
        reader.Did(o, s)
        && segment.State() == if s.Ok? then old(segment.State()).(symbolDisplayLevel := s.value.value) else old(segment.State())
    {
      var r := reader.ReadBytesAsInteger(SDLVL_LENGTH, SDLVL);
      if r.Err? { return Fail(r.error); }
      segment.symbolDisplayLevel := r.value;
      return Pass;
    }

    method ReadSALVL() returns (o: Outcome<FormatReason>)
      requires Ready()
      modifies reader, segment`attachmentLevel
      ensures Ready()
      ensures var s := ReadBytesAsIntegerStep(reader.source, old(reader.At()), SALVL, SALVL_LENGTH);
        reader.Did(o, s)
        && segment.State() == if s.Ok? then old(segment.State()).(attachmentLevel := s.value.value) else old(segment.State())
    {
      var r := reader.ReadBytesAsInteger(SALVL_LENGTH, SALVL);
      if r.Err? { return Fail(r.error); }
      segment.attachmentLevel := r.value;
      return Pass;
    }

    /** SLOC: the row, then the column. */
    method ReadSLOC() returns (o: Outcome<FormatReason>)
      requires Ready()
      modifies reader, segment`symbolLocationRow, segment`symbolLocationColumn
      ensures Ready()
      ensures var s := ReadBytesAsIntegerStep(reader.source, old(reader.At()), SLOCRow, SLOC_HALF_LENGTH);
        match s
        case Err(_) => reader.Did(o, s) && segment.State() == old(segment.State())
        case Ok(row) =>
          var s2 := ReadBytesAsIntegerStep(reader.source, row.next, SLOCColumn, SLOC_HALF_LENGTH);
          && reader.Did(o, s2)
          && segment.State() == if s2.Ok? then old(segment.State()).(symbolLocationRow := row.value, symbolLocationColumn := s2.value.value)
                                else old(segment.State()).(symbolLocationRow := row.value)
    {
      var row := reader.ReadBytesAsInteger(SLOC_HALF_LENGTH, SLOCRow);
      if row.Err? { return Fail(row.error); }
      segment.symbolLocationRow := row.value;
      var column := reader.ReadBytesAsInteger(SLOC_HALF_LENGTH, SLOCColumn);
      if column.Err? { return Fail(column.error); }
      segment.symbolLocationColumn := column.value;
      return Pass;
    }

    /** SLOC2: the row, then the column. */
    method ReadSLOC2() returns (o: Outcome<FormatReason>)
      requires Ready()
      modifies reader, segment`symbolLocation2Row, segment`symbolLocation2Column
      ensures Ready()
      ensures var s := ReadBytesAsIntegerStep(reader.source, old(reader.At()), SLOC2Row, SLOC_HALF_LENGTH);
        match s
        case Err(_) => reader.Did(o, s) && segment.State() == old(segment.State())
        case Ok(row) =>
          var s2 := ReadBytesAsIntegerStep(reader.source, row.next, SLOC2Column, SLOC_HALF_LENGTH);
          && reader.Did(o, s2)
          && segment.State() == if s2.Ok? then old(segment.State()).(symbolLocation2Row := row.value, symbolLocation2Column := s2.value.value)
                                else old(segment.State()).(symbolLocation2Row := row.value)
    {
      var row := reader.ReadBytesAsInteger(SLOC_HALF_LENGTH, SLOC2Row);
      if row.Err? { return Fail(row.error); }
      segment.symbolLocation2Row := row.value;
      var column := reader.ReadBytesAsInteger(SLOC_HALF_LENGTH, SLOC2Column);
      if column.Err? { return Fail(column.error); }
      segment.symbolLocation2Column := column.value;
      return Pass;
    }

    method ReadSCOLOR() returns (o: Outcome<FormatReason>)
      requires Ready()
      modifies reader, segment`symbolColour
      ensures Ready()
      ensures var s := ReadSymbolColourStep(decoders, reader.source, old(reader.At()));
        reader.Did(o, s)
        && segment.State() == if s.Ok? then old(segment.State()).(symbolColour := Some(s.value.value)) else old(segment.State())
    {
      var r := reader.ReadBytes(SCOLOR_LENGTH, SCOLOR);
      if r.Err? { return Fail(r.error); }
      match decoders.symbolColour(r.value)
      case None =>
        return Fail(UnknownSymbolColour);
      case Some(col) =>
        segment.symbolColour := Some(col);
        return Pass;
    }

    method ReadSNUM() returns (o: Outcome<FormatReason>)
      requires Ready()
      modifies reader, segment`symbolNumber
      ensures Ready()
      ensures var s := ReadBytesStep(reader.source, old(reader.At()), SNUM, SNUM_LENGTH);
        reader.Did(o, s)
        && segment.State() == if s.Ok? then old(segment.State()).(symbolNumber := Some(s.value.value)) else old(segment.State())
    {
      var r := reader.ReadBytes(SNUM_LENGTH, SNUM);
      if r.Err? { return Fail(r.error); }
      segment.symbolNumber := Some(r.value);
      return Pass;
    }

    method ReadSROT() returns (o: Outcome<FormatReason>)
      requires Ready()
      modifies reader, segment`symbolRotation
      ensures Ready()
      ensures var s := ReadBytesAsIntegerStep(reader.source, old(reader.At()), SROT, SROT_LENGTH);
        reader.Did(o, s)
        && segment.State() == if s.Ok? then old(segment.State()).(symbolRotation := s.value.value) else old(segment.State())
    {
      var r := reader.ReadBytesAsInteger(SROT_LENGTH, SROT);
      if r.Err? { return Fail(r.error); }
      segment.symbolRotation := r.value;
      return Pass;
    }

    /** NELUT goes to the parser's own count, not to the segment. */
    method ReadNELUT() returns (o: Outcome<FormatReason>)
      requires Ready()
      modifies reader, this`numberOfEntriesInLUT
      ensures Ready()
      ensures var s := ReadBytesAsIntegerStep(reader.source, old(reader.At()), NELUT, SYNELUT_LENGTH);
        reader.Did(o, s) && numberOfEntriesInLUT == if s.Ok? then s.value.value else old(numberOfEntriesInLUT)
    {
      var r := reader.ReadBytesAsInteger(SYNELUT_LENGTH, NELUT);
      if r.Err? { return Fail(r.error); }
      numberOfEntriesInLUT := r.value;
      return Pass;
    }

    /** One LUT entry, gated on the segment's symbol type and colour format. */
    method ReadLUTEntry() returns (o: Outcome<FormatReason>)
      requires Ready() && segment.symbolType.Some? && segment.symbolColour.Some?
      modifies reader
      ensures Ready()
      ensures reader.Did(o, ReadLUTEntryStep(reader.source, old(reader.At()), segment.symbolType.value, segment.symbolColour.value))
    {
      if segment.symbolType.value == Bitmap {
        if segment.symbolColour.value == UseColourLut {
          o := ReadColourLUTEntry();
          return;
        } else if segment.symbolColour.value == UseGrayscaleLut {
          o := ReadGrayScaleLUTEntry();
          return;
        }
      }
      return Fail(LutNotPermitted);
    }

    method ReadColourLUTEntry() returns (o: Outcome<FormatReason>)
      requires Ready()
      modifies reader
      ensures Ready() && reader.Did(o, SkipStep(reader.source, old(reader.At()), LUTEntry, NUM_BYTES_IN_COLOUR_LUT_ENTRY))
    {
      o := reader.Skip(NUM_BYTES_IN_COLOUR_LUT_ENTRY, LUTEntry);
    }

    method ReadGrayScaleLUTEntry() returns (o: Outcome<FormatReason>)
      requires Ready()
      modifies reader
      ensures Ready() && reader.Did(o, SkipStep(reader.source, old(reader.At()), LUTEntry, NUM_BYTES_IN_GRAYSCALE_LUT_ENTRY))
    {
      o := reader.Skip(NUM_BYTES_IN_GRAYSCALE_LUT_ENTRY, LUTEntry);
    }

    /** SXSHDL goes to the parser's own length, not to the segment. */
    method ReadSXSHDL() returns (o: Outcome<FormatReason>)
      requires Ready()
      modifies reader, this`symbolExtendedSubheaderLength
      ensures Ready()
      ensures var s := ReadBytesAsIntegerStep(reader.source, old(reader.At()), SXSHDL, SXSHDL_LENGTH);
        reader.Did(o, s) && symbolExtendedSubheaderLength == if s.Ok? then s.value.value else old(symbolExtendedSubheaderLength)
    {
      var r := reader.ReadBytesAsInteger(SXSHDL_LENGTH, SXSHDL);
      if r.Err? { return Fail(r.error); }
      symbolExtendedSubheaderLength := r.value;
      return Pass;
    }

    method ReadSXSOFL() returns (o: Outcome<FormatReason>)
      requires Ready()
      modifies reader, segment`extendedHeaderDataOverflow
      ensures Ready()
      ensures var s := ReadBytesAsIntegerStep(reader.source, old(reader.At()), SXSOFL, SXSOFL_LENGTH);
        reader.Did(o, s)
        && segment.State() == if s.Ok? then old(segment.State()).(extendedHeaderDataOverflow := s.value.value) else old(segment.State())
    {
      var r := reader.ReadBytesAsInteger(SXSOFL_LENGTH, SXSOFL);
      if r.Err? { return Fail(r.error); }
      segment.extendedHeaderDataOverflow := r.value;
      return Pass;
    }

    /** The rest of the extended block goes to TRE parsing; the result is merged into the segment. */
    method ReadSXSHD() returns (o: Outcome<FormatReason>)
      requires Ready()
      modifies reader, segment`tres
      ensures Ready()
      ensures var s := ParseTresStep(parsingStrategy.treDecoder, reader.source, old(reader.At()),
                                     symbolExtendedSubheaderLength as int - SXSOFL_LENGTH, SymbolExtendedSubheaderData, SXSHD);
        reader.Did(o, s)
        && segment.State() == if s.Ok? then old(segment.State()).(tres := old(segment.State()).tres + s.value.value.tres) else old(segment.State())
    {
      var r := parsingStrategy.ParseTREs(reader, symbolExtendedSubheaderLength as int - SXSOFL_LENGTH,
                                         SymbolExtendedSubheaderData, SXSHD);
      if r.Err? { return Fail(r.error); }
      segment.tres := segment.tres + r.value.tres;
      return Pass;
    }
  }
}
