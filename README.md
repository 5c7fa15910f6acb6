# Symbol subheader parser and segment flow of imaging-nitf, in Dafny

This project models two pieces of the imaging-nitf Java library and proves what they do.

**The symbol-subheader parser** (`SymbolSegmentParser.parse`) decodes the NITF 2.0 symbol subheader of MIL-STD-2500A. It reads the subheader field by field from a `NitfReader` into a `SymbolSegmentImpl`:

- the `SY` magic;
- SID, SNAME, the security block and ENCRYP;
- STYPE, NLIPS, NPIXPL, NWDTH and NBPP;
- SDLVL, SALVL, SLOC and SLOC2;
- SCOLOR, SNUM, SROT and NELUT;
- one look-up-table entry per NELUT;
- the extended-subheader block: SXSHDL, then SXSOFL and the TRE area when SXSHDL is positive.

**The segment flow** (`NitfSegmentsFlow`) runs after a parse. It hands the parse strategy's retained segments to the caller's consumers and returns itself for chaining.

Modules:

- `NitfCommon` (`Common.dfy`): Java's `int` and `long`, `Option`, `Result`, and `Outcome`. `Outcome` is the result of a `void` method that may throw.
- `NitfReading` (`NitfReader.dfy`): the reader.
  - `Cursor` holds a position and a ghost trace of reads. Each read is a `(field, bytes)` event.
  - The `...Step` functions specify each reader primitive on a cursor.
  - The class `NitfReader` implements those primitives, and each method is proved to perform its step.
  - `Reads(src, c, next, es)` says that going from `c` to `next` performed the reads `es`, which cover exactly the bytes in between.
- `NitfTre` (`ParseStrategy.dfy`): `parseTREs` of the parse strategy. For a budget of zero or more it consumes exactly that budget and hands those bytes to the decoder. A negative budget reads nothing, and the decoder's `negativeBudget` decides the outcome.
- `SymbolSegmentParsing` (`SymbolSegmentParser.dfy`):
  - `ParseSymbolSegment` is the specification of the whole parse, over a cursor.
  - `SymbolSegment` is the segment that the setters fill in. `State()` gives all of its fields as one value.
  - `SymbolSegmentParser` is the parser. Its fields `numberOfEntriesInLUT`, `symbolExtendedSubheaderLength`, `segment`, `reader` and `parsingStrategy` are assigned step by step by the `Read...` methods, one per field read of `parse`, grouped by helper methods.
  - `Parse` is proved to fail exactly where the specification fails, with the same exception and the same reader position. On success it returns a fresh segment whose every field is the specification's.
- `SymbolSegmentProperties` (`SymbolSegmentProperties.dfy`): what the specification reads and why it fails.
  - The order and width of every read.
  - The conversion recorded for every header value.
  - The LUT gate and widths, the extended block, and the early failures.
  - The pass-through of the data length.
- `SegmentsFlow` (`NitfSegmentsFlow.dfy`): the flow class.
  - The ghost `deliveries` records every consumer call.
  - The ghost `streams` records the stream handed to each image consumer.
  - The strategy is never in a `modifies` clause, so no traversal changes it.
  - Each traversal's new record is a function of the strategy's lists, so repeating a traversal on the same state adds the same calls.

## Model

| member | source | states |
|---|---|---|
| NitfReading.VerifyHeaderMagicStep | core/src/main/java/org/codice/imaging/nitf/core/symbol/impl/SymbolSegmentParser.java:106-108 | the magic check succeeds exactly when the next bytes are the token, and then consumes it; otherwise it fails where it started, with a truncation or a wrong-magic error |
| NitfReading.ReadTrimmedBytesStep | core/src/main/java/org/codice/imaging/nitf/core/symbol/impl/SymbolSegmentParser.java:110-116 | a trimmed read succeeds exactly when `n` bytes remain; it then consumes exactly those bytes and yields them trimmed; otherwise it is a truncation that consumes nothing |
| NitfReading.ReadBytesStep | core/src/main/java/org/codice/imaging/nitf/core/symbol/impl/SymbolSegmentParser.java:157-164 | a read succeeds exactly when `n` bytes remain; it then consumes exactly those bytes and yields them unchanged; otherwise it is a truncation that consumes nothing |
| NitfReading.ReadBytesAsIntegerStep | core/src/main/java/org/codice/imaging/nitf/core/symbol/impl/SymbolSegmentParser.java:123-125 | an integer read succeeds exactly when `n` bytes remain and spell a number; it then consumes exactly `n` bytes; otherwise it fails in place with a truncation or a not-a-number error |
| NitfReading.SkipStep | core/src/main/java/org/codice/imaging/nitf/core/symbol/impl/SymbolSegmentParser.java:187-193 | a skip succeeds exactly when `n` bytes remain, and then moves over exactly those bytes |
| NitfReading.ReadDelegatedStep | core/src/main/java/org/codice/imaging/nitf/core/symbol/impl/SymbolSegmentParser.java:80 | the security block is as long as the security parser says; the step succeeds exactly when that parser accepts the remaining bytes and they are long enough, and then consumes exactly that many bytes; every failure leaves the reader where it was |
| NitfReading.NitfReader.VerifyHeaderMagic | core/src/main/java/org/codice/imaging/nitf/core/symbol/impl/SymbolSegmentParser.java:107 | the reader method moves and fails exactly as `VerifyHeaderMagicStep` says |
| NitfReading.NitfReader.ReadTrimmedBytes | core/src/main/java/org/codice/imaging/nitf/core/symbol/impl/SymbolSegmentParser.java:111 | the reader method returns, moves and fails exactly as `ReadTrimmedBytesStep` says |
| NitfReading.NitfReader.ReadBytes | core/src/main/java/org/codice/imaging/nitf/core/symbol/impl/SymbolSegmentParser.java:158 | the reader method returns, moves and fails exactly as `ReadBytesStep` says |
| NitfReading.NitfReader.ReadBytesAsInteger | core/src/main/java/org/codice/imaging/nitf/core/symbol/impl/SymbolSegmentParser.java:124 | the reader method returns, moves and fails exactly as `ReadBytesAsIntegerStep` says |
| NitfReading.NitfReader.Skip | core/src/main/java/org/codice/imaging/nitf/core/symbol/impl/SymbolSegmentParser.java:188 | the reader method moves and fails exactly as `SkipStep` says |
| NitfReading.NitfReader.ReadDelegated | core/src/main/java/org/codice/imaging/nitf/core/symbol/impl/SymbolSegmentParser.java:80 | the reader method returns, moves and fails exactly as `ReadDelegatedStep` says |
| NitfReading.ReadsKeepFaithful | core/src/main/java/org/codice/imaging/nitf/core/symbol/impl/SymbolSegmentParser.java:77-102 | the reads a parse performs keep the reader's trace exactly the bytes from its start to its position |
| NitfTre.ParseTresStep | core/src/main/java/org/codice/imaging/nitf/core/symbol/impl/SymbolSegmentParser.java:204-206 | for a budget of zero or more, TRE parsing succeeds exactly when that many bytes remain and the decoder accepts them, and it then consumes exactly the budget and yields the decoded collection; a truncated area fails where it started, and a rejected area fails after it has been read; for a negative budget nothing is read and the decoder's `negativeBudget` answer decides between a collection and a rejection |
| NitfTre.ParseStrategy.ParseTREs | core/src/main/java/org/codice/imaging/nitf/core/symbol/impl/SymbolSegmentParser.java:204-206 | the strategy method returns, moves and fails exactly as `ParseTresStep` says |
| SymbolSegmentParsing.ReadSymbolTypeStep | core/src/main/java/org/codice/imaging/nitf/core/symbol/impl/SymbolSegmentParser.java:118-121 | STYPE succeeds exactly when its one byte is there and its trimmed form names a symbol type; it then consumes that byte and yields the type. A missing byte is a truncation where it started, and an unknown code fails after the byte is read |
| SymbolSegmentParsing.ReadSymbolColourStep | core/src/main/java/org/codice/imaging/nitf/core/symbol/impl/SymbolSegmentParser.java:157-160 | SCOLOR succeeds exactly when its one byte is there and, untrimmed, names a colour format; it then consumes that byte and yields the format. A missing byte is a truncation where it started, and an unknown code fails after the byte is read |
| SymbolSegmentParsing.ReadIdentificationStep | core/src/main/java/org/codice/imaging/nitf/core/symbol/impl/SymbolSegmentParser.java:77-81 | a successful identification starts with the bytes "SY"; the identifier and the name are the trimmed 10 and 20 bytes after them; the security metadata is what the security parser reports for the bytes after SNAME; and the read ends its reported width plus ENCRYP's one byte later. A subheader that does not open with "SY" fails where it starts |
| SymbolSegmentParsing.ReadGeometryStep | core/src/main/java/org/codice/imaging/nitf/core/symbol/impl/SymbolSegmentParser.java:82-86 | a successful geometry covers exactly 14 bytes: the type is the lookup of the trimmed first byte, and NBPP is the number its last byte spells |
| SymbolSegmentParsing.ReadPlacementStep | core/src/main/java/org/codice/imaging/nitf/core/symbol/impl/SymbolSegmentParser.java:87-90 | a successful placement covers exactly 26 bytes, and the first location's row and column are the numbers spelled by the two 5-byte halves after SDLVL and SALVL |
| SymbolSegmentParsing.ReadAppearanceStep | core/src/main/java/org/codice/imaging/nitf/core/symbol/impl/SymbolSegmentParser.java:91-94 | a successful appearance covers exactly 13 bytes: the colour is the lookup of the untrimmed first byte, the symbol number is the next 6 bytes as they are, and NELUT is the number its last 3 bytes spell |
| SymbolSegmentParsing.ReadFixedFieldsStep | core/src/main/java/org/codice/imaging/nitf/core/symbol/impl/SymbolSegmentParser.java:72-94 | a successful fixed part gives a header with the caller's data length and the reader's file type, no overflow value, no TREs, and a placeholder extended-subheader length of 0 that `ReadExtendedSubheaderStep` always overwrites (`parse` never resets SXSHDL, so a reused parser holds the previous value until then) |
| SymbolSegmentParsing.ReadLUTEntryStep | core/src/main/java/org/codice/imaging/nitf/core/symbol/impl/SymbolSegmentParser.java:174-185 | one entry succeeds exactly when the symbol is a bitmap with a colour or grayscale LUT and the entry's bytes (3 or 1) remain, and then consumes them. Any other pair fails with the not-permitted error before reading |
| SymbolSegmentParsing.ReadLUTStep | core/src/main/java/org/codice/imaging/nitf/core/symbol/impl/SymbolSegmentParser.java:95-97 | a count of 0 or less reads nothing and succeeds; a successful loop over a positive count implies a bitmap with a colour or grayscale LUT, and never moves backwards or past the end |
| SymbolSegmentParsing.ReadExtendedSubheaderStep | core/src/main/java/org/codice/imaging/nitf/core/symbol/impl/SymbolSegmentParser.java:98-102 | on success the kept length is the number SXSHDL's 5 bytes spell; a length of 0 or less reads SXSHDL alone and leaves the header as it was; any length changes only the overflow field and the TREs; and the LUT count stays as it was |
| SymbolSegmentParsing.ParseSymbolSegment | core/src/main/java/org/codice/imaging/nitf/core/symbol/impl/SymbolSegmentParser.java:69-104 | a successful parse has the caller's data length and the reader's file type. It carries LUT entries only for a bitmap with a colour or grayscale LUT, and has no overflow value or TREs when SXSHDL is 0 or less. A subheader that does not open with "SY" fails where it starts |
| SymbolSegmentParsing.SymbolSegment.constructor | core/src/main/java/org/codice/imaging/nitf/core/symbol/impl/SymbolSegmentParser.java:72 | a new segment has no field set: every object field is unset, every integer is 0 and the TRE list is empty |
| SymbolSegmentParsing.SymbolSegmentParser.constructor | core/src/main/java/org/codice/imaging/nitf/core/symbol/impl/SymbolSegmentParser.java:51-56 | a new parser has both counts 0 and no segment, reader or strategy |
| SymbolSegmentParsing.SymbolSegmentParser.Parse | core/src/main/java/org/codice/imaging/nitf/core/symbol/impl/SymbolSegmentParser.java:69-104 | `parse` keeps the reader and the strategy it is given. It fails exactly when the specification fails, with the same exception and reader position. On success it returns a fresh segment, also kept in the parser, that holds every value of the specification's header; stores the specification's two counts; and leaves the reader after exactly the specification's reads |
| SymbolSegmentParsing.SymbolSegmentParser.ReadSubheader | core/src/main/java/org/codice/imaging/nitf/core/symbol/impl/SymbolSegmentParser.java:77-102 | the read steps of `parse`, from SY to the extended block, move the reader exactly as the specification does; on success the segment and both counts hold the specification's values |
| SymbolSegmentParsing.SymbolSegmentParser.ReadFixedFields | core/src/main/java/org/codice/imaging/nitf/core/symbol/impl/SymbolSegmentParser.java:77-94 | SY to NELUT move the reader as the fixed phase of the specification does; on success the segment holds that phase's header and the LUT count its NELUT |
| SymbolSegmentParsing.SymbolSegmentParser.ReadIdentification | core/src/main/java/org/codice/imaging/nitf/core/symbol/impl/SymbolSegmentParser.java:77-81 | SY, SID, SNAME, the security block and ENCRYP move the reader as specified; on success these are the segment's only fields that change, and they take the values read |
| SymbolSegmentParsing.SymbolSegmentParser.ReadGeometry | core/src/main/java/org/codice/imaging/nitf/core/symbol/impl/SymbolSegmentParser.java:82-86 | STYPE to NBPP move the reader as specified; on success these are the segment's only fields that change, and they take the values read |
| SymbolSegmentParsing.SymbolSegmentParser.ReadPlacement | core/src/main/java/org/codice/imaging/nitf/core/symbol/impl/SymbolSegmentParser.java:87-90 | SDLVL to SLOC2 move the reader as specified; on success these are the segment's only fields that change, and they take the values read |
| SymbolSegmentParsing.SymbolSegmentParser.ReadAppearance | core/src/main/java/org/codice/imaging/nitf/core/symbol/impl/SymbolSegmentParser.java:91-94 | SCOLOR to NELUT move the reader as specified; on success the segment takes the colour, number and rotation read, its other fields do not change, and the LUT count is NELUT |
| SymbolSegmentParsing.SymbolSegmentParser.ReadLUT | core/src/main/java/org/codice/imaging/nitf/core/symbol/impl/SymbolSegmentParser.java:95-97 | the loop calls `readLUTEntry` once per entry of the LUT count and moves the reader exactly as the specified LUT loop does, failing where it fails |
| SymbolSegmentParsing.SymbolSegmentParser.ReadExtendedSubheader | core/src/main/java/org/codice/imaging/nitf/core/symbol/impl/SymbolSegmentParser.java:98-102 | SXSHDL, and SXSOFL and SXSHD only when SXSHDL is positive, move the reader as the specified extended block does; on success the segment holds that block's header and the parser keeps SXSHDL |
| SymbolSegmentParsing.SymbolSegmentParser.ReadSY | core/src/main/java/org/codice/imaging/nitf/core/symbol/impl/SymbolSegmentParser.java:106-108 | `readSY` is the reader's magic check for "SY" |
| SymbolSegmentParsing.SymbolSegmentParser.ReadSID | core/src/main/java/org/codice/imaging/nitf/core/symbol/impl/SymbolSegmentParser.java:110-112 | the trimmed SID becomes the identifier and nothing else in the segment changes; on failure the segment is unchanged |
| SymbolSegmentParsing.SymbolSegmentParser.ReadSNAME | core/src/main/java/org/codice/imaging/nitf/core/symbol/impl/SymbolSegmentParser.java:114-116 | the trimmed SNAME becomes the symbol name and nothing else in the segment changes; on failure the segment is unchanged |
| SymbolSegmentParsing.SymbolSegmentParser.ReadSecurityMetadata | core/src/main/java/org/codice/imaging/nitf/core/symbol/impl/SymbolSegmentParser.java:80 | the security parser's result becomes the segment's security metadata and nothing else in the segment changes; on failure the segment is unchanged |
| SymbolSegmentParsing.SymbolSegmentParser.ReadENCRYP | core/src/main/java/org/codice/imaging/nitf/core/symbol/impl/SymbolSegmentParser.java:81 | ENCRYP is read at its width and not stored |
| SymbolSegmentParsing.SymbolSegmentParser.ReadSTYPE | core/src/main/java/org/codice/imaging/nitf/core/symbol/impl/SymbolSegmentParser.java:118-121 | the trimmed STYPE, looked up, becomes the symbol type and nothing else in the segment changes; a failed read or lookup leaves the segment unchanged |
| SymbolSegmentParsing.SymbolSegmentParser.ReadNLIPS | core/src/main/java/org/codice/imaging/nitf/core/symbol/impl/SymbolSegmentParser.java:123-125 | NLIPS as a number becomes the lines per symbol and nothing else in the segment changes; on failure the segment is unchanged |
| SymbolSegmentParsing.SymbolSegmentParser.ReadNPIXPL | core/src/main/java/org/codice/imaging/nitf/core/symbol/impl/SymbolSegmentParser.java:127-129 | NPIXPL as a number becomes the pixels per line and nothing else in the segment changes; on failure the segment is unchanged |
| SymbolSegmentParsing.SymbolSegmentParser.ReadNWDTH | core/src/main/java/org/codice/imaging/nitf/core/symbol/impl/SymbolSegmentParser.java:131-133 | NWDTH as a number becomes the line width and nothing else in the segment changes; on failure the segment is unchanged |
| SymbolSegmentParsing.SymbolSegmentParser.ReadNBPP | core/src/main/java/org/codice/imaging/nitf/core/symbol/impl/SymbolSegmentParser.java:135-137 | NBPP as a number becomes the bits per pixel and nothing else in the segment changes; on failure the segment is unchanged |
| SymbolSegmentParsing.SymbolSegmentParser.ReadSDLVL | core/src/main/java/org/codice/imaging/nitf/core/symbol/impl/SymbolSegmentParser.java:139-141 | SDLVL as a number becomes the display level and nothing else in the segment changes; on failure the segment is unchanged |
| SymbolSegmentParsing.SymbolSegmentParser.ReadSALVL | core/src/main/java/org/codice/imaging/nitf/core/symbol/impl/SymbolSegmentParser.java:143-145 | SALVL as a number becomes the attachment level and nothing else in the segment changes; on failure the segment is unchanged |
| SymbolSegmentParsing.SymbolSegmentParser.ReadSLOC | core/src/main/java/org/codice/imaging/nitf/core/symbol/impl/SymbolSegmentParser.java:147-150 | the row is read and stored, then the column. A failed row read leaves the segment unchanged. A failed column read leaves the stored row in place |
| SymbolSegmentParsing.SymbolSegmentParser.ReadSLOC2 | core/src/main/java/org/codice/imaging/nitf/core/symbol/impl/SymbolSegmentParser.java:152-155 | as for SLOC: the second location's row, then its column, with the row kept if the column fails |
| SymbolSegmentParsing.SymbolSegmentParser.ReadSCOLOR | core/src/main/java/org/codice/imaging/nitf/core/symbol/impl/SymbolSegmentParser.java:157-160 | the untrimmed SCOLOR, looked up, becomes the colour format and nothing else in the segment changes; a failed read or lookup leaves the segment unchanged |
| SymbolSegmentParsing.SymbolSegmentParser.ReadSNUM | core/src/main/java/org/codice/imaging/nitf/core/symbol/impl/SymbolSegmentParser.java:162-164 | SNUM as read becomes the symbol number and nothing else in the segment changes; on failure the segment is unchanged |
| SymbolSegmentParsing.SymbolSegmentParser.ReadSROT | core/src/main/java/org/codice/imaging/nitf/core/symbol/impl/SymbolSegmentParser.java:166-168 | SROT as a number becomes the rotation and nothing else in the segment changes; on failure the segment is unchanged |
| SymbolSegmentParsing.SymbolSegmentParser.ReadNELUT | core/src/main/java/org/codice/imaging/nitf/core/symbol/impl/SymbolSegmentParser.java:170-172 | NELUT as a number goes to the parser's LUT count, not to the segment; on failure the count is unchanged |
| SymbolSegmentParsing.SymbolSegmentParser.ReadLUTEntry | core/src/main/java/org/codice/imaging/nitf/core/symbol/impl/SymbolSegmentParser.java:174-185 | one LUT entry skips 3 bytes for a bitmap with a colour LUT and 1 byte for a bitmap with a grayscale LUT; any other pair fails without reading |
| SymbolSegmentParsing.SymbolSegmentParser.ReadColourLUTEntry | core/src/main/java/org/codice/imaging/nitf/core/symbol/impl/SymbolSegmentParser.java:187-189 | a colour LUT entry is a 3-byte skip |
| SymbolSegmentParsing.SymbolSegmentParser.ReadGrayScaleLUTEntry | core/src/main/java/org/codice/imaging/nitf/core/symbol/impl/SymbolSegmentParser.java:191-193 | a grayscale LUT entry is a 1-byte skip |
| SymbolSegmentParsing.SymbolSegmentParser.ReadSXSHDL | core/src/main/java/org/codice/imaging/nitf/core/symbol/impl/SymbolSegmentParser.java:195-197 | SXSHDL as a number goes to the parser's extended-subheader length; on failure the length is unchanged |
| SymbolSegmentParsing.SymbolSegmentParser.ReadSXSOFL | core/src/main/java/org/codice/imaging/nitf/core/symbol/impl/SymbolSegmentParser.java:199-201 | SXSOFL as a number becomes the overflow field and nothing else in the segment changes; on failure the segment is unchanged |
| SymbolSegmentParsing.SymbolSegmentParser.ReadSXSHD | core/src/main/java/org/codice/imaging/nitf/core/symbol/impl/SymbolSegmentParser.java:203-208 | `SXSHDL - SXSOFL_LENGTH` bytes go to TRE parsing with source `SymbolExtendedSubheaderData`, and the TREs are added after the segment's own; on failure the segment is unchanged |
| SymbolSegmentProperties.IdentificationReads | core/src/main/java/org/codice/imaging/nitf/core/symbol/impl/SymbolSegmentParser.java:77-81 | SY, SID, SNAME, the security block and ENCRYP are read in this order, each at its width; the security block is as wide as the security parser says of the bytes after SNAME; the identifier and name are the trimmed bytes of their reads |
| SymbolSegmentProperties.GeometryReads | core/src/main/java/org/codice/imaging/nitf/core/symbol/impl/SymbolSegmentParser.java:82-86 | STYPE, NLIPS, NPIXPL, NWDTH and NBPP are read in this order, each at its width, and each value is the conversion of its own bytes |
| SymbolSegmentProperties.PlacementReads | core/src/main/java/org/codice/imaging/nitf/core/symbol/impl/SymbolSegmentParser.java:87-90 | SDLVL, SALVL, then each location's row before its column, are read in this order, each at its width, and each value is the number its bytes spell |
| SymbolSegmentProperties.AppearanceReads | core/src/main/java/org/codice/imaging/nitf/core/symbol/impl/SymbolSegmentParser.java:91-94 | SCOLOR, SNUM, SROT and NELUT are read in this order, each at its width, and each value is the conversion of its own bytes |
| SymbolSegmentProperties.FixedFieldsReads | core/src/main/java/org/codice/imaging/nitf/core/symbol/impl/SymbolSegmentParser.java:72-94 | the fixed part is the twenty reads from SY to NELUT in source order, and each header value is the conversion of its own read. The data length is the caller's and the file type the reader's. The overflow field and the TRE list are still empty |
| SymbolSegmentProperties.LutOutcome | core/src/main/java/org/codice/imaging/nitf/core/symbol/impl/SymbolSegmentParser.java:95-97 | the LUT loop succeeds exactly when the count is at most 0, or the pair has a LUT and the bytes for every entry remain. A count of 0 reads nothing and checks no gate. A pair without a LUT fails at once. A short LUT fails with a truncation |
| SymbolSegmentProperties.LutWithoutTableRejected | core/src/main/java/org/codice/imaging/nitf/core/symbol/impl/SymbolSegmentParser.java:174-185 | with a positive count and a pair other than bitmap with a colour or grayscale LUT, the loop fails at its first entry, before any byte is skipped |
| SymbolSegmentProperties.LutReads | core/src/main/java/org/codice/imaging/nitf/core/symbol/impl/SymbolSegmentParser.java:95-97 | a successful LUT loop is one read per entry, each as wide as the pair's entry, and nothing else |
| SymbolSegmentProperties.LutConsumes | core/src/main/java/org/codice/imaging/nitf/core/symbol/impl/SymbolSegmentParser.java:174-193 | a successful LUT loop of k entries moves the reader 3·k bytes for a colour LUT, k bytes for a grayscale LUT, and 0 bytes for k ≤ 0 |
| SymbolSegmentProperties.ExtendedReads | core/src/main/java/org/codice/imaging/nitf/core/symbol/impl/SymbolSegmentParser.java:98-102 | the extended block is SXSHDL alone when its length L ≤ 0, and then the header is unchanged. When L > 0 it is SXSHDL, SXSOFL and, when L ≥ SXSOFL_LENGTH, `L - SXSOFL_LENGTH` bytes of TREs; the overflow field is SXSOFL's number, and the TREs the decoder yields for that area (or, for a shorter L, for the negative budget) are added to the header's |
| SymbolSegmentProperties.ExtendedConsumes | core/src/main/java/org/codice/imaging/nitf/core/symbol/impl/SymbolSegmentParser.java:195-207 | a successful extended block moves the reader SXSHDL's width, plus the length L it holds when L ≥ SXSOFL_LENGTH, plus only SXSOFL's width when 0 < L < SXSOFL_LENGTH |
| SymbolSegmentProperties.ShortExtendedSubheaderDelegated | core/src/main/java/org/codice/imaging/nitf/core/symbol/impl/SymbolSegmentParser.java:203-206 | an SXSHDL of 1 or 2 hands TRE parsing the negative budget `L - SXSOFL_LENGTH` unchecked; the block ends right after SXSOFL, and the strategy's answer decides it: a rejection fails the parse there, a collection is added to the header's TREs |
| SymbolSegmentProperties.ParseReads | core/src/main/java/org/codice/imaging/nitf/core/symbol/impl/SymbolSegmentParser.java:69-104 | a successful parse reads the fixed part, then the LUT entries, then the extended block, and nothing else. LUT entries occur only for a pair that has a LUT, and each is as wide as that pair's entry. Every header value is the conversion of its own read. The data length and the file type come from the caller and the reader. The overflow field and the TREs come from the extended block when its length is positive (the TREs as the decoder yields them for the area or the negative budget), and are empty otherwise |
| SymbolSegmentProperties.ParseKeepsFaithful | core/src/main/java/org/codice/imaging/nitf/core/symbol/impl/SymbolSegmentParser.java:69-104 | after a successful parse the reader's trace is still exactly the bytes between its start and its position |
| SymbolSegmentProperties.WrongMagicRejected | core/src/main/java/org/codice/imaging/nitf/core/symbol/impl/SymbolSegmentParser.java:77 | a subheader that does not open with "SY" fails at its start, before any field is read; the error is wrong-magic, or a truncation when fewer than two bytes remain |
| SymbolSegmentProperties.LutNotPermittedRejected | core/src/main/java/org/codice/imaging/nitf/core/symbol/impl/SymbolSegmentParser.java:184 | after a successful fixed part with a positive NELUT and a pair that has no LUT, the whole parse fails with the LUT error right after NELUT |
| SymbolSegmentProperties.FixedIgnoresDataLength | core/src/main/java/org/codice/imaging/nitf/core/symbol/impl/SymbolSegmentParser.java:73 | the fixed part reads and fails the same for any data length, and the headers it yields differ only in that length |
| SymbolSegmentProperties.ExtendedIgnoresDataLength | core/src/main/java/org/codice/imaging/nitf/core/symbol/impl/SymbolSegmentParser.java:98-102 | the extended block neither reads nor changes the data length |
| SymbolSegmentProperties.DataLengthPassedThrough | core/src/main/java/org/codice/imaging/nitf/core/symbol/impl/SymbolSegmentParser.java:69-73 | the segment's data length is the argument: two parses of the same bytes with different data lengths read and fail alike, and their headers differ only in the data length |
| SegmentsFlow.ImageDeliveries | render/src/main/java/org/codice/imaging/nitf/render/flow/NitfSegmentsFlow.java:55-60 | the first `n` steps of the image loop make `n` calls, all of them image calls |
| SegmentsFlow.DataExtensionDeliveries | render/src/main/java/org/codice/imaging/nitf/render/flow/NitfSegmentsFlow.java:74-76 | the data-extension loop makes one call per header, all of them data-extension calls |
| SegmentsFlow.ImageDeliveriesPairUp | render/src/main/java/org/codice/imaging/nitf/render/flow/NitfSegmentsFlow.java:55-59 | call `k` of the image loop receives header `k` with data array `k` |
| SegmentsFlow.ImageDeliveriesPrefix | render/src/main/java/org/codice/imaging/nitf/render/flow/NitfSegmentsFlow.java:55-60 | an image loop cut short at an index has made exactly the first calls of the full loop |
| SegmentsFlow.DataExtensionDeliveriesInOrder | render/src/main/java/org/codice/imaging/nitf/render/flow/NitfSegmentsFlow.java:74-76 | call `k` of the data-extension loop receives header `k` |
| SegmentsFlow.ImageInputStream.constructor | render/src/main/java/org/codice/imaging/nitf/render/flow/NitfSegmentsFlow.java:58 | a new stream views the given data array from its start |
| SegmentsFlow.NitfSegmentsFlow.constructor | render/src/main/java/org/codice/imaging/nitf/render/flow/NitfSegmentsFlow.java:41 | the flow keeps the strategy it is given and has made no calls |
| SegmentsFlow.NitfSegmentsFlow.Create | render/src/main/java/org/codice/imaging/nitf/render/flow/NitfSegmentsFlow.java:35-42 | a null strategy is an illegal-argument error; any other gives a fresh flow that holds that strategy and has made no calls |
| SegmentsFlow.NitfSegmentsFlow.ForEachImage | render/src/main/java/org/codice/imaging/nitf/render/flow/NitfSegmentsFlow.java:50-63 | one call per image-data entry, in index order, each with the header of the same index. Each call gets a stream that is fresh, distinct from the other calls' streams, and views that entry's bytes from position 0. Earlier calls are kept. The method returns the flow itself. A header list shorter than the data list stops the loop with an index error at the first index that has no header |
| SegmentsFlow.NitfSegmentsFlow.ForEachDataSegment | render/src/main/java/org/codice/imaging/nitf/render/flow/NitfSegmentsFlow.java:71-79 | one call per data-extension header, in list order, after the earlier calls; returns the flow itself |
| SegmentsFlow.NitfSegmentsFlow.FileHeader | render/src/main/java/org/codice/imaging/nitf/render/flow/NitfSegmentsFlow.java:87-91 | exactly one call, with the strategy's file header, after the earlier calls; returns the flow itself |

## Left out

- **NitfReader internals.** `NitfReader` is not part of this model. Three of its parts are parameters of the byte source (`ReaderFormat` and `ByteSource.fileType`):
  - the trimming done by `readTrimmedBytes`;
  - the digit parsing done by `readBytesAsInteger`;
  - the file-type context.
- **Strings.** `readBytes` and `readTrimmedBytes` return Java `String`s, and the parser stores those for SID, SNAME and SNUM and hands them to the enum lookups. The model keeps the raw bytes in `identifier`, `symbolName` and `symbolNumber` and hands raw bytes to the lookups; the byte-to-character conversion is not modelled.
- **A failed reader primitive consumes nothing.** The original reader may already have moved when it throws. After an exception the parse is abandoned either way.
- **Security parsing.** `SecurityMetadataParser` is not part of this model. It is the `security` function of `Decoders`, which reports the metadata and how many bytes it covers. A `security` function that rejects the bytes is modelled as consuming nothing, although the Java parser may already have moved the reader when it throws. The Java parser is handed the whole reader, so its layout may depend on the reader's file type; `security` sees only the bytes, so one `Decoders` value cannot model a security layout that depends on the file type.
- **ENCRYP.** `readENCRYP` is inherited from `AbstractSegmentParser`, which is not part of this model. It is modelled as a read of ENCRYP's width whose value is not kept.
- **Enum lookups.** `SymbolType.getEnumValue` and `SymbolColour.getEnumValue` are not part of this model. They are the partial functions `symbolType` and `symbolColour` of `Decoders`. A code with no constant is modelled as a format error at that field. Nothing is assumed about which codes have constants.
- **TRE parsing.** `parseTREs` and `mergeTREs` are reduced to a TRE decoder (`TreDecoder`) over exactly the given budget when it is zero or more, with the TREs kept in order.
  - Because the decoder is opaque, three failures are distinct errors: a negative budget, a truncated area, and an area the decoder rejects.
  - What the real `parseTREs` does with a negative budget (an SXSHDL of 1 or 2) is not part of this model, so it is the decoder's `negativeBudget` parameter.
- NitfTre.ParseTresStep: for a negative budget it promises only what the decoder's `negativeBudget` answer says, and it takes no bytes. The Java code passes that budget on without a check, and whether the real strategy reads anything for it is not known here.
- **Field widths.** They are the NITF 2.0 values of MIL-STD-2500A: SID 10, SNAME 20, ENCRYP 1, STYPE 1, NLIPS 4, NPIXPL 4, NWDTH 4, NBPP 1, SDLVL 3, SALVL 3, each SLOC half 5, SCOLOR 1, SNUM 6, SROT 3, NELUT 3, SXSHDL 5, SXSOFL 3. The constants file that defines them is not part of this model.
- **Null arguments of `parse`.** A null reader or strategy passed to `parse` would raise a null-pointer exception. Dafny's non-null types exclude it.
- **Proof structure.** The steps of `parse` are grouped into helper methods: `ReadSubheader`, `ReadFixedFields`, the four group methods, `ReadLUT` and `ReadExtendedSubheader`. They call the `Read...` methods in the source's order. The grouping is only there to keep each proof small.
- **No reader invariant for the trace.** `NitfReader.Valid` states only the position bounds. That the trace matches the bytes read is proved separately, by `ReadsKeepFaithful` and `ParseKeepsFaithful`.
- SymbolSegmentParsing.SymbolSegmentParser.Parse: on failure it does not say what the partly filled segment in the parser's `segment` field holds. The caller never receives that segment.
- SymbolSegmentParsing.SymbolSegmentParser.ReadSubheader: on failure it does not say what the segment holds.
- SymbolSegmentParsing.SymbolSegmentParser.ReadFixedFields: on failure it does not say what the segment holds.
- SymbolSegmentParsing.SymbolSegmentParser.ReadIdentification: on failure it does not say what the segment holds.
- SymbolSegmentParsing.SymbolSegmentParser.ReadGeometry: on failure it does not say what the segment holds.
- SymbolSegmentParsing.SymbolSegmentParser.ReadPlacement: on failure it does not say what the segment holds.
- SymbolSegmentParsing.SymbolSegmentParser.ReadAppearance: on failure it does not say what the segment holds.
- SymbolSegmentParsing.SymbolSegmentParser.ReadExtendedSubheader: on failure it does not say what the segment holds.
- **Consumers.** What a consumer does is not modelled. A consumer is assumed to return normally and to leave the strategy and the flow alone. Each call is recorded in the ghost `deliveries`, and which object was passed as the consumer is not recorded.
- **Image streams.** `MemoryCacheImageInputStream` and `ByteArrayInputStream` are a fresh `ImageInputStream` object that holds the image's bytes and a position. Reading from it is not modelled.
- **Flow construction.** The flow's constructor is package-private and throws on a null strategy. Because a Dafny constructor cannot fail, the argument check is the static method `Create`. The constructor that `Create` calls takes a non-null strategy.
- **Java objects as values.** Headers are opaque byte values, and a file header the strategy never set is `None`. The Java lists are sequences read through the strategy's getters.
- **Concurrency.** Running traversals from several threads is out of scope.
