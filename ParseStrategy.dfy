/**
 * The part of the parse strategy the segment parsers call: `parseTREs`, which reads a
 * length-bounded extension area and decodes it into TREs. How the area is split into
 * tagged records is not part of this model: a strategy carries a `treDecoder` that turns
 * the area's bytes into a collection or rejects them. For a budget of zero or more,
 * `parseTREs` consumes exactly that budget and hands those bytes to the decoder; a
 * negative budget reads nothing, and the decoder's `negativeBudget` decides the outcome.
 */
module NitfTre {
  import opened NitfCommon
  import opened NitfReading

  /** Where a TRE area sits in the file; only the symbol one is used by this model. */
  datatype TreSource =
    | ImageExtendedSubheaderData
    | GraphicExtendedSubheaderData
    | SymbolExtendedSubheaderData
    | LabelExtendedSubheaderData
    | TextExtendedSubheaderData

  /** A tagged record extension, kept opaque: its tag and its payload. */
  datatype Tre = Tre(tag: seq<byte>, payload: seq<byte>)

  datatype TreCollection = TreCollection(tres: seq<Tre>)

  /**
   * A strategy's TRE decoding. `decodeArea` turns the bytes of an area into a collection or
   * rejects them; `negativeBudget` says what a budget below zero yields: a collection, with
   * nothing read, or a rejection.
   */
  datatype TreDecoder = TreDecoder(
    decodeArea: (seq<byte>, TreSource) -> Option<TreCollection>,
    negativeBudget: (int, TreSource) -> Option<TreCollection>)

  /**
   * `parseTREs(reader, length, source)`: reads the next `length` bytes and decodes them.
   * A truncated area consumes nothing; an area the decoder rejects has been read when the
   * exception is raised. A negative budget reads nothing and is settled by the decoder.
   */
  function ParseTresStep(decoder: TreDecoder, src: ByteSource, c: Cursor, length: int,
                         source: TreSource, field: Field): (s: Step<TreCollection>)
    ensures 0 <= length ==>
      && (s.Ok? <==> c.pos + length <= |src.data| && decoder.decodeArea(src.data[c.pos..c.pos + length], source).Some?)
      && (s.Ok? ==> Consumed(src, c, s.value.next, field, length) && Some(s.value.value) == decoder.decodeArea(src.data[c.pos..c.pos + length], source))
      && (s.Err? ==> s.error == if c.pos + length <= |src.data|
            then Failure(BadTres, Cursor(c.pos + length, c.trace + [Read(field, src.data[c.pos..c.pos + length])]))
            else Failure(Truncated, c))
    ensures length < 0 ==>
      && (s.Ok? <==> decoder.negativeBudget(length, source).Some?)
      && (s.Ok? ==> s.value == Got(decoder.negativeBudget(length, source).value, c))
      && (s.Err? ==> s.error == Failure(NegativeTreLength, c))
  {
    if length < 0 then
      match decoder.negativeBudget(length, source)
      case Some(collection) => Ok(Got(collection, c))
      case None => Err(Failure(NegativeTreLength, c))
    else
      var area :- ReadBytesStep(src, c, field, length);
      match decoder.decodeArea(area.value, source)
      case Some(collection) => Ok(Got(collection, area.next))
      case None => Err(Failure(BadTres, area.next))
  }

  class ParseStrategy {
    const treDecoder: TreDecoder

    constructor (treDecoder: TreDecoder)
      ensures this.treDecoder == treDecoder
    {
      this.treDecoder := treDecoder;
    }

    method ParseTREs(reader: NitfReader, length: int, source: TreSource, ghost field: Field)
      returns (r: Result<TreCollection, FormatReason>)
      requires reader.Valid()
      modifies reader
      ensures reader.Valid() && reader.Performed(r, ParseTresStep(treDecoder, reader.source, old(reader.At()), length, source, field))
    {
      if length < 0 {
        match treDecoder.negativeBudget(length, source)
        case Some(collection) =>
          return Ok(collection);
        case None =>
          return Err(NegativeTreLength);
      }
      var area := reader.ReadBytes(length, field);
      if area.Err? {
        return Err(area.error);
      }
      match treDecoder.decodeArea(area.value, source)
      case Some(collection) =>
        return Ok(collection);
      case None =>
        return Err(BadTres);
    }
  }
}
