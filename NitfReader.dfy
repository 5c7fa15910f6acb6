/**
 * The byte cursor the segment parsers read from (`NitfReader`), reduced to what the
 * symbol-segment parser relies on: fixed-width reads that either consume exactly their
 * width or fail. Each successful read is recorded in a ghost trace as one `Event`, so
 * that contracts can say which bytes were consumed, in what order, and for which field.
 *
 * The pure `...Step` functions are the specification of the primitives over a `Cursor`
 * value; the methods of `NitfReader` are proved to perform exactly those steps.
 */
module NitfReading {
  import opened NitfCommon

  /** The subheader field (or block) a read is attributed to in the trace. */
  datatype Field =
    | SY | SID | SNAME | Security | ENCRYP | STYPE
    | NLIPS | NPIXPL | NWDTH | NBPP | SDLVL | SALVL
    | SLOCRow | SLOCColumn | SLOC2Row | SLOC2Column
    | SCOLOR | SNUM | SROT | NELUT | LUTEntry
    | SXSHDL | SXSOFL | SXSHD

  /** One successful read: the field it belongs to and the bytes it consumed. */
  datatype Event = Read(field: Field, bytes: seq<byte>)

  /** A reader position together with the reads performed so far. */
  datatype Cursor = Cursor(pos: nat, trace: seq<Event>)

  /** Why a read or a check raised a `NitfFormatException`. */
  datatype FormatReason =
    | Truncated             // fewer bytes remain than the field needs
    | WrongMagic            // the header does not open with the expected token
    | NotAnInteger          // the field's text is not a number
    | UnknownSymbolType     // STYPE has no enum constant
    | UnknownSymbolColour   // SCOLOR has no enum constant
    | BadSecurityMetadata   // the security block was rejected
    | LutNotPermitted       // a LUT entry for a type/colour pair that has no LUT
    | NegativeTreLength     // the TRE area handed to TRE parsing is shorter than nothing
    | BadTres               // the TRE area was rejected

  /** A failed step: the exception, and the reader state when it was raised. */
  datatype Failure = Failure(reason: FormatReason, at: Cursor)

  /** A successful step: the value read and the reader state after it. */
  datatype Got<+T> = Got(value: T, next: Cursor)

  type Step<T> = Result<Got<T>, Failure>

  /** The NITF file-type context the reader exposes (`getFileType`). */
  datatype FileType = UnknownFileType | Nitf20 | Nitf21 | Nsif10

  /**
   * How the reader turns bytes into values. Both conversions belong to the reader's
   * implementation, which is not part of this model, so they are parameters:
   * `trim` is what `readTrimmedBytes` does to the bytes it read, and `asInteger` is the
   * number `readBytesAsInteger` makes of them, or None where it throws.
   */
  datatype ReaderFormat = ReaderFormat(trim: seq<byte> -> seq<byte>, asInteger: seq<byte> -> Option<int32>)

  /** What stays fixed while a reader is used: its bytes, its conversions and its file type. */
  datatype ByteSource = ByteSource(data: seq<byte>, format: ReaderFormat, fileType: FileType)

  /** The bytes of a trace, in reading order. */
  function Flatten(t: seq<Event>): seq<byte>
  {
    if t == [] then [] else Flatten(t[..|t| - 1]) + t[|t| - 1].bytes
  }

  lemma FlattenSnoc(t: seq<Event>, e: Event)
    ensures Flatten(t + [e]) == Flatten(t) + e.bytes
  {
    assert (t + [e])[..|t|] == t;
  }

  lemma {:induction false} FlattenAppend(a: seq<Event>, b: seq<Event>)
    ensures Flatten(a + b) == Flatten(a) + Flatten(b)
    decreases |b|
  {
    if b == [] {
      assert a + b == a;
    } else {
      var b', e := b[..|b| - 1], b[|b| - 1];
      assert a + b == (a + b') + [e];
      assert b == b' + [e];
      FlattenSnoc(a + b', e);
      FlattenAppend(a, b');
      FlattenSnoc(b', e);
    }
  }

  /** The field and the width of each read, in order. */
  function Shape(es: seq<Event>): seq<(Field, nat)>
  {
    seq(|es|, i requires 0 <= i < |es| => (es[i].field, |es[i].bytes|))
  }

  /** One entry per read, holding that read's field and width. */
  lemma ShapeEntries(es: seq<Event>)
    ensures |Shape(es)| == |es| && forall i :: 0 <= i < |es| ==> Shape(es)[i] == (es[i].field, |es[i].bytes|)
  {
  }

  lemma ShapeAppend(a: seq<Event>, b: seq<Event>)
    ensures Shape(a + b) == Shape(a) + Shape(b)
  {
    assert forall i :: 0 <= i < |a + b| ==> Shape(a + b)[i] == (Shape(a) + Shape(b))[i];
  }

  /** `next` is `c` moved over the `n` bytes at `c.pos`, recorded as one read of `field`. */
  predicate Consumed(src: ByteSource, c: Cursor, next: Cursor, field: Field, n: nat)
  {
    && c.pos + n <= |src.data|
    && next == Cursor(c.pos + n, c.trace + [Read(field, src.data[c.pos..c.pos + n])])
  }

  /**
   * Going from `c` to `next` performed the reads `es`, which together cover exactly the
   * bytes between the two positions, in order.
   */
  ghost predicate Reads(src: ByteSource, c: Cursor, next: Cursor, es: seq<Event>)
  {
    c.pos <= next.pos <= |src.data| && next.trace == c.trace + es && Flatten(es) == src.data[c.pos..next.pos]
  }

  lemma ConsumedReads(src: ByteSource, c: Cursor, next: Cursor, field: Field, n: nat)
    requires Consumed(src, c, next, field, n)
    ensures Reads(src, c, next, [Read(field, src.data[c.pos..c.pos + n])])
  {
    FlattenSnoc([], Read(field, src.data[c.pos..c.pos + n]));
  }

  /** A stretch of reads followed by one more read. */
  lemma ConsumedThen(src: ByteSource, start: Cursor, c: Cursor, next: Cursor, es: seq<Event>, field: Field, n: nat)
    requires Reads(src, start, c, es) && Consumed(src, c, next, field, n)
    ensures Reads(src, start, next, es + [Read(field, src.data[c.pos..c.pos + n])])
  {
    ConsumedReads(src, c, next, field, n);
    ReadsThen(src, start, c, next, es, [Read(field, src.data[c.pos..c.pos + n])]);
  }

  lemma ReadsNothing(src: ByteSource, c: Cursor)
    requires c.pos <= |src.data|
    ensures Reads(src, c, c, [])
  {
    assert c.trace + [] == c.trace;
  }

  /** Reads performed one after the other are the reads of the whole stretch. */
  lemma ReadsThen(src: ByteSource, c: Cursor, mid: Cursor, next: Cursor, es1: seq<Event>, es2: seq<Event>)
    requires Reads(src, c, mid, es1) && Reads(src, mid, next, es2)
    ensures Reads(src, c, next, es1 + es2)
  {
    FlattenAppend(es1, es2);
    SliceJoin(src.data, c.pos, mid.pos, next.pos);
    assert c.trace + es1 + es2 == c.trace + (es1 + es2);
  }

  lemma SliceJoin(data: seq<byte>, i: nat, j: nat, k: nat)
    requires i <= j <= k <= |data|
    ensures data[i..j] + data[j..k] == data[i..k]
  {
  }

  /** Two reads one after the other: the stretch they cover and the bytes of each. */
  lemma TwoReads(src: ByteSource, c0: Cursor, c1: Cursor, c2: Cursor, f1: Field, n1: nat, f2: Field, n2: nat)
    returns (es: seq<Event>)
    requires Consumed(src, c0, c1, f1, n1) && Consumed(src, c1, c2, f2, n2)
    ensures es == [Read(f1, src.data[c0.pos..c1.pos]), Read(f2, src.data[c1.pos..c2.pos])]
    ensures Reads(src, c0, c2, es) && Shape(es) == [(f1, n1), (f2, n2)]
  {
    var e1, e2 := Read(f1, src.data[c0.pos..c1.pos]), Read(f2, src.data[c1.pos..c2.pos]);
    ConsumedReads(src, c0, c1, f1, n1);
    ConsumedReads(src, c1, c2, f2, n2);
    ReadsThen(src, c0, c1, c2, [e1], [e2]);
    es := [e1] + [e2];
  }

  /** Three reads one after the other: the stretch they cover and the bytes of each. */
  lemma ThreeReads(src: ByteSource, c0: Cursor, c1: Cursor, c2: Cursor, c3: Cursor,
                   f1: Field, n1: nat, f2: Field, n2: nat, f3: Field, n3: nat)
    returns (es: seq<Event>)
    requires Consumed(src, c0, c1, f1, n1) && Consumed(src, c1, c2, f2, n2) && Consumed(src, c2, c3, f3, n3)
    ensures es == [Read(f1, src.data[c0.pos..c1.pos]), Read(f2, src.data[c1.pos..c2.pos]), Read(f3, src.data[c2.pos..c3.pos])]
    ensures Reads(src, c0, c3, es) && Shape(es) == [(f1, n1), (f2, n2), (f3, n3)]
  {
    var front := TwoReads(src, c0, c1, c2, f1, n1, f2, n2);
    ConsumedThen(src, c0, c2, c3, front, f3, n3);
    es := front + [Read(f3, src.data[c2.pos..c3.pos])];
  }

  /** The reads recorded in `c` are exactly the bytes between `start` and `c.pos`. */
  ghost predicate Faithful(src: ByteSource, start: nat, c: Cursor)
  {
    start <= c.pos <= |src.data| && Flatten(c.trace) == src.data[start..c.pos]
  }

  /** Reading keeps the trace faithful to the bytes: it records just the bytes it moved over. */
  lemma ReadsKeepFaithful(src: ByteSource, start: nat, c: Cursor, next: Cursor, es: seq<Event>)
    requires Faithful(src, start, c) && Reads(src, c, next, es)
    ensures Faithful(src, start, next)
  {
    FlattenAppend(c.trace, es);
    assert src.data[start..c.pos] + src.data[c.pos..next.pos] == src.data[start..next.pos];
  }

  /** `readBytes(n)`: the next `n` bytes, or a failure that consumes nothing. */
  function ReadBytesStep(src: ByteSource, c: Cursor, field: Field, n: nat): (s: Step<seq<byte>>)
    ensures s.Ok? <==> c.pos + n <= |src.data|
    ensures s.Ok? ==> Consumed(src, c, s.value.next, field, n) && s.value.value == src.data[c.pos..c.pos + n]
    ensures s.Err? ==> s.error == Failure(Truncated, c)
  {
    if c.pos + n <= |src.data| then
      var bytes := src.data[c.pos..c.pos + n];
      Ok(Got(bytes, Cursor(c.pos + n, c.trace + [Read(field, bytes)])))
    else
      Err(Failure(Truncated, c))
  }

  /** `readTrimmedBytes(n)`: as `readBytes(n)`, the value trimmed. */
  function ReadTrimmedBytesStep(src: ByteSource, c: Cursor, field: Field, n: nat): (s: Step<seq<byte>>)
    ensures s.Ok? <==> c.pos + n <= |src.data|
    ensures s.Ok? ==> Consumed(src, c, s.value.next, field, n) && s.value.value == src.format.trim(src.data[c.pos..c.pos + n])
    ensures s.Err? ==> s.error == Failure(Truncated, c)
  {
    var g :- ReadBytesStep(src, c, field, n);
    Ok(Got(src.format.trim(g.value), g.next))
  }

  /** `readBytesAsInteger(n)`: the number written in the next `n` bytes; a failure consumes nothing. */
  function ReadBytesAsIntegerStep(src: ByteSource, c: Cursor, field: Field, n: nat): (s: Step<int32>)
    ensures s.Ok? <==> c.pos + n <= |src.data| && src.format.asInteger(src.data[c.pos..c.pos + n]).Some?
    ensures s.Ok? ==> Consumed(src, c, s.value.next, field, n) && Some(s.value.value) == src.format.asInteger(src.data[c.pos..c.pos + n])
    ensures s.Err? ==> s.error.at == c && (s.error.reason == Truncated || s.error.reason == NotAnInteger)
  {
    var g :- ReadBytesStep(src, c, field, n);
    match src.format.asInteger(g.value)
    case Some(v) => Ok(Got(v, g.next))
    case None => Err(Failure(NotAnInteger, c))
  }

  /** `skip(n)`: moves over the next `n` bytes; a failure consumes nothing. */
  function SkipStep(src: ByteSource, c: Cursor, field: Field, n: nat): (s: Step<()>)
    ensures s.Ok? <==> c.pos + n <= |src.data|
    ensures s.Ok? ==> Consumed(src, c, s.value.next, field, n)
    ensures s.Err? ==> s.error == Failure(Truncated, c)
  {
    var g :- ReadBytesStep(src, c, field, n);
    Ok(Got((), g.next))
  }

  /** `verifyHeaderMagic(magic)`: succeeds, consuming the token, exactly when the next bytes are `magic`. */
  function VerifyHeaderMagicStep(src: ByteSource, c: Cursor, field: Field, magic: seq<byte>): (s: Step<()>)
    ensures s.Ok? <==> c.pos + |magic| <= |src.data| && src.data[c.pos..c.pos + |magic|] == magic
    ensures s.Ok? ==> Consumed(src, c, s.value.next, field, |magic|)
    ensures s.Err? ==> s.error.at == c && (s.error.reason == Truncated || s.error.reason == WrongMagic)
  {
    var g :- ReadBytesStep(src, c, field, |magic|);
    if g.value == magic then Ok(Got((), g.next)) else Err(Failure(WrongMagic, c))
  }

  /**
   * A block read by a collaborator that decides its own length: `decode` looks at the
   * remaining bytes and returns a value and how many bytes it used, or None to reject them.
   */
  function ReadDelegatedStep<T>(src: ByteSource, c: Cursor, field: Field,
                                decode: seq<byte> -> Option<(T, nat)>, reason: FormatReason): (s: Step<T>)
    requires c.pos <= |src.data|
    ensures s.Ok? <==> decode(src.data[c.pos..]).Some? && c.pos + decode(src.data[c.pos..]).value.1 <= |src.data|
    ensures s.Ok? ==> var (v, n) := decode(src.data[c.pos..]).value; s.value.value == v && Consumed(src, c, s.value.next, field, n)
    ensures s.Err? ==> s.error.at == c
  {
    match decode(src.data[c.pos..])
    case None => Err(Failure(reason, c))
    case Some((v, n)) =>
      var g :- ReadBytesStep(src, c, field, n);
      Ok(Got(v, g.next))
  }

  /**
   * The reader. `source` never changes; `pos` advances on every successful read, never
   * past the end of the data. The ghost `trace` lists the reads since `start`; every
   * method moves the reader as its `...Step` specification does, and
   * `ReadsKeepFaithful` shows that the trace then stays exactly the bytes between
   * `start` and `pos`.
   */
  class NitfReader {
    const source: ByteSource
    ghost const start: nat
    var pos: nat
    ghost var trace: seq<Event>

    ghost predicate Valid()
      reads this
    {
      start <= pos <= |source.data|
    }

    ghost function At(): Cursor
      reads this
    {
      Cursor(pos, trace)
    }

    /** The method returned `r` and left the reader where the specification step `s` says. */
    ghost predicate Performed<T>(r: Result<T, FormatReason>, s: Step<T>)
      reads this
    {
      match s
      case Ok(g) => r == Ok(g.value) && At() == g.next
      case Err(f) => r == Err(f.reason) && At() == f.at
    }

    /** As `Performed`, for a method that keeps no value. */
    ghost predicate Did<T>(o: Outcome<FormatReason>, s: Step<T>)
      reads this
    {
      match s
      case Ok(g) => o == Pass && At() == g.next
      case Err(f) => o == Fail(f.reason) && At() == f.at
    }

    constructor (source: ByteSource, offset: nat)
      requires offset <= |source.data|
      ensures Valid() && this.source == source && start == offset && At() == Cursor(offset, [])
    {
      this.source := source;
      start := offset;
      pos := offset;
      trace := [];
    }

    function GetFileType(): FileType
    {
      source.fileType
    }

    /** Moves over `n` bytes that are known to be there, recording them as one read of `field`. */
    method Advance(n: nat, ghost field: Field) returns (bytes: seq<byte>)
      requires Valid() && pos + n <= |source.data|
      modifies this
      ensures Valid() && Consumed(source, old(At()), At(), field, n)
      ensures bytes == source.data[old(pos)..old(pos) + n]
    {
      bytes := source.data[pos..pos + n];
      pos := pos + n;
      trace := trace + [Read(field, bytes)];
    }

    method VerifyHeaderMagic(magic: seq<byte>, ghost field: Field) returns (o: Outcome<FormatReason>)
      requires Valid()
      modifies this
      ensures Valid() && Did(o, VerifyHeaderMagicStep(source, old(At()), field, magic))
    {
      if pos + |magic| > |source.data| {
        return Fail(Truncated);
      }
      if source.data[pos..pos + |magic|] != magic {
        return Fail(WrongMagic);
      }
      var _ := Advance(|magic|, field);
      return Pass;
    }

    method ReadBytes(count: nat, ghost field: Field) returns (r: Result<seq<byte>, FormatReason>)
      requires Valid()
      modifies this
      ensures Valid() && Performed(r, ReadBytesStep(source, old(At()), field, count))
    {
      if pos + count > |source.data| {
        return Err(Truncated);
      }
      var bytes := Advance(count, field);
      return Ok(bytes);
    }

    method ReadTrimmedBytes(count: nat, ghost field: Field) returns (r: Result<seq<byte>, FormatReason>)
      requires Valid()
      modifies this
      ensures Valid() && Performed(r, ReadTrimmedBytesStep(source, old(At()), field, count))
    {
      var raw := ReadBytes(count, field);
      if raw.Err? {
        return Err(raw.error);
      }
      return Ok(source.format.trim(raw.value));
    }

    method ReadBytesAsInteger(count: nat, ghost field: Field) returns (r: Result<int32, FormatReason>)
      requires Valid()
      modifies this
      ensures Valid() && Performed(r, ReadBytesAsIntegerStep(source, old(At()), field, count))
    {
      if pos + count > |source.data| {
        return Err(Truncated);
      }
      match source.format.asInteger(source.data[pos..pos + count])
      case None =>
        return Err(NotAnInteger);
      case Some(v) =>
        var _ := Advance(count, field);
        return Ok(v);
    }

    method Skip(count: nat, ghost field: Field) returns (o: Outcome<FormatReason>)
      requires Valid()
      modifies this
      ensures Valid() && Did(o, SkipStep(source, old(At()), field, count))
    {
      if pos + count > |source.data| {
        return Fail(Truncated);
      }
      var _ := Advance(count, field);
      return Pass;
    }

    /** Hands the remaining bytes to `decode` and moves over as many as it used. */
    method ReadDelegated<T>(decode: seq<byte> -> Option<(T, nat)>, reason: FormatReason, ghost field: Field)
      returns (r: Result<T, FormatReason>)
      requires Valid()
      modifies this
      ensures Valid() && Performed(r, ReadDelegatedStep(source, old(At()), field, decode, reason))
    {
      match decode(source.data[pos..])
      case None =>
        return Err(reason);
      case Some((v, n)) =>
        if pos + n > |source.data| {
          return Err(Truncated);
        }
        var _ := Advance(n, field);
        return Ok(v);
    }
  }
}
