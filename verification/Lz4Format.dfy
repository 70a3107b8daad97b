/**
 * The LZ4 block format, written from its public description ("LZ4 Block Format
 * Description", sections "Compressed block format" and "End of block conditions"): the
 * decoder the encoder is judged against. It knows nothing of how blocks are made.
 */
module Lz4Format {
  import opened Bytes

  /** The 255-run after a nibble of 15: bytes are added up to and including the first below 255. */
  function ReadRun(b: ByteList): (r: Option<(nat, ByteList)>)
    ensures r.Some? ==> Length(r.value.1) < Length(b)
  {
    match b
    case Nil => None
    case Cons(x, tail) =>
      if x < 255 then Some((x, tail))
      else match ReadRun(tail) {
             case None => None
             case Some((n, rest)) => Some((255 + n, rest))
           }
  }

  /** A length field: the nibble itself, or 15 and its run. */
  function ReadLength(nibble: nat, b: ByteList): (r: Option<(nat, ByteList)>)
    ensures r.Some? ==> Length(r.value.1) <= Length(b)
  {
    if nibble < 15 then Some((nibble, b))
    else match ReadRun(b) {
           case None => None
           case Some((n, rest)) => Some((15 + n, rest))
         }
  }

  /** The next n bytes, and what follows them. */
  function ReadLiterals(n: nat, b: ByteList): (r: Option<(ByteList, ByteList)>)
    ensures r.Some? ==> Length(r.value.1) <= Length(b)
  {
    if n == 0 then Some((Nil, b))
    else match b {
           case Nil => None
           case Cons(x, tail) =>
             match ReadLiterals(n - 1, tail) {
               case None => None
               case Some((lits, rest)) => Some((Cons(x, lits), rest))
             }
         }
  }

  /** One sequence of a block: the last one is only literals. */
  datatype Sequence =
    | Malformed
    | Last(lits: ByteList)
    | Copy(lits: ByteList, off: nat, len: nat, next: ByteList)

  function ReadSequence(block: ByteList): (r: Sequence)
    ensures r.Copy? ==> Length(r.next) < Length(block)
  {
    match block
    case Nil => Malformed
    case Cons(token, tail) =>
      match ReadLength(token / 16, tail) {
        case None => Malformed
        case Some((lit, more)) =>
          match ReadLiterals(lit, more) {
            case None => Malformed
            case Some((lits, Nil)) => Last(lits)
            case Some((lits, rest)) => ReadCopy(lits, token % 16, rest)
          }
      }
  }

  /** The rest of a sequence after its literals: the offset, little-endian, and the match length. */
  function ReadCopy(lits: ByteList, nibble: nat, rest: ByteList): (r: Sequence)
    ensures r.Copy? ==> Length(r.next) < Length(rest)
  {
    match rest
    case Cons(lo, Cons(hi, more)) =>
      (match ReadLength(nibble, more) {
         case None => Malformed
         case Some((ml, next)) => Copy(lits, lo as nat + 256 * hi as nat, ml + 4, next)
       })
    case _ => Malformed
  }

  /** A whole block as the sequences read from it. */
  datatype Sequences =
    | Bad
    | End(lits: ByteList)
    | Then(lits: ByteList, off: nat, len: nat, rest: Sequences)

  function ReadBlock(block: ByteList): (r: Sequences)
    decreases Length(block)
  {
    match ReadSequence(block)
    case Malformed => Bad
    case Last(lits) => End(lits)
    case Copy(lits, off, len, next) => Then(lits, off, len, ReadBlock(next))
  }

  function CopyLiterals(out: seq<byte>, lits: ByteList): (r: seq<byte>)
    ensures |r| == |out| + Length(lits)
    decreases lits
  {
    match lits
    case Nil => out
    case Cons(b, tail) => CopyLiterals(out + [b], tail)
  }

  /** `len` bytes copied one at a time from `off` back: an overlapping copy repeats. */
  function CopyMatch(out: seq<byte>, off: nat, len: nat): (r: seq<byte>)
    requires 0 < off <= |out|
    decreases len
  {
    if len == 0 then out else CopyMatch(out + [out[|out| - off]], off, len - 1)
  }

  /**
   * The sequences replayed after `out`, the window followed by what is decoded so far. None when
   * they are malformed, an offset is 0, or a match reaches below the window.
   */
  function Replay(s: Sequences, out: seq<byte>): (r: Option<seq<byte>>) {
    match s
    case Bad => None
    case End(lits) => Some(CopyLiterals(out, lits))
    case Then(lits, off, len, rest) =>
      var more := CopyLiterals(out, lits);
      if off == 0 || off > |more| then None else Replay(rest, CopyMatch(more, off, len))
  }

  /** Decoding a block with `window` before it: the window and what the block holds. */
  function Decode(block: ByteList, window: seq<byte>): Option<seq<byte>> {
    Replay(ReadBlock(block), window)
  }

  /**
   * What the format asks of a block whose bytes go to at..end of a buffer with the window at 0:
   * offsets 1..65535 inside the window, matches of 4 or more that start at least 12 bytes before
   * the end, and 5 literals last.
   */
  ghost predicate Legal(s: Sequences, at: nat, end: nat) {
    match s
    case Bad => false
    case End(lits) => at + Length(lits) == end
    case Then(lits, off, len, rest) =>
      var pos := at + Length(lits);
      && 1 <= off <= 65535 && off <= pos && len >= 4
      && pos + 12 <= end && pos + len + 5 <= end
      && Legal(rest, pos + len, end)
  }
}
