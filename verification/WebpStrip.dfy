/**
 * WebP covers without their EXIF and XMP chunks (stripWebp in src/lib/cover-strip.ts; RIFF chunks
 * as in section 2 of RFC 9649).
 */
module WebpStrip {
  import opened Bytes
  import opened ByteLists

  const HEADER: nat := 12

  /** A file after its header: chunks with their padding, then less than a chunk header. */
  datatype Chunks = Broken | Rest(rest: ByteList) | Chunk(bytes: seq<byte>, next: Chunks)

  function Le32(l: ByteList): nat {
    At(l, 4) as nat + At(l, 5) as nat * 0x100 + At(l, 6) as nat * 0x1_0000 + At(l, 7) as nat * 0x100_0000
  }

  function Tag(l: ByteList): seq<byte> {
    [At(l, 0), At(l, 1), At(l, 2), At(l, 3)]
  }

  const RIFF: seq<byte> := [0x52, 0x49, 0x46, 0x46]
  const WEBP: seq<byte> := [0x57, 0x45, 0x42, 0x50]
  const EXIF: seq<byte> := [0x45, 0x58, 0x49, 0x46]
  const XMP: seq<byte> := [0x58, 0x4D, 0x50, 0x20]
  const VP8X: seq<byte> := [0x56, 0x50, 0x38, 0x58]

  /** The chunk at the head ends here, its pad byte with it if the file has one. */
  function Stop(l: ByteList): nat {
    var len := Le32(l);
    if 8 + len + len % 2 <= Length(l) then 8 + len + len % 2 else Length(l)
  }

  function Parse(l: ByteList): Chunks
    decreases Length(l)
  {
    if Length(l) < 8 then Rest(l)
    else if 8 + Le32(l) > Length(l) then Broken
    else Chunk(Take(l, Stop(l)), Parse(Suffix(l, Stop(l))))
  }

  function Put(c: Chunks): ByteList {
    match c
    case Broken => Nil
    case Rest(rest) => rest
    case Chunk(bytes, next) => From(bytes, 0, Put(next))
  }

  predicate Whole(c: Chunks) {
    match c
    case Broken => false
    case Rest(_) => true
    case Chunk(_, next) => Whole(next)
  }

  function Head(bytes: seq<byte>): ByteList {
    From(bytes, 0, Nil)
  }

  predicate Drops(bytes: seq<byte>) {
    Tag(Head(bytes)) == EXIF || Tag(Head(bytes)) == XMP
  }

  /** The chunks that go, and the one whose flags change, by name. */
  lemma DropsByName(bytes: seq<byte>)
    requires |bytes| >= 4
    ensures Drops(bytes) <==> Ascii(bytes[..4]) in ["EXIF", "XMP "]
    ensures Tag(Head(bytes)) == VP8X <==> Ascii(bytes[..4]) == "VP8X"
  {
    FromAt(bytes, 0, Nil, 0);
    FromAt(bytes, 0, Nil, 1);
    FromAt(bytes, 0, Nil, 2);
    FromAt(bytes, 0, Nil, 3);
    assert Tag(Head(bytes)) == bytes[..4];
    NameIs(bytes[..4], EXIF, "EXIF");
    NameIs(bytes[..4], XMP, "XMP ");
    NameIs(bytes[..4], VP8X, "VP8X");
  }

  predicate Dropped(c: Chunks) {
    c.Chunk? && (Drops(c.bytes) || Dropped(c.next))
  }

  /** A flags byte without 0x08 and 0x04, which say there is Exif and XMP. */
  function WithoutFlags(flags: byte): (f: byte)
    ensures f / 16 == flags / 16 && f % 4 == flags % 4 && f / 4 % 4 == 0
  {
    flags / 16 * 16 + flags % 4
  }

  function Cleared(bytes: seq<byte>): (s: seq<byte>)
    ensures |s| == |bytes|
  {
    if Tag(Head(bytes)) == VP8X && Le32(Head(bytes)) >= 10 && |bytes| > 8
    then bytes[8 := WithoutFlags(bytes[8])] else bytes
  }

  /** The chunk list without EXIF and XMP, VP8X no longer announcing them; what follows is dropped. */
  function Filter(c: Chunks): Chunks {
    match c
    case Chunk(bytes, next) => if Drops(bytes) then Filter(next) else Chunk(Cleared(bytes), Filter(next))
    case Rest(_) => Rest(Nil)
    case Broken => Broken
  }

  predicate IsWebp(l: ByteList) {
    Length(l) >= 20 && Tag(l) == RIFF && Tag(Suffix(l, 8)) == WEBP
  }

  /** The header with its size field set. */
  function Sized(header: seq<byte>, size: nat): (h: seq<byte>)
    requires |header| == HEADER
    ensures |h| == HEADER
  {
    header[4 := size % 256][5 := size / 0x100 % 256][6 := size / 0x1_0000 % 256][7 := size / 0x100_0000 % 256]
  }

  /** What is made of a file that loses a chunk. */
  function Remade(l: ByteList): ByteList
    requires Length(l) >= HEADER
  {
    var body := Put(Filter(Parse(Suffix(l, HEADER))));
    From(Sized(Take(l, HEADER), HEADER + Length(body) - 8), 0, body)
  }

  function Strip(l: ByteList): ByteList {
    if !IsWebp(l) then l
    else
      var c := Parse(Suffix(l, HEADER));
      if !Whole(c) || !Dropped(c) then l else Remade(l)
  }

  // ---- Chunk lists and files are the same thing ----

  /** A chunk list as a parse gives it: only the last chunk may lack its pad byte. */
  predicate Stable(c: Chunks) {
    match c
    case Broken => false
    case Rest(rest) => Length(rest) < 8
    case Chunk(bytes, next) =>
      var len := Le32(Head(bytes));
      && |bytes| >= 8
      && (|bytes| == 8 + len + len % 2 || (|bytes| == 8 + len && next == Rest(Nil)))
      && Stable(next)
  }

  lemma HeadSame(bytes: seq<byte>, rest: ByteList)
    requires |bytes| >= 8
    ensures Le32(From(bytes, 0, rest)) == Le32(Head(bytes)) && Tag(From(bytes, 0, rest)) == Tag(Head(bytes))
  {
    forall k | 0 <= k < 8 ensures At(From(bytes, 0, rest), k) == At(Head(bytes), k) {
      FromAt(bytes, 0, rest, k);
      FromAt(bytes, 0, Nil, k);
    }
  }

  lemma {:induction false} ParseIsStable(l: ByteList)
    requires Whole(Parse(l))
    ensures Stable(Parse(l)) && Put(Parse(l)) == l
    decreases Length(l)
  {
    if Length(l) >= 8 {
      var n := Stop(l);
      TakeBack(l, n);
      HeadSame(Take(l, n), Suffix(l, n));
      ParseIsStable(Suffix(l, n));
      if n == Length(l) { assert Suffix(l, n) == Nil; }
    }
  }

  lemma {:induction false} ParsePut(c: Chunks)
    requires Stable(c)
    ensures Parse(Put(c)) == c
  {
    if c.Chunk? {
      HeadSame(c.bytes, Put(c.next));
      PutPiece(c.bytes, Put(c.next));
      ParsePut(c.next);
    }
  }

  /** Clearing the flags changes no chunk's tag or length. */
  lemma ClearedHead(bytes: seq<byte>)
    requires |bytes| >= 8
    ensures Le32(Head(Cleared(bytes))) == Le32(Head(bytes)) && Tag(Head(Cleared(bytes))) == Tag(Head(bytes))
  {
    forall k | 0 <= k < 8 ensures At(Head(Cleared(bytes)), k) == At(Head(bytes), k) {
      FromAt(Cleared(bytes), 0, Nil, k);
      FromAt(bytes, 0, Nil, k);
    }
  }

  lemma {:induction false} FilterIsStable(c: Chunks)
    requires Stable(c)
    ensures Stable(Filter(c)) && !Dropped(Filter(c))
  {
    if c.Chunk? {
      FilterIsStable(c.next);
      ClearedHead(c.bytes);
    }
  }

  lemma FourBytes(n: nat)
    ensures n % 256 + n / 0x100 % 256 * 0x100 + n / 0x1_0000 % 256 * 0x1_0000 + n / 0x100_0000 % 256 * 0x100_0000
         == n % 0x1_0000_0000
  {
    var n1 := n / 0x100;
    var n2 := n1 / 0x100;
    var n3 := n2 / 0x100;
    assert n / 0x1_0000 == n2 && n / 0x100_0000 == n3;
    assert n == n % 256 + 0x100 * (n1 % 256) + 0x1_0000 * (n2 % 256)
                + 0x100_0000 * (n3 % 256) + 0x1_0000_0000 * (n3 / 256);
  }

  lemma SizedHeader(header: seq<byte>, size: nat, rest: ByteList)
    requires |header| == HEADER
    ensures Le32(From(Sized(header, size), 0, rest)) == size % 0x1_0000_0000
    ensures forall k :: 0 <= k < HEADER && !(4 <= k < 8) ==> At(From(Sized(header, size), 0, rest), k) == header[k]
  {
    var h := Sized(header, size);
    forall k | 0 <= k < HEADER ensures At(From(h, 0, rest), k) == h[k] {
      FromAt(h, 0, rest, k);
    }
    assert Le32(From(h, 0, rest)) == h[4] as nat + h[5] as nat * 0x100
                                     + h[6] as nat * 0x1_0000 + h[7] as nat * 0x100_0000;
    FourBytes(size);
  }

  lemma RemadeParses(l: ByteList)
    requires Length(l) >= HEADER && Whole(Parse(Suffix(l, HEADER)))
    ensures Length(Remade(l)) >= HEADER && Parse(Suffix(Remade(l), HEADER)) == Filter(Parse(Suffix(l, HEADER)))
    ensures !Dropped(Parse(Suffix(Remade(l), HEADER)))
  {
    var c := Parse(Suffix(l, HEADER));
    var body := Put(Filter(c));
    ParseIsStable(Suffix(l, HEADER));
    FilterIsStable(c);
    ParsePut(Filter(c));
    PutPiece(Sized(Take(l, HEADER), HEADER + Length(body) - 8), body);
  }

  lemma RemadeHeader(l: ByteList)
    requires Length(l) >= HEADER
    ensures Le32(Remade(l)) == (Length(Remade(l)) - 8) % 0x1_0000_0000
    ensures forall k :: 0 <= k < HEADER && !(4 <= k < 8) ==> At(Remade(l), k) == At(l, k)
  {
    var header, body := Take(l, HEADER), Put(Filter(Parse(Suffix(l, HEADER))));
    SizedHeader(header, HEADER + Length(body) - 8, body);
    forall k | 0 <= k < HEADER ensures header[k] == At(l, k) { TakeAt(l, HEADER, k); }
  }

  /**
   * When something is dropped, the chunks of the stripped file are the file's, filtered; of its
   * header only the size changes, to what follows it.
   */
  lemma StripFilters(l: ByteList)
    requires IsWebp(l) && Whole(Parse(Suffix(l, HEADER))) && Dropped(Parse(Suffix(l, HEADER)))
    ensures Length(Strip(l)) >= HEADER && Parse(Suffix(Strip(l), HEADER)) == Filter(Parse(Suffix(l, HEADER)))
    ensures !Dropped(Parse(Suffix(Strip(l), HEADER)))
    ensures Le32(Strip(l)) == (Length(Strip(l)) - 8) % 0x1_0000_0000
    ensures forall k :: 0 <= k < HEADER && !(4 <= k < 8) ==> At(Strip(l), k) == At(l, k)
  {
    RemadeParses(l);
    RemadeHeader(l);
  }

  lemma StripTwice(l: ByteList)
    ensures Strip(Strip(l)) == Strip(l)
  {
    if IsWebp(l) && Whole(Parse(Suffix(l, HEADER))) && Dropped(Parse(Suffix(l, HEADER))) { StripFilters(l); }
  }

  // ---- The code ----

  predicate TagAt(b: seq<byte>, i: nat, tag: seq<byte>)
    requires |tag| == 4
  {
    |b| >= i + 4 && b[i] == tag[0] && b[i + 1] == tag[1] && b[i + 2] == tag[2] && b[i + 3] == tag[3]
  }

  function LengthAt(b: seq<byte>, i: nat): nat
    requires i + 8 <= |b|
  {
    b[i + 4] as nat + b[i + 5] as nat * 0x100 + b[i + 6] as nat * 0x1_0000 + b[i + 7] as nat * 0x100_0000
  }

  lemma FieldsAt(b: seq<byte>, i: nat)
    requires i + 8 <= |b|
    ensures Le32(From(b, i, Nil)) == LengthAt(b, i)
    ensures Tag(From(b, i, Nil)) == [b[i], b[i + 1], b[i + 2], b[i + 3]]
  {
    forall k | 0 <= k < 8 ensures At(From(b, i, Nil), k) == b[i + k] { FromAt(b, i, Nil, k); }
  }

  /** The chunk at i, as the walk takes it off. */
  lemma ChunkAt(b: seq<byte>, i: nat, stop: nat)
    requires i + 8 <= |b| && i + 8 + LengthAt(b, i) <= |b|
    requires stop == if i + 8 + LengthAt(b, i) + LengthAt(b, i) % 2 <= |b|
                     then i + 8 + LengthAt(b, i) + LengthAt(b, i) % 2 else |b|
    ensures Parse(From(b, i, Nil)) == Chunk(b[i..stop], Parse(From(b, stop, Nil)))
  {
    FieldsAt(b, i);
    FromTake(b, i, Nil, stop - i);
    FromSuffix(b, i, Nil, stop - i);
  }

  lemma PieceAt(b: seq<byte>, i: nat, stop: nat)
    requires i + 8 <= stop <= |b|
    ensures Drops(b[i..stop]) <==> TagAt(b, i, EXIF) || TagAt(b, i, XMP)
    ensures Cleared(b[i..stop]) == if TagAt(b, i, VP8X) && LengthAt(b, i) >= 10 && i + 8 < stop
                                   then b[i..stop][8 := WithoutFlags(b[i + 8])] else b[i..stop]
  {
    var piece := b[i..stop];
    assert forall k :: 0 <= k < 8 ==> piece[k] == b[i + k];
    FieldsAt(piece, 0);
    TagMatches(piece, 0, EXIF);
    TagMatches(piece, 0, XMP);
    TagMatches(piece, 0, VP8X);
  }

  /** What the walk has kept so far and what it has left make the stripped body. */
  ghost predicate Walks(left: Chunks, dropped: bool, parts: seq<seq<byte>>, c: Chunks) {
    && Whole(left) == Whole(c) && (dropped || Dropped(left)) == Dropped(c)
    && Glue(parts, |parts|, Put(Filter(left))) == Put(Filter(c))
  }

  lemma WalksOn(left: Chunks, dropped: bool, parts: seq<seq<byte>>, c: Chunks)
    requires Walks(left, dropped, parts, c) && left.Chunk?
    ensures if Drops(left.bytes) then Walks(left.next, true, parts, c)
            else Walks(left.next, dropped, parts + [Cleared(left.bytes)], c)
  {
    GlueMore(parts, Cleared(left.bytes), Put(Filter(left.next)));
  }

  /** The walk at i, which a missing pad byte may put one past the end. */
  ghost predicate WalksAt(b: seq<byte>, i: nat, dropped: bool, parts: seq<seq<byte>>, c: Chunks) {
    Walks(if i <= |b| then Parse(From(b, i, Nil)) else Rest(Nil), dropped, parts, c)
  }

  /** The chunk at i, taken off: dropped, cleared or kept as it is. */
  lemma ChunkTaken(b: seq<byte>, i: nat, stop: nat, dropped: bool, parts: seq<seq<byte>>, c: Chunks)
    requires i + 8 <= |b| && i + 8 + LengthAt(b, i) <= |b| && WalksAt(b, i, dropped, parts, c)
    requires stop == if i + 8 + LengthAt(b, i) + LengthAt(b, i) % 2 <= |b|
                     then i + 8 + LengthAt(b, i) + LengthAt(b, i) % 2 else |b|
    ensures var end := i + 8 + LengthAt(b, i) + LengthAt(b, i) % 2;
            if TagAt(b, i, EXIF) || TagAt(b, i, XMP) then WalksAt(b, end, true, parts, c)
            else if TagAt(b, i, VP8X) && LengthAt(b, i) >= 10 then
              WalksAt(b, end, dropped, parts + [b[i..stop][8 := WithoutFlags(b[i + 8])]], c)
            else WalksAt(b, end, dropped, parts + [b[i..stop]], c)
  {
    ChunkAt(b, i, stop);
    PieceAt(b, i, stop);
    WalksOn(Parse(From(b, i, Nil)), dropped, parts, c);
  }

  lemma TagMatches(b: seq<byte>, i: nat, tag: seq<byte>)
    requires i + 8 <= |b| && |tag| == 4
    ensures Tag(From(b, i, Nil)) == tag <==> TagAt(b, i, tag)
  {
    FieldsAt(b, i);
    assert tag == [tag[0], tag[1], tag[2], tag[3]];
  }

  lemma WalkBegins(b: seq<byte>)
    requires |b| >= 20
    ensures IsWebp(From(b, 0, Nil)) == (TagAt(b, 0, RIFF) && TagAt(b, 8, WEBP))
    ensures Suffix(From(b, 0, Nil), HEADER) == From(b, HEADER, Nil) && Take(From(b, 0, Nil), HEADER) == b[..HEADER]
  {
    TagMatches(b, 0, RIFF);
    FromSuffix(b, 0, Nil, 8);
    TagMatches(b, 8, WEBP);
    FromSuffix(b, 0, Nil, HEADER);
    FromTake(b, 0, Nil, HEADER);
  }

  /** The 12 bytes of header and the body, with the size written over the header's. */
  method WithSize(header: seq<byte>, body: seq<byte>) returns (out: seq<byte>)
    requires |header| == HEADER
    ensures out == Sized(header, HEADER + |body| - 8) + body
  {
    var buffer := new byte[HEADER + |body|];
    forall i | 0 <= i < HEADER { buffer[i] := header[i]; }
    forall i | 0 <= i < |body| { buffer[HEADER + i] := body[i]; }
    var size := buffer.Length - 8;
    buffer[4] := size % 256;
    buffer[5] := size / 0x100 % 256;
    buffer[6] := size / 0x1_0000 % 256;
    buffer[7] := size / 0x100_0000 % 256;
    out := buffer[..];
    assert out[..HEADER] == Sized(header, size) && out[HEADER..] == body;
  }

  /** A VP8X chunk copied, its flags cleared. */
  method ClearFlags(bytes: seq<byte>) returns (out: seq<byte>)
    requires |bytes| > 8
    ensures out == bytes[8 := WithoutFlags(bytes[8])]
  {
    out := bytes[8 := WithoutFlags(bytes[8])];
  }

  /** The loop over chunks: not ok means the structure does not hold. */
  method WalkChunks(b: seq<byte>) returns (ok: bool, dropped: bool, parts: seq<seq<byte>>)
    requires |b| >= HEADER
    ensures var c := Parse(From(b, HEADER, Nil));
            ok == Whole(c) && (ok ==> dropped == Dropped(c) && Glue(parts, |parts|, Nil) == Put(Filter(c)))
  {
    ghost var c := Parse(From(b, HEADER, Nil));
    dropped, parts := false, [];
    var i := HEADER;
    while i + 8 <= |b|
      invariant HEADER <= i <= |b| + 1 && WalksAt(b, i, dropped, parts, c)
      decreases |b| - i
    {
      FieldsAt(b, i);
      var len := LengthAt(b, i);
      var end := i + 8 + len + len % 2;
      if i + 8 + len > |b| { return false, dropped, parts; }
      var stop := if end < |b| then end else |b|;
      ChunkTaken(b, i, stop, dropped, parts, c);
      if TagAt(b, i, EXIF) || TagAt(b, i, XMP) {
        dropped := true;
      } else if TagAt(b, i, VP8X) && len >= 10 {
        var chunk := ClearFlags(b[i..stop]);
        parts := parts + [chunk];
      } else {
        parts := parts + [b[i..stop]];
      }
      i := end;
    }
    ok := true;
  }

  lemma JoinedAfter(header: seq<byte>, parts: seq<seq<byte>>)
    ensures var body, rest := Joined(parts, |parts|), Glue(parts, |parts|, Nil);
            Length(rest) == |body| && From(header + body, 0, Nil) == From(header, 0, rest)
  {
    GlueIsJoined(parts, |parts|, Nil);
    FromConcat(header, Joined(parts, |parts|), 0, Nil);
  }

  /** The size is that of what the parts come to as a list. */
  lemma SizedJoined(header: seq<byte>, parts: seq<seq<byte>>)
    requires |header| == HEADER
    ensures var body, rest := Joined(parts, |parts|), Glue(parts, |parts|, Nil);
            From(Sized(header, HEADER + |body| - 8) + body, 0, Nil)
            == From(Sized(header, HEADER + Length(rest) - 8), 0, rest)
  {
    JoinedAfter(Sized(header, HEADER + |Joined(parts, |parts|)| - 8), parts);
  }

  method StripWebp(b: seq<byte>) returns (out: seq<byte>)
    ensures From(out, 0, Nil) == Strip(From(b, 0, Nil))
  {
    if |b| < 20 { return b; }
    WalkBegins(b);
    if !TagAt(b, 0, RIFF) || !TagAt(b, 8, WEBP) { return b; }
    var ok, dropped, parts := WalkChunks(b);
    if !ok || !dropped { return b; }
    var body := Concat(parts);
    out := WithSize(b[..HEADER], body);
    SizedJoined(b[..HEADER], parts);
  }
}
