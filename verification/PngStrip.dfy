/**
 * PNG covers without their text and Exif chunks (stripPng in src/lib/cover-strip.ts; chunks as in
 * section 3 of RFC 2083).
 */
module PngStrip {
  import opened Bytes
  import opened ByteLists

  const SIGNATURE: nat := 8

  /** A file after its signature: whole chunks, then what follows IEND or is too short to be one. */
  datatype Chunks = Broken | Tail(rest: ByteList) | Chunk(bytes: seq<byte>, next: Chunks)

  function Be32(l: ByteList): nat {
    At(l, 0) as nat * 0x100_0000 + At(l, 1) as nat * 0x1_0000 + At(l, 2) as nat * 0x100 + At(l, 3) as nat
  }

  /** Length, type, data and CRC. */
  function ChunkSize(l: ByteList): nat {
    12 + Be32(l)
  }

  function Type(l: ByteList): seq<byte> {
    [At(l, 4), At(l, 5), At(l, 6), At(l, 7)]
  }

  const IEND: seq<byte> := [0x49, 0x45, 0x4E, 0x44]
  const TEXT: seq<byte> := [0x74, 0x45, 0x58, 0x74]
  const ZTXT: seq<byte> := [0x7A, 0x54, 0x58, 0x74]
  const ITXT: seq<byte> := [0x69, 0x54, 0x58, 0x74]
  const EXIF: seq<byte> := [0x65, 0x58, 0x49, 0x66]

  function Parse(l: ByteList): Chunks
    decreases Length(l)
  {
    if Length(l) < 12 then Tail(l)
    else if ChunkSize(l) > Length(l) then Broken
    else
      var n := ChunkSize(l);
      Chunk(Take(l, n), if Type(l) == IEND then Tail(Suffix(l, n)) else Parse(Suffix(l, n)))
  }

  function Put(c: Chunks): ByteList {
    match c
    case Broken => Nil
    case Tail(rest) => rest
    case Chunk(bytes, next) => From(bytes, 0, Put(next))
  }

  predicate Whole(c: Chunks) {
    match c
    case Broken => false
    case Tail(_) => true
    case Chunk(_, next) => Whole(next)
  }

  function Header(bytes: seq<byte>): ByteList {
    From(bytes, 0, Nil)
  }

  predicate Drops(bytes: seq<byte>) {
    Type(Header(bytes)) in [TEXT, ZTXT, ITXT, EXIF]
  }

  /** The chunks that go, by name. */
  lemma DropsByName(bytes: seq<byte>)
    requires |bytes| >= 8
    ensures Drops(bytes) <==> Ascii(bytes[4..8]) in ["tEXt", "zTXt", "iTXt", "eXIf"]
    ensures Type(Header(bytes)) == IEND <==> Ascii(bytes[4..8]) == "IEND"
  {
    FromAt(bytes, 0, Nil, 4);
    FromAt(bytes, 0, Nil, 5);
    FromAt(bytes, 0, Nil, 6);
    FromAt(bytes, 0, Nil, 7);
    NameIs(bytes[4..8], TEXT, "tEXt");
    NameIs(bytes[4..8], ZTXT, "zTXt");
    NameIs(bytes[4..8], ITXT, "iTXt");
    NameIs(bytes[4..8], EXIF, "eXIf");
    NameIs(bytes[4..8], IEND, "IEND");
  }

  predicate Dropped(c: Chunks) {
    c.Chunk? && (Drops(c.bytes) || Dropped(c.next))
  }

  /** The chunk list without text and Exif; the tail stays. */
  function Filter(c: Chunks): Chunks {
    match c
    case Chunk(bytes, next) => if Drops(bytes) then Filter(next) else Chunk(bytes, Filter(next))
    case _ => c
  }

  predicate IsPng(l: ByteList) {
    Length(l) >= 20 && At(l, 0) == 0x89 && At(l, 1) == 0x50 && At(l, 2) == 0x4E && At(l, 3) == 0x47
  }

  /** A file that is not a PNG, or does not parse, or has nothing to drop, stays as it is. */
  function Strip(l: ByteList): ByteList {
    if !IsPng(l) then l
    else
      var c := Parse(Suffix(l, SIGNATURE));
      if !Whole(c) || !Dropped(c) then l else From(Take(l, SIGNATURE), 0, Put(Filter(c)))
  }

  // ---- Chunk lists and files are the same thing ----

  /** A chunk list as a parse gives it. */
  predicate Stable(c: Chunks) {
    match c
    case Broken => false
    case Tail(rest) => Length(rest) < 12
    case Chunk(bytes, next) =>
      && |bytes| >= 12 && |bytes| == ChunkSize(Header(bytes))
      && if Type(Header(bytes)) == IEND then next.Tail? else Stable(next)
  }

  /** The first eight bytes of a chunk say how long it is and what. */
  lemma HeaderSame(bytes: seq<byte>, rest: ByteList)
    requires |bytes| >= 8
    ensures ChunkSize(From(bytes, 0, rest)) == ChunkSize(Header(bytes))
    ensures Type(From(bytes, 0, rest)) == Type(Header(bytes))
  {
    forall k | 0 <= k < 8 ensures At(From(bytes, 0, rest), k) == At(Header(bytes), k) {
      FromAt(bytes, 0, rest, k);
      FromAt(bytes, 0, Nil, k);
    }
  }

  lemma {:induction false} ParseIsStable(l: ByteList)
    requires Whole(Parse(l))
    ensures Stable(Parse(l)) && Put(Parse(l)) == l
    decreases Length(l)
  {
    if Length(l) >= 12 {
      var n := ChunkSize(l);
      TakeBack(l, n);
      HeaderSame(Take(l, n), Suffix(l, n));
      if Type(l) != IEND { ParseIsStable(Suffix(l, n)); }
    }
  }

  lemma {:induction false} ParsePut(c: Chunks)
    requires Stable(c)
    ensures Parse(Put(c)) == c
  {
    if c.Chunk? {
      HeaderSame(c.bytes, Put(c.next));
      PutPiece(c.bytes, Put(c.next));
      if Type(Header(c.bytes)) != IEND { ParsePut(c.next); }
    }
  }

  lemma {:induction false} FilterIsStable(c: Chunks)
    requires Stable(c)
    ensures Stable(Filter(c)) && !Dropped(Filter(c))
  {
    if c.Chunk? && c.next.Chunk? { FilterIsStable(c.next); }
  }

  lemma {:induction false} NothingToFilter(c: Chunks)
    requires !Dropped(c)
    ensures Filter(c) == c
  {
    if c.Chunk? { NothingToFilter(c.next); }
  }

  /** The chunks of the stripped file are the file's, filtered, up to IEND, with the tail kept. */
  lemma StripFilters(l: ByteList)
    requires IsPng(l) && Whole(Parse(Suffix(l, SIGNATURE)))
    ensures Length(Strip(l)) >= SIGNATURE && Take(Strip(l), SIGNATURE) == Take(l, SIGNATURE)
    ensures Parse(Suffix(Strip(l), SIGNATURE)) == Filter(Parse(Suffix(l, SIGNATURE)))
    ensures !Dropped(Parse(Suffix(Strip(l), SIGNATURE)))
  {
    var c := Parse(Suffix(l, SIGNATURE));
    ParseIsStable(Suffix(l, SIGNATURE));
    FilterIsStable(c);
    if Dropped(c) {
      ParsePut(Filter(c));
      PutPiece(Take(l, SIGNATURE), Put(Filter(c)));
    } else {
      NothingToFilter(c);
    }
  }

  /** Stripping a stripped file changes nothing, whatever the bytes. */
  lemma StripTwice(l: ByteList)
    ensures Strip(Strip(l)) == Strip(l)
  {
    if IsPng(l) && Whole(Parse(Suffix(l, SIGNATURE))) { StripFilters(l); }
  }

  // ---- The code ----

  function Kind(b: seq<byte>, i: nat): seq<byte>
    requires i + 12 <= |b|
  {
    [b[i + 4], b[i + 5], b[i + 6], b[i + 7]]
  }

  lemma FieldsAt(b: seq<byte>, i: nat)
    requires i + 12 <= |b|
    ensures var l := From(b, i, Nil);
            && Be32(l) == b[i] as nat * 0x100_0000 + b[i + 1] as nat * 0x1_0000
                          + b[i + 2] as nat * 0x100 + b[i + 3] as nat
            && Type(l) == Kind(b, i)
  {
    forall k | 0 <= k < 8 ensures At(From(b, i, Nil), k) == b[i + k] { FromAt(b, i, Nil, k); }
  }

  /** The chunk at i, as the walk takes it off. */
  lemma ChunkAt(b: seq<byte>, i: nat, end: nat)
    requires i + 12 <= |b| && end == i + ChunkSize(From(b, i, Nil)) <= |b|
    ensures Parse(From(b, i, Nil)) ==
            Chunk(b[i..end], if Kind(b, i) == IEND then Tail(From(b, end, Nil)) else Parse(From(b, end, Nil)))
    ensures Drops(b[i..end]) <==> Kind(b, i) in [TEXT, ZTXT, ITXT, EXIF]
  {
    FieldsAt(b, i);
    FieldsAt(b[i..end], 0);
    FromTake(b, i, Nil, end - i);
    FromSuffix(b, i, Nil, end - i);
  }

  /** What the walk has kept so far and what it has left make the stripped file. */
  ghost predicate Walks(sig: seq<byte>, left: Chunks, dropped: bool, parts: seq<seq<byte>>, c: Chunks) {
    && Whole(left) == Whole(c) && (dropped || Dropped(left)) == Dropped(c)
    && Glue(parts, |parts|, Put(Filter(left))) == From(sig, 0, Put(Filter(c)))
  }

  lemma WalksOn(sig: seq<byte>, left: Chunks, dropped: bool, parts: seq<seq<byte>>, c: Chunks)
    requires Walks(sig, left, dropped, parts, c) && left.Chunk?
    ensures if Drops(left.bytes) then Walks(sig, left.next, true, parts, c)
            else Walks(sig, left.next, dropped, parts + [left.bytes], c)
  {
    GlueMore(parts, left.bytes, Put(Filter(left.next)));
  }

  lemma WalkBegins(b: seq<byte>)
    requires |b| >= 20
    ensures var l := From(b, 0, Nil);
            && IsPng(l) == (b[0] == 0x89 && b[1] == 0x50 && b[2] == 0x4E && b[3] == 0x47)
            && Suffix(l, SIGNATURE) == From(b, SIGNATURE, Nil) && Take(l, SIGNATURE) == b[..SIGNATURE]
    ensures var c := Parse(From(b, SIGNATURE, Nil)); Walks(b[..SIGNATURE], c, false, [b[..SIGNATURE]], c)
  {
    forall k | 0 <= k < 4 ensures At(From(b, 0, Nil), k) == b[k] { FromAt(b, 0, Nil, k); }
    FromSuffix(b, 0, Nil, SIGNATURE);
    FromTake(b, 0, Nil, SIGNATURE);
  }

  /** Anything after IEND, as it was. */
  lemma WalkEnds(b: seq<byte>, i: nat, left: Chunks, parts: seq<seq<byte>>, c: Chunks)
    requires SIGNATURE <= i <= |b| && Walks(b[..SIGNATURE], left, true, parts, c) && left == Tail(From(b, i, Nil))
    ensures Whole(c) && Dropped(c)
    ensures From(Joined(parts + [b[i..]], |parts| + 1), 0, Nil) == From(b[..SIGNATURE], 0, Put(Filter(c)))
  {
    GlueMore(parts, b[i..], Nil);
    FromSame(b, i, b[i..], 0, Nil);
    GlueIsJoined(parts + [b[i..]], |parts| + 1, Nil);
  }

  method StripPng(b: seq<byte>) returns (out: seq<byte>)
    ensures From(out, 0, Nil) == Strip(From(b, 0, Nil))
  {
    if |b| < 20 { return b; }
    WalkBegins(b);
    if b[0] != 0x89 || b[1] != 0x50 || b[2] != 0x4E || b[3] != 0x47 { return b; }
    ghost var c := Parse(From(b, SIGNATURE, Nil));
    ghost var left := c;
    var parts := [b[..SIGNATURE]];
    var i := SIGNATURE;
    var dropped := false;
    while i + 12 <= |b|
      invariant SIGNATURE <= i <= |b| && left == Parse(From(b, i, Nil))
      invariant Walks(b[..SIGNATURE], left, dropped, parts, c)
    {
      var len := b[i] as nat * 0x100_0000 + b[i + 1] as nat * 0x1_0000 + b[i + 2] as nat * 0x100 + b[i + 3] as nat;
      var end := i + 12 + len;
      FieldsAt(b, i);
      if end > |b| { return b; }
      var kind := Kind(b, i);
      ChunkAt(b, i, end);
      WalksOn(b[..SIGNATURE], left, dropped, parts, c);
      if kind in [TEXT, ZTXT, ITXT, EXIF] { dropped := true; } else { parts := parts + [b[i..end]]; }
      i := end;
      left := left.next;
      if kind == IEND { break; }
    }
    if !dropped { return b; }
    WalkEnds(b, i, left, parts, c);
    parts := parts + [b[i..]];
    out := Concat(parts);
  }
}
