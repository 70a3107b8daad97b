/**
 * JPEG covers without Exif, XMP and IPTC (stripJpeg in src/lib/cover-strip.ts; markers and segments
 * as in Annex B of ITU-T T.81).
 */
module JpegStrip {
  import opened Bytes
  import opened ByteLists

  const APP0: byte := 0xE0
  const APP1: byte := 0xE1
  const APP13: byte := 0xED
  const SOI: byte := 0xD8
  const EOI: byte := 0xD9
  const SOS: byte := 0xDA

  /** TEM and the restart markers stand alone; every other marker has a length. */
  predicate StandsAlone(m: byte) {
    m == 0x01 || 0xD0 <= m <= 0xD7
  }

  function Be16(l: ByteList): nat {
    At(l, 2) as nat * 256 + At(l, 3) as nat
  }

  // ---- The file up to its scans ----

  /** After SOI: segments and lone markers, up to the first SOS. */
  datatype Segments =
    | Broken
    | Scans(rest: ByteList)
    | Marker(m: byte, next: Segments)
    | Segment(bytes: seq<byte>, next: Segments)

  /** Fill bytes before a marker. */
  function SkipFill(l: ByteList): (r: ByteList)
    requires Length(l) >= 2 && At(l, 0) == 0xFF
    ensures 2 <= Length(r) <= Length(l) && At(r, 0) == 0xFF && (At(r, 1) == 0xFF ==> Length(r) == 2)
  {
    if At(l, 1) == 0xFF && Length(l) >= 3 then SkipFill(l.tail) else l
  }

  function Parse(l: ByteList): Segments
    decreases Length(l)
  {
    if Length(l) < 2 || At(l, 0) != 0xFF then Broken else ParseMarker(SkipFill(l))
  }

  /** From a marker on. */
  function ParseMarker(l: ByteList): Segments
    requires Length(l) >= 2
    decreases Length(l), 0
  {
    var m := At(l, 1);
    if m == 0xFF then Broken
    else if m == SOS then Scans(l)
    else if m == EOI then Broken
    else if StandsAlone(m) then Marker(m, Parse(Suffix(l, 2)))
    else if Length(l) < 4 || Be16(l) < 2 || 2 + Be16(l) > Length(l) then Broken
    else Segment(Take(l, 2 + Be16(l)), Parse(Suffix(l, 2 + Be16(l))))
  }

  function Put(s: Segments): ByteList {
    match s
    case Broken => Nil
    case Scans(rest) => rest
    case Marker(m, next) => Cons(0xFF, Cons(m, Put(next)))
    case Segment(bytes, next) => From(bytes, 0, Put(next))
  }

  /** The walk reached an SOS. */
  predicate Whole(s: Segments) {
    match s
    case Broken => false
    case Scans(_) => true
    case Marker(_, next) => Whole(next)
    case Segment(_, next) => Whole(next)
  }

  /** Segments as a parse gives them. */
  predicate Stable(s: Segments) {
    match s
    case Broken => false
    case Scans(rest) => Length(rest) >= 2 && At(rest, 0) == 0xFF && At(rest, 1) == SOS
    case Marker(m, next) => StandsAlone(m) && Stable(next)
    case Segment(bytes, next) => IsSegment(bytes) && Stable(next)
  }

  predicate IsSegment(bytes: seq<byte>) {
    && |bytes| >= 4 && bytes[0] == 0xFF
    && bytes[1] != 0xFF && bytes[1] != SOS && bytes[1] != EOI && !StandsAlone(bytes[1])
    && |bytes| == 2 + (bytes[2] as nat * 256 + bytes[3] as nat)
  }

  lemma TakeSegment(l: ByteList)
    requires Length(l) >= 4 && At(l, 0) == 0xFF && Be16(l) >= 2 && 2 + Be16(l) <= Length(l)
    ensures var s := Take(l, 2 + Be16(l));
            s[0] == 0xFF && s[1] == At(l, 1) && |s| == 2 + (s[2] as nat * 256 + s[3] as nat)
  {
    forall k | 0 <= k < 4 ensures Take(l, 2 + Be16(l))[k] == At(l, k) { TakeAt(l, 2 + Be16(l), k); }
  }

  lemma {:induction false} ParseIsStable(l: ByteList)
    requires Whole(Parse(l))
    ensures Stable(Parse(l))
    decreases Length(l)
  {
    var r := SkipFill(l);
    assert Parse(l) == ParseMarker(r);
    match ParseMarker(r) {
      case Scans(_) =>
      case Marker(_, _) => ParseIsStable(Suffix(r, 2));
      case Segment(_, _) =>
        TakeSegment(r);
        ParseIsStable(Suffix(r, 2 + Be16(r)));
    }
  }

  lemma HeadSame(bytes: seq<byte>, rest: ByteList)
    requires |bytes| >= 4
    ensures forall k :: 0 <= k < 4 ==> At(From(bytes, 0, rest), k) == bytes[k]
  {
    forall k | 0 <= k < 4 ensures At(From(bytes, 0, rest), k) == bytes[k] { FromAt(bytes, 0, rest, k); }
  }

  lemma {:induction false} ParsePut(s: Segments)
    requires Stable(s)
    ensures Parse(Put(s)) == s
  {
    match s {
      case Scans(_) =>
      case Marker(m, next) =>
        ParsePut(next);
        TwoBytes(0xFF, m, Put(next));
      case Segment(bytes, next) =>
        ParsePut(next);
        HeadSame(bytes, Put(next));
        PutPiece(bytes, Put(next));
    }
  }

  // ---- The scans, up to EOI ----

  function More(n: nat, o: Option<nat>): (r: Option<nat>)
    ensures r.Some? <==> o.Some?
  {
    if o.Some? then Some(n + o.value) else None
  }

  /** How far it is to just past the EOI that ends the scans, from a marker that has a length. */
  function Scan(l: ByteList): (r: Option<nat>)
    ensures r.Some? ==> 2 <= r.value <= Length(l)
    decreases Length(l), 0
  {
    if Length(l) < 4 || Be16(l) < 2 || 2 + Be16(l) > Length(l) then None
    else
      var next := Suffix(l, 2 + Be16(l));
      More(2 + Be16(l), if At(l, 1) == SOS then ScanData(next) else ScanFill(next))
  }

  /** The same from entropy-coded data: 0xFF is only followed by 0x00 or a restart marker, or fills. */
  function ScanData(l: ByteList): (r: Option<nat>)
    ensures r.Some? ==> 2 <= r.value <= Length(l)
    decreases Length(l), 2
  {
    if Length(l) < 2 then None
    else if At(l, 0) != 0xFF || At(l, 1) == 0xFF then More(1, ScanData(l.tail))
    else if At(l, 1) == 0 || 0xD0 <= At(l, 1) <= 0xD7 then More(2, ScanData(l.tail.tail))
    else ScanFill(l)
  }

  /** And from between segments, where there may be fill bytes but no stray markers. */
  function ScanFill(l: ByteList): (r: Option<nat>)
    ensures r.Some? ==> 2 <= r.value <= Length(l)
    decreases Length(l), 1
  {
    if Length(l) < 2 || At(l, 0) != 0xFF then None
    else if At(l, 1) == 0xFF then More(1, ScanFill(l.tail))
    else if At(l, 1) == EOI then Some(2)
    else if At(l, 1) == 0 || StandsAlone(At(l, 1)) then None
    else Scan(l)
  }

  /** The two bytes before n are an EOI marker. */
  predicate EoiBefore(l: ByteList, n: nat) {
    n >= 2 && At(l, n - 2) == 0xFF && At(l, n - 1) == EOI
  }

  lemma Tails(l: ByteList)
    requires Length(l) >= 2
    ensures Suffix(l, 1) == l.tail && Suffix(l, 2) == l.tail.tail
  {
    assert Suffix(l.tail, 0) == l.tail && Suffix(l.tail.tail, 0) == l.tail.tail;
    assert Suffix(l.tail, 1) == l.tail.tail;
  }

  lemma EoiLater(l: ByteList, k: nat, n: nat)
    requires k <= Length(l) && EoiBefore(Suffix(l, k), n)
    ensures EoiBefore(l, k + n)
  {
    SuffixAt(l, k, n - 2);
    SuffixAt(l, k, n - 1);
  }

  /** The end found is that of an EOI marker. */
  lemma {:induction false} ScanFindsEoi(l: ByteList)
    requires Scan(l).Some?
    ensures EoiBefore(l, Scan(l).value)
    decreases Length(l), 0
  {
    var n, len := Scan(l).value, 2 + Be16(l);
    var next := Suffix(l, len);
    if At(l, 1) == SOS { DataFindsEoi(next); } else { FillFindsEoi(next); }
    EoiLater(l, len, n - len);
  }

  lemma {:induction false} DataFindsEoi(l: ByteList)
    requires ScanData(l).Some?
    ensures EoiBefore(l, ScanData(l).value)
    decreases Length(l), 2
  {
    var n, k := ScanData(l).value, Passed(l);
    if k == 0 {
      FillFindsEoi(l);
    } else {
      DataPassed(l);
      DataFindsEoi(Suffix(l, k));
      EoiLater(l, k, n - k);
    }
  }

  /** How many bytes of entropy-coded data ScanData passes over at once. */
  function Passed(l: ByteList): nat {
    if At(l, 0) != 0xFF || At(l, 1) == 0xFF then 1 else if At(l, 1) == 0 || 0xD0 <= At(l, 1) <= 0xD7 then 2 else 0
  }

  lemma DataPassed(l: ByteList)
    requires Length(l) >= 2 && Passed(l) > 0
    ensures ScanData(l) == More(Passed(l), ScanData(Suffix(l, Passed(l))))
  {
    Tails(l);
  }

  lemma {:induction false} FillFindsEoi(l: ByteList)
    requires ScanFill(l).Some?
    ensures EoiBefore(l, ScanFill(l).value)
    decreases Length(l), 1
  {
    Tails(l);
    if At(l, 1) == 0xFF {
      FillFindsEoi(Suffix(l, 1));
      EoiLater(l, 1, ScanFill(l).value - 1);
    } else if At(l, 1) != EOI {
      ScanFindsEoi(l);
    }
  }

  /** Cut off right after EOI, the scans end there just the same. */
  lemma {:induction false} ScanCut(l: ByteList)
    requires Scan(l).Some?
    ensures Scan(Prefix(l, Scan(l).value)) == Scan(l)
    decreases Length(l), 0
  {
    var n, len := Scan(l).value, 2 + Be16(l);
    var p, next := Prefix(l, n), Suffix(l, len);
    PrefixAt(l, n, 1);
    PrefixAt(l, n, 2);
    PrefixAt(l, n, 3);
    PrefixSuffix(l, n, len);
    assert Be16(p) == Be16(l) && Suffix(p, len) == Prefix(next, n - len);
    if At(l, 1) == SOS { DataCut(next); } else { FillCut(next); }
  }

  lemma {:induction false} DataCut(l: ByteList)
    requires ScanData(l).Some?
    ensures ScanData(Prefix(l, ScanData(l).value)) == ScanData(l)
    decreases Length(l), 2
  {
    var n := ScanData(l).value;
    PrefixAt(l, n, 0);
    PrefixAt(l, n, 1);
    if At(l, 0) != 0xFF || At(l, 1) == 0xFF { DataCut(l.tail); }
    else if At(l, 1) == 0 || 0xD0 <= At(l, 1) <= 0xD7 { DataCut(l.tail.tail); }
    else { FillCut(l); }
  }

  lemma {:induction false} FillCut(l: ByteList)
    requires ScanFill(l).Some?
    ensures ScanFill(Prefix(l, ScanFill(l).value)) == ScanFill(l)
    decreases Length(l), 1
  {
    var n := ScanFill(l).value;
    PrefixAt(l, n, 0);
    PrefixAt(l, n, 1);
    if At(l, 1) == 0xFF { FillCut(l.tail); } else if At(l, 1) != EOI { ScanCut(l); }
  }

  // ---- The segments between the scans ----

  /** The segments Scan steps over, the first SOS's own header among them. */
  function Stepped(l: ByteList): seq<seq<byte>>
    decreases Length(l), 0
  {
    if Length(l) < 4 || Be16(l) < 2 || 2 + Be16(l) > Length(l) then []
    else
      var next := Suffix(l, 2 + Be16(l));
      [Take(l, 2 + Be16(l))] + if At(l, 1) == SOS then SteppedData(next) else SteppedFill(next)
  }

  function SteppedData(l: ByteList): seq<seq<byte>>
    decreases Length(l), 2
  {
    if Length(l) < 2 then []
    else if Passed(l) > 0 then SteppedData(Suffix(l, Passed(l)))
    else SteppedFill(l)
  }

  function SteppedFill(l: ByteList): seq<seq<byte>>
    decreases Length(l), 1
  {
    if Length(l) < 2 || At(l, 0) != 0xFF then []
    else if At(l, 1) == 0xFF then SteppedFill(Suffix(l, 1))
    else if At(l, 1) == EOI || At(l, 1) == 0 || StandsAlone(At(l, 1)) then []
    else Stepped(l)
  }

  /** Cut off right after EOI, the scans have the same segments between them. */
  lemma {:induction false} SteppedCut(l: ByteList)
    requires Scan(l).Some?
    ensures Stepped(Prefix(l, Scan(l).value)) == Stepped(l)
    decreases Length(l), 0
  {
    var n, len := Scan(l).value, 2 + Be16(l);
    var p, next := Prefix(l, n), Suffix(l, len);
    PrefixAt(l, n, 1);
    PrefixAt(l, n, 2);
    PrefixAt(l, n, 3);
    PrefixSuffix(l, n, len);
    PrefixTake(l, n, len);
    assert Be16(p) == Be16(l) && Suffix(p, len) == Prefix(next, n - len);
    if At(l, 1) == SOS { SteppedDataCut(next); } else { SteppedFillCut(next); }
  }

  lemma {:induction false} SteppedDataCut(l: ByteList)
    requires ScanData(l).Some?
    ensures SteppedData(Prefix(l, ScanData(l).value)) == SteppedData(l)
    decreases Length(l), 2
  {
    var n, k := ScanData(l).value, Passed(l);
    PrefixAt(l, n, 0);
    PrefixAt(l, n, 1);
    assert Passed(Prefix(l, n)) == k;
    if k == 0 {
      SteppedFillCut(l);
    } else {
      DataPassed(l);
      PrefixSuffix(l, n, k);
      SteppedDataCut(Suffix(l, k));
    }
  }

  lemma {:induction false} SteppedFillCut(l: ByteList)
    requires ScanFill(l).Some?
    ensures SteppedFill(Prefix(l, ScanFill(l).value)) == SteppedFill(l)
    decreases Length(l), 1
  {
    var n := ScanFill(l).value;
    PrefixAt(l, n, 0);
    PrefixAt(l, n, 1);
    Tails(l);
    if At(l, 1) == 0xFF {
      PrefixSuffix(l, n, 1);
      SteppedFillCut(Suffix(l, 1));
    } else if At(l, 1) != EOI {
      SteppedCut(l);
    }
  }

  /** The scans verbatim through EOI; all that is left where no EOI is found. */
  function TrimScans(rest: ByteList): ByteList {
    var n := Scan(rest);
    if n.Some? then Prefix(rest, n.value) else rest
  }

  lemma TrimTwice(rest: ByteList)
    ensures TrimScans(TrimScans(rest)) == TrimScans(rest)
  {
    if Scan(rest).Some? {
      ScanCut(rest);
      PrefixAll(TrimScans(rest));
    }
  }

  lemma {:induction false} PrefixAll(l: ByteList)
    ensures Prefix(l, Length(l)) == l
  {
    if l.Cons? { PrefixAll(l.tail); }
  }

  // ---- The orientation ----

  function R16(s: seq<byte>, i: nat, little: bool): nat
    requires i + 2 <= |s|
  {
    if little then s[i] as nat + s[i + 1] as nat * 256 else s[i] as nat * 256 + s[i + 1] as nat
  }

  function R32(s: seq<byte>, i: nat, little: bool): nat
    requires i + 4 <= |s|
  {
    if little then R16(s, i, little) + R16(s, i + 2, little) * 65536
    else R16(s, i, little) * 65536 + R16(s, i + 2, little)
  }

  /** The Orientation entry among entries k..n of the directory at `ifd`. */
  function FindOrientation(s: seq<byte>, ifd: nat, little: bool, k: nat, n: nat): Option<byte>
    requires k <= n
    decreases n - k
  {
    var e := ifd + 2 + k * 12;
    if k == n || e + 12 > |s| then None
    else if R16(s, e, little) == 0x0112 then
      var v := R16(s, e + 8, little);
      if 1 <= v <= 8 then Some(v) else None
    else FindOrientation(s, ifd, little, k + 1, n)
  }

  predicate SaysExif(s: seq<byte>)
    requires |s| >= 6
  {
    s[0] == 0x45 && s[1] == 0x78 && s[2] == 0x69 && s[3] == 0x66 && s[4] == 0 && s[5] == 0
  }

  /** The orientation an Exif payload gives: "Exif" and two zeros, then TIFF. */
  function ExifOrientation(s: seq<byte>): Option<byte>
  {
    if |s| < 14 || !SaysExif(s) then None
    else
      var little := s[6] == 0x49 && s[7] == 0x49;
      if !little && !(s[6] == 0x4D && s[7] == 0x4D) then None
      else if R16(s, 8, little) != 0x2A then None
      else
        var ifd := 6 + R32(s, 10, little);
        if ifd + 2 > |s| then None else FindOrientation(s, ifd, little, 0, R16(s, ifd, little))
  }

  lemma {:induction false} FoundInRange(s: seq<byte>, ifd: nat, little: bool, k: nat, n: nat)
    requires k <= n
    ensures var v := FindOrientation(s, ifd, little, k, n); v.Some? ==> 1 <= v.value <= 8
    decreases n - k
  {
    if k < n { FoundInRange(s, ifd, little, k + 1, n); }
  }

  lemma InRange(s: seq<byte>)
    ensures ExifOrientation(s).Some? ==> 1 <= ExifOrientation(s).value <= 8
  {
    if ExifOrientation(s).Some? {
      var little := s[6] == 0x49 && s[7] == 0x49;
      var ifd := 6 + R32(s, 10, little);
      FoundInRange(s, ifd, little, 0, R16(s, ifd, little));
    }
  }

  /** A big-endian TIFF whose directory holds an orientation and nothing else. */
  function OrientationPayload(value: byte): (s: seq<byte>)
    ensures |s| == 32
  {
    [0x45, 0x78, 0x69, 0x66, 0x00, 0x00,
     0x4D, 0x4D, 0x00, 0x2A, 0x00, 0x00, 0x00, 0x08,
     0x00, 0x01,
     0x01, 0x12, 0x00, 0x03, 0x00, 0x00, 0x00, 0x01, 0x00, value, 0x00, 0x00,
     0x00, 0x00, 0x00, 0x00]
  }

  /** A whole Exif segment of it. */
  function OrientationSegment(value: byte): (s: seq<byte>)
    ensures |s| == 36
  {
    [0xFF, APP1, 0x00, 0x22] + OrientationPayload(value)
  }

  lemma PayloadEntry(value: byte)
    requires 1 <= value <= 8
    ensures FindOrientation(OrientationPayload(value), 14, false, 0, 1) == Some(value)
  {
    var s := OrientationPayload(value);
    assert s[16] == 1 && s[17] == 0x12 && s[24] == 0 && s[25] == value;
    assert R16(s, 16, false) == 0x0112 && R16(s, 24, false) == value;
  }

  lemma PayloadSaysExif(value: byte)
    ensures var s := OrientationPayload(value); SaysExif(s) && s[6] == 0x4D && s[7] == 0x4D
  {
  }

  lemma PayloadHeader(value: byte)
    ensures var s := OrientationPayload(value); R16(s, 8, false) == 0x2A && R32(s, 10, false) == 8
  {
    var s := OrientationPayload(value);
    assert s[8] == 0 && s[9] == 0x2A && s[10] == 0 && s[11] == 0 && s[12] == 0 && s[13] == 8;
  }

  lemma PayloadCount(value: byte)
    ensures R16(OrientationPayload(value), 14, false) == 1
  {
    var s := OrientationPayload(value);
    assert s[14] == 0 && s[15] == 1;
  }

  lemma PayloadReadsBack(value: byte)
    requires 1 <= value <= 8
    ensures ExifOrientation(OrientationPayload(value)) == Some(value)
  {
    PayloadSaysExif(value);
    PayloadHeader(value);
    PayloadCount(value);
    PayloadEntry(value);
  }

  ghost predicate HoldsOrientation(piece: seq<byte>, value: byte) {
    IsSegment(piece) && |piece| > 4 && piece[1] == APP1 && ExifOrientation(piece[4..]) == Some(value)
  }

  /** It reads back. */
  lemma OrientationReadsBack(value: byte)
    requires 1 <= value <= 8
    ensures HoldsOrientation(OrientationSegment(value), value)
  {
    PayloadReadsBack(value);
    assert OrientationSegment(value)[4..] == OrientationPayload(value);
  }

  // ---- What stripping makes of the segments ----

  predicate IsMetadata(bytes: seq<byte>) {
    |bytes| > 1 && (bytes[1] == APP1 || bytes[1] == APP13)
  }

  /** Segments up to the scans, without APP1 and APP13. */
  function Filter(s: Segments): Segments {
    match s
    case Broken => Broken
    case Scans(rest) => Scans(TrimScans(rest))
    case Marker(m, next) => Marker(m, Filter(next))
    case Segment(bytes, next) =>
      if IsMetadata(bytes) then Filter(next) else Segment(bytes, Filter(next))
  }

  /** The first orientation an APP1 gives. */
  function Orientation(s: Segments): Option<byte> {
    match s
    case Broken => None
    case Scans(_) => None
    case Marker(_, next) => Orientation(next)
    case Segment(bytes, next) =>
      if |bytes| > 4 && bytes[1] == APP1 && ExifOrientation(bytes[4..]).Some? then ExifOrientation(bytes[4..])
      else Orientation(next)
  }

  /** A piece put after leading APP0s, before any other segment. */
  function Insert(s: Segments, piece: seq<byte>): Segments {
    match s
    case Broken => Broken
    case Scans(_) => Segment(piece, s)
    case Marker(m, next) => Marker(m, Insert(next, piece))
    case Segment(bytes, next) =>
      if |bytes| > 1 && bytes[1] == APP0 then Segment(bytes, Insert(next, piece)) else Segment(piece, s)
  }

  /** The segments kept; a photo that is not upright keeps its orientation, and only that. */
  function Rebuilt(s: Segments, o: Option<byte>): Segments {
    if o.Some? && o.value != 1 then Insert(Filter(s), OrientationSegment(o.value)) else Filter(s)
  }

  predicate IsJpeg(l: ByteList) {
    Length(l) >= 4 && At(l, 0) == 0xFF && At(l, 1) == SOI
  }

  /** A file that is not a JPEG, or whose walk does not reach an SOS, stays as it is. */
  function Strip(l: ByteList): ByteList {
    if !IsJpeg(l) then l
    else
      var s := Parse(Suffix(l, 2));
      if !Whole(s) then l else Cons(0xFF, Cons(SOI, Put(Rebuilt(s, Orientation(s)))))
  }

  lemma {:induction false} FilterIsStable(s: Segments)
    requires Stable(s)
    ensures Stable(Filter(s)) && Filter(Filter(s)) == Filter(s) && Orientation(Filter(s)) == None
  {
    match s {
      case Scans(rest) =>
        TrimTwice(rest);
        if Scan(rest).Some? {
          PrefixAt(rest, Scan(rest).value, 0);
          PrefixAt(rest, Scan(rest).value, 1);
        }
      case Marker(_, next) => FilterIsStable(next);
      case Segment(_, next) => FilterIsStable(next);
    }
  }

  /** Filtering takes an inserted orientation out again, and it is the only one to find. */
  lemma {:induction false} FilterUndoesInsert(f: Segments, piece: seq<byte>, value: byte)
    requires HoldsOrientation(piece, value) && Stable(f) && Filter(f) == f && Orientation(f) == None
    ensures var g := Insert(f, piece); Stable(g) && Filter(g) == f && Orientation(g) == Some(value)
  {
    match f {
      case Scans(_) =>
      case Marker(_, next) => FilterUndoesInsert(next, piece, value);
      case Segment(bytes, next) => if bytes[1] == APP0 { FilterUndoesInsert(next, piece, value); }
    }
  }

  lemma {:induction false} OrientationInRange(s: Segments)
    ensures Orientation(s).Some? ==> 1 <= Orientation(s).value <= 8
  {
    match s {
      case Marker(_, next) => OrientationInRange(next);
      case Segment(bytes, next) =>
        OrientationInRange(next);
        if |bytes| > 4 { InRange(bytes[4..]); }
      case _ =>
    }
  }

  lemma RebuiltIsStable(s: Segments)
    requires Stable(s)
    ensures var g := Rebuilt(s, Orientation(s));
            && Stable(g) && Filter(g) == Filter(s)
            && Orientation(g) == if Orientation(s) == Some(1) then None else Orientation(s)
  {
    FilterIsStable(s);
    var o := Orientation(s);
    if o.Some? && o.value != 1 {
      OrientationInRange(s);
      OrientationReadsBack(o.value);
      FilterUndoesInsert(Filter(s), OrientationSegment(o.value), o.value);
    }
  }

  /**
   * The stripped file parses into the file's segments without APP1 and APP13, in order, up to the
   * same scans, with at most an Exif segment added that reads back the orientation there was.
   */
  lemma StripRebuilds(l: ByteList)
    requires IsJpeg(l) && Whole(Parse(Suffix(l, 2)))
    ensures var s := Parse(Suffix(l, 2));
            var t := Parse(Suffix(Strip(l), 2));
            && IsJpeg(Strip(l)) && t == Rebuilt(s, Orientation(s)) && Whole(t)
            && Filter(t) == Filter(s)
            && Orientation(t) == if Orientation(s) == Some(1) then None else Orientation(s)
  {
    var s := Parse(Suffix(l, 2));
    ParseIsStable(Suffix(l, 2));
    RebuiltIsStable(s);
    var g := Rebuilt(s, Orientation(s));
    ParsePut(g);
    StableIsWhole(g);
    TwoBytes(0xFF, SOI, Put(g));
  }

  lemma {:induction false} StableIsWhole(s: Segments)
    requires Stable(s)
    ensures Whole(s) && Length(Put(s)) >= 2
  {
    match s {
      case Scans(_) =>
      case Marker(_, next) => StableIsWhole(next);
      case Segment(_, next) => StableIsWhole(next);
    }
  }

  /** The APP1 and APP13 segments up to the first SOS, in order. */
  function Metadata(s: Segments): seq<seq<byte>> {
    match s
    case Broken => []
    case Scans(_) => []
    case Marker(_, next) => Metadata(next)
    case Segment(bytes, next) =>
      (if IsMetadata(bytes) then [bytes] else []) + Metadata(next)
  }

  lemma {:induction false} FilterLeavesNone(s: Segments)
    ensures Metadata(Filter(s)) == []
  {
    match s {
      case Marker(_, next) => FilterLeavesNone(next);
      case Segment(_, next) => FilterLeavesNone(next);
      case _ =>
    }
  }

  lemma {:induction false} InsertAddsOne(f: Segments, piece: seq<byte>)
    requires Whole(f) && Metadata(f) == [] && |piece| > 1 && piece[1] == APP1
    ensures Metadata(Insert(f, piece)) == [piece]
  {
    match f {
      case Marker(_, next) => InsertAddsOne(next, piece);
      case Segment(bytes, next) =>
        assert Metadata(next) == [];
        if |bytes| > 1 && bytes[1] == APP0 { InsertAddsOne(next, piece); }
      case _ =>
    }
  }

  /** Up to the first SOS, all the metadata a stripped file still has is its orientation. */
  lemma OnlyOrientationLeft(l: ByteList)
    requires IsJpeg(l) && Whole(Parse(Suffix(l, 2)))
    ensures var o := Orientation(Parse(Suffix(l, 2)));
            Metadata(Parse(Suffix(Strip(l), 2)))
            == if o.Some? && o.value != 1 then [OrientationSegment(o.value)] else []
  {
    var s := Parse(Suffix(l, 2));
    StripRebuilds(l);
    FilterLeavesNone(s);
    ParseIsStable(Suffix(l, 2));
    FilterIsStable(s);
    StableIsWhole(Filter(s));
    if Orientation(s).Some? { InsertAddsOne(Filter(s), OrientationSegment(Orientation(s).value)); }
  }

  /** From the first SOS on. */
  function ScansOf(s: Segments): ByteList {
    match s
    case Broken => Nil
    case Scans(rest) => rest
    case Marker(_, next) => ScansOf(next)
    case Segment(_, next) => ScansOf(next)
  }

  lemma {:induction false} FilterTrimsScans(s: Segments)
    requires Whole(s)
    ensures ScansOf(Filter(s)) == TrimScans(ScansOf(s))
  {
    match s {
      case Marker(_, next) => FilterTrimsScans(next);
      case Segment(_, next) => FilterTrimsScans(next);
      case _ =>
    }
  }

  lemma {:induction false} InsertKeepsScans(s: Segments, piece: seq<byte>)
    ensures ScansOf(Insert(s, piece)) == ScansOf(s)
  {
    match s {
      case Marker(_, next) => InsertKeepsScans(next, piece);
      case Segment(_, next) => InsertKeepsScans(next, piece);
      case _ =>
    }
  }

  /** None of the segments Scan steps over is an APP1 or APP13. */
  ghost predicate CleanScans(rest: ByteList) {
    forall k :: 0 <= k < |Stepped(rest)| ==> !IsMetadata(Stepped(rest)[k])
  }

  /** The file ends with its EOI, and has no APP1 or APP13 before it but an orientation other than upright. */
  ghost predicate OnlyOrientation(l: ByteList)
    requires IsJpeg(l)
  {
    var s := Parse(Suffix(l, 2));
    && Whole(s) && Scan(ScansOf(s)) == Some(Length(ScansOf(s))) && CleanScans(ScansOf(s))
    && (Metadata(s) == [] || exists v: byte :: 2 <= v <= 8 && Metadata(s) == [OrientationSegment(v)])
  }

  lemma TrimmedClean(rest: ByteList)
    ensures var t := TrimScans(rest);
            Scan(t) == Some(Length(t)) && CleanScans(t) <==> Scan(rest).Some? && CleanScans(rest)
  {
    if Scan(rest).Some? {
      ScanCut(rest);
      SteppedCut(rest);
    }
  }

  /**
   * Through its EOI a stripped file has no APP1 or APP13 besides its orientation if and only if an
   * EOI was found and none is between the scans, where the walk copies what it finds.
   */
  lemma CleanThroughEoi(l: ByteList)
    requires IsJpeg(l) && Whole(Parse(Suffix(l, 2)))
    ensures var rest := ScansOf(Parse(Suffix(l, 2)));
            IsJpeg(Strip(l)) && (OnlyOrientation(Strip(l)) <==> Scan(rest).Some? && CleanScans(rest))
  {
    var s := Parse(Suffix(l, 2));
    var o, t := Orientation(s), Parse(Suffix(Strip(l), 2));
    StripRebuilds(l);
    OnlyOrientationLeft(l);
    OrientationInRange(s);
    FilterTrimsScans(s);
    if o.Some? { InsertKeepsScans(Filter(s), OrientationSegment(o.value)); }
    assert ScansOf(t) == TrimScans(ScansOf(s));
    TrimmedClean(ScansOf(s));
  }

  /** A segment of nothing but its marker and length. */
  function Bare(m: byte, next: ByteList): ByteList {
    Cons(0xFF, Cons(m, Cons(0, Cons(2, next))))
  }

  lemma BareIs(m: byte, next: ByteList)
    ensures var l := Bare(m, next);
            && Length(l) == 4 + Length(next) && At(l, 0) == 0xFF && At(l, 1) == m && Be16(l) == 2
            && Suffix(l, 4) == next && Take(l, 4)[1] == m
  {
    var l := Bare(m, next);
    assert l.tail.tail.tail == Cons(2, next) && At(l.tail, 0) == m && At(l.tail.tail, 0) == 0;
    assert At(l.tail.tail.tail, 0) == 2 && At(l.tail.tail, 1) == 2 && At(l.tail, 1) == 0 && At(l.tail, 2) == 2;
    assert Suffix(l.tail.tail.tail, 1) == next && Suffix(l.tail.tail, 2) == next && Suffix(l.tail, 3) == next;
    TakeAt(l, 4, 1);
  }

  /** Just an SOS, an APP1 after it, and EOI. */
  function AppAfterSos(): ByteList {
    Cons(0xFF, Cons(SOI, Bare(SOS, Bare(APP1, Cons(0xFF, Cons(EOI, Nil))))))
  }

  lemma AppIsStepped()
    ensures var app := Bare(APP1, Cons(0xFF, Cons(EOI, Nil)));
            var rest := Bare(SOS, app);
            && Length(rest) == 10 && Scan(rest) == Some(10)
            && |Stepped(rest)| > 1 && Stepped(rest)[1] == Take(app, 4)
  {
    var end := Cons(0xFF, Cons(EOI, Nil));
    var app := Bare(APP1, end);
    BareIs(APP1, end);
    BareIs(SOS, app);
    TwoBytes(0xFF, EOI, Nil);
    assert ScanFill(end) == Some(2);
    assert Scan(app) == Some(6) && Stepped(app) == [Take(app, 4)] + SteppedFill(end);
    assert ScanData(app) == Scan(app) && SteppedData(app) == Stepped(app);
    assert Scan(Bare(SOS, app)) == Some(10) && Stepped(Bare(SOS, app)) == [Take(Bare(SOS, app), 4)] + Stepped(app);
  }

  /** So this file, of 12 bytes, keeps its APP1. */
  lemma KeptBetweenScans()
    ensures var l := AppAfterSos(); IsJpeg(l) && Whole(Parse(Suffix(l, 2))) && Strip(l) == l && !OnlyOrientation(l)
  {
    var app := Bare(APP1, Cons(0xFF, Cons(EOI, Nil)));
    var rest := Bare(SOS, app);
    AppIsStepped();
    BareIs(APP1, Cons(0xFF, Cons(EOI, Nil)));
    BareIs(SOS, app);
    TwoBytes(0xFF, SOI, rest);
    assert Parse(rest) == Scans(rest);
    PrefixAll(rest);
    assert IsMetadata(Stepped(rest)[1]);
  }

  /** Stripping a stripped file changes nothing, whatever the bytes. */
  lemma StripTwice(l: ByteList)
    ensures Strip(Strip(l)) == Strip(l)
  {
    if IsJpeg(l) && Whole(Parse(Suffix(l, 2))) {
      StripRebuilds(l);
    }
  }

  // ---- The code ----

  lemma FieldsAt(b: seq<byte>, i: nat)
    requires i + 2 <= |b|
    ensures At(From(b, i, Nil), 0) == b[i] && At(From(b, i, Nil), 1) == b[i + 1]
    ensures i + 4 <= |b| ==> Be16(From(b, i, Nil)) == b[i + 2] as nat * 256 + b[i + 3] as nat
  {
    FromAt(b, i, Nil, 0);
    FromAt(b, i, Nil, 1);
    if i + 4 <= |b| {
      FromAt(b, i, Nil, 2);
      FromAt(b, i, Nil, 3);
    }
  }

  method ReadOrientation(seg: seq<byte>) returns (o: Option<byte>)
    ensures o == ExifOrientation(seg)
  {
    if |seg| < 14 || !SaysExif(seg) { return None; }
    var little := seg[6] == 0x49 && seg[7] == 0x49;
    if !little && !(seg[6] == 0x4D && seg[7] == 0x4D) { return None; }
    if R16(seg, 8, little) != 0x2A { return None; }
    var ifd := 6 + R32(seg, 10, little);
    if ifd + 2 > |seg| { return None; }
    var n := R16(seg, ifd, little);
    var k := 0;
    while k < n
      invariant 0 <= k <= n && FindOrientation(seg, ifd, little, 0, n) == FindOrientation(seg, ifd, little, k, n)
    {
      var e := ifd + 2 + k * 12;
      if e + 12 > |seg| { return None; }
      if R16(seg, e, little) == 0x0112 {
        var v := R16(seg, e + 8, little);
        return if 1 <= v <= 8 then Some(v) else None;
      }
      k := k + 1;
    }
    return None;
  }

  lemma DataStep(b: seq<byte>, i: nat)
    requires i + 2 <= |b|
    ensures ScanData(From(b, i, Nil)) ==
            if b[i] != 0xFF || b[i + 1] == 0xFF then More(1, ScanData(From(b, i + 1, Nil)))
            else if b[i + 1] == 0 || 0xD0 <= b[i + 1] <= 0xD7 then More(2, ScanData(From(b, i + 2, Nil)))
            else ScanFill(From(b, i, Nil))
  {
    FieldsAt(b, i);
  }

  lemma FillStep(b: seq<byte>, i: nat)
    requires i + 2 <= |b|
    ensures ScanFill(From(b, i, Nil)) ==
            if b[i] != 0xFF then None
            else if b[i + 1] == 0xFF then More(1, ScanFill(From(b, i + 1, Nil)))
            else if b[i + 1] == EOI then Some(2)
            else if b[i + 1] == 0 || StandsAlone(b[i + 1]) then None
            else Scan(From(b, i, Nil))
  {
    FieldsAt(b, i);
  }

  lemma SegmentStep(b: seq<byte>, i: nat, end: nat)
    requires i + 4 <= |b| && end == i + 2 + b[i + 2] as nat * 256 + b[i + 3] as nat
    ensures end < i + 4 || end > |b| ==> Scan(From(b, i, Nil)) == None
    ensures i + 4 <= end <= |b| ==>
              Scan(From(b, i, Nil)) ==
              More(end - i, if b[i + 1] == SOS then ScanData(From(b, end, Nil)) else ScanFill(From(b, end, Nil)))
  {
    FieldsAt(b, i);
    if end <= |b| { FromSuffix(b, i, Nil, end - i); }
  }

  /** Over the entropy-coded data to the 0xFF of the next marker, or -1. */
  method SkipData(b: seq<byte>, start: nat) returns (i: int)
    requires start <= |b|
    ensures i < 0 ==> ScanData(From(b, start, Nil)) == None
    ensures i >= 0 ==> start <= i <= |b| && ScanData(From(b, start, Nil)) == More(i - start, ScanFill(From(b, i, Nil)))
  {
    i := start;
    while i + 1 < |b|
      invariant start <= i <= |b|
      invariant ScanData(From(b, start, Nil)) == More(i - start, ScanData(From(b, i, Nil)))
    {
      DataStep(b, i);
      if b[i] != 0xFF {
        i := i + 1;
        continue;
      }
      var n := b[i + 1];
      if n == 0 || 0xD0 <= n <= 0xD7 {
        i := i + 2;
      } else if n == 0xFF {
        i := i + 1;
      } else {
        return i;
      }
    }
    return -1;
  }

  method SkipFillBytes(b: seq<byte>, start: nat) returns (i: nat)
    requires start <= |b|
    ensures start <= i <= |b| && ScanFill(From(b, start, Nil)) == More(i - start, ScanFill(From(b, i, Nil)))
    ensures !(i + 1 < |b| && b[i] == 0xFF && b[i + 1] == 0xFF)
  {
    i := start;
    while i + 1 < |b| && b[i] == 0xFF && b[i + 1] == 0xFF
      invariant start <= i <= |b|
      invariant ScanFill(From(b, start, Nil)) == More(i - start, ScanFill(From(b, i, Nil)))
    {
      FillStep(b, i);
      i := i + 1;
    }
  }

  /** Past the segment or scan at i and the fill bytes after it, or -1. */
  method SkipSegment(b: seq<byte>, start: nat) returns (i: int)
    requires start <= |b|
    ensures i < 0 ==> Scan(From(b, start, Nil)) == None
    ensures i >= 0 ==> start + 4 <= i <= |b| && Scan(From(b, start, Nil)) == More(i - start, ScanFill(From(b, i, Nil)))
    ensures !(0 <= i < |b| - 1 && b[i] == 0xFF && b[i + 1] == 0xFF)
  {
    if start + 3 >= |b| { return -1; }
    var len := b[start + 2] as nat * 256 + b[start + 3] as nat;
    var end: nat := start + 2 + len;
    SegmentStep(b, start, end);
    if len < 2 || end > |b| { return -1; }
    i := end;
    if b[start + 1] == SOS {
      i := SkipData(b, end);
      if i < 0 { return -1; }
    }
    assert Scan(From(b, start, Nil)) == More(i - start, ScanFill(From(b, i, Nil)));
    i := SkipFillBytes(b, i);
  }

  /** The index just past EOI, or -1. */
  method JpegEoiEnd(b: seq<byte>, sos: nat) returns (e: int)
    requires sos <= |b|
    ensures e < 0 ==> Scan(From(b, sos, Nil)) == None
    ensures e >= 0 ==> sos <= e <= |b| && Scan(From(b, sos, Nil)) == Some(e - sos)
  {
    var i: nat := sos;
    while true
      invariant sos <= i <= |b| && Scan(From(b, sos, Nil)) == More(i - sos, Scan(From(b, i, Nil)))
      decreases |b| - i
    {
      var j := SkipSegment(b, i);
      if j < 0 { return -1; }
      i := j;
      if i + 1 >= |b| { return -1; }
      FillStep(b, i);
      if b[i] != 0xFF { return -1; }
      var m := b[i + 1];
      if m == EOI { return i + 2; }
      if m == 0 || StandsAlone(m) { return -1; }
    }
  }

  /** The piece to insert, when there is one. */
  function Piece(o: Option<byte>): seq<byte> {
    if o.Some? then OrientationSegment(o.value) else []
  }

  function Spliced(head: seq<seq<byte>>, at: nat, piece: seq<byte>): (r: seq<seq<byte>>)
    requires at <= |head|
    ensures |r| == |head| + 1
  {
    head[..at] + [piece] + head[at..]
  }

  function Begun(rest: ByteList): ByteList {
    Cons(0xFF, Cons(SOI, rest))
  }

  /**
   * What the walk has in hand: the parts kept, with `left` still to come, make the file without its
   * metadata; with the piece at `at` among them (or still to be placed) they make it with the piece.
   */
  ghost predicate Walks(left: Segments, head: seq<seq<byte>>, at: int, s: Segments, piece: seq<byte>) {
    && Whole(left) == Whole(s) && -1 <= at <= |head|
    && Glue(head, |head|, Put(Filter(left))) == Begun(Put(Filter(s)))
    && if at < 0 then Glue(head, |head|, Put(Insert(Filter(left), piece))) == Begun(Put(Insert(Filter(s), piece)))
       else Glue(Spliced(head, at, piece), |head| + 1, Put(Filter(left))) == Begun(Put(Insert(Filter(s), piece)))
  }

  lemma SplicedMore(head: seq<seq<byte>>, at: nat, piece: seq<byte>, bytes: seq<byte>)
    requires at <= |head|
    ensures Spliced(head + [bytes], at, piece) == Spliced(head, at, piece) + [bytes]
  {
  }

  /** A kept segment or marker pushed; the piece's place is found before the first segment but APP0. */
  lemma WalksOn(left: Segments, head: seq<seq<byte>>, at: int, s: Segments, piece: seq<byte>, bytes: seq<byte>,
          next: Segments)
    requires Walks(left, head, at, s, piece) && Whole(next) == Whole(left)
    requires Put(Filter(left)) == From(bytes, 0, Put(Filter(next)))
    requires at < 0 ==> Put(Insert(Filter(left), piece)) == From(bytes, 0, Put(Insert(Filter(next), piece)))
    ensures Walks(next, head + [bytes], at, s, piece)
  {
    GlueMore(head, bytes, Put(Filter(next)));
    GlueMore(head, bytes, Put(Insert(Filter(next), piece)));
    if at >= 0 {
      SplicedMore(head, at, piece, bytes);
      GlueMore(Spliced(head, at, piece), bytes, Put(Filter(next)));
    }
  }

  lemma PlaceFound(left: Segments, head: seq<seq<byte>>, s: Segments, piece: seq<byte>)
    requires Walks(left, head, -1, s, piece)
    requires Put(Insert(Filter(left), piece)) == From(piece, 0, Put(Filter(left)))
    ensures Walks(left, head, |head|, s, piece)
  {
    GlueMore(head, piece, Put(Filter(left)));
    assert Spliced(head, |head|, piece) == head + [piece];
  }

  lemma WalkBegins(b: seq<byte>, s: Segments, piece: seq<byte>)
    requires |b| >= 2 && b[0] == 0xFF && b[1] == SOI
    ensures Walks(s, [b[..2]], -1, s, piece)
  {
    forall rest: ByteList ensures Glue([b[..2]], 1, rest) == Begun(rest) {
      assert Glue([b[..2]], 1, rest) == Glue([b[..2]], 0, From(b[..2], 0, rest));
      assert From(b[..2], 0, rest) == Cons(b[..2][0], From(b[..2], 1, rest));
    }
  }

  /** A marker or segment that starts at j, as the walk takes it off. */
  lemma MarkerAt(b: seq<byte>, j: nat)
    requires j + 2 <= |b| && b[j + 1] != 0xFF && StandsAlone(b[j + 1])
    ensures ParseMarker(From(b, j, Nil)) == Marker(b[j + 1], Parse(From(b, j + 2, Nil)))
  {
    FieldsAt(b, j);
    FromSuffix(b, j, Nil, 2);
  }

  lemma SegmentAt(b: seq<byte>, j: nat, end: nat)
    requires j + 4 <= |b| && b[j] == 0xFF
    requires b[j + 1] != 0xFF && b[j + 1] != SOS && b[j + 1] != EOI && !StandsAlone(b[j + 1])
    requires j + 4 <= end == j + 2 + b[j + 2] as nat * 256 + b[j + 3] as nat <= |b|
    ensures ParseMarker(From(b, j, Nil)) == Segment(b[j..end], Parse(From(b, end, Nil)))
  {
    FieldsAt(b, j);
    FromSuffix(b, j, Nil, end - j);
    FromTake(b, j, Nil, end - j);
  }

  method SkipToMarker(b: seq<byte>, i: nat) returns (j: nat)
    requires i + 1 < |b| && b[i] == 0xFF
    ensures i <= j && j + 1 < |b| && b[j] == 0xFF && (b[j + 1] == 0xFF ==> j + 2 == |b|)
    ensures Parse(From(b, i, Nil)) == ParseMarker(From(b, j, Nil))
  {
    FieldsAt(b, i);
    j := i;
    while b[j + 1] == 0xFF && j + 2 < |b|
      invariant i <= j && j + 1 < |b| && b[j] == 0xFF && At(From(b, j, Nil), 0) == 0xFF
      invariant SkipFill(From(b, i, Nil)) == SkipFill(From(b, j, Nil))
    {
      FieldsAt(b, j);
      FieldsAt(b, j + 1);
      j := j + 1;
    }
    FieldsAt(b, j);
  }

  lemma ScansCut(b: seq<byte>, j: nat, e: nat)
    requires j <= e <= |b|
    ensures From(b[j..e], 0, Nil) == Prefix(From(b, j, Nil), e - j)
    decreases e - j
  {
    if j < e {
      ScansCut(b, j + 1, e);
      assert b[j..e][1..] == b[j + 1..e] == b[j + 1..e][0..];
      FromSame(b[j..e], 1, b[j + 1..e], 0, Nil);
    }
  }

  lemma ScansPiece(b: seq<byte>, j: nat, eoi: int)
    requires j <= |b|
    requires if eoi < 0 then Scan(From(b, j, Nil)) == None
             else j <= eoi <= |b| && Scan(From(b, j, Nil)) == Some(eoi - j)
    ensures From(if eoi < 0 then b[j..] else b[j..eoi], 0, Nil) == TrimScans(From(b, j, Nil))
  {
    if eoi < 0 {
      assert b[j..] == b[j..][0..];
      FromSame(b, j, b[j..], 0, Nil);
    } else {
      ScansCut(b, j, eoi);
    }
  }

  /** The parts at SOS: with the orientation where its place was found, or else last. */
  method PlaceOrientation(head: seq<seq<byte>>, orientation: Option<byte>, at: int, ghost rest: ByteList,
          ghost s: Segments)
    returns (parts: seq<seq<byte>>)
    requires orientation == Orientation(s) && Walks(Scans(rest), head, at, s, Piece(orientation))
    ensures Glue(parts, |parts|, TrimScans(rest)) == Begun(Put(Rebuilt(s, orientation)))
  {
    parts := head;
    var place := at;
    if orientation.Some? && at < 0 {
      PlaceFound(Scans(rest), head, s, Piece(orientation));
      place := |head|;
    }
    if orientation.Some? && orientation.value != 1 {
      parts := Spliced(head, place, OrientationSegment(orientation.value));
    }
  }

  /** At SOS: the parts kept, the orientation if it is not the default, and the scans up to EOI. */
  method Finish(b: seq<byte>, j: nat, head: seq<seq<byte>>, orientation: Option<byte>, at: int, ghost s: Segments)
    returns (out: seq<byte>)
    requires j <= |b| && orientation == Orientation(s)
    requires Walks(Scans(From(b, j, Nil)), head, at, s, Piece(orientation))
    ensures From(out, 0, Nil) == Begun(Put(Rebuilt(s, orientation)))
  {
    var parts := PlaceOrientation(head, orientation, at, From(b, j, Nil), s);
    var eoi := JpegEoiEnd(b, j);
    var scans := if eoi < 0 then b[j..] else b[j..eoi];
    ScansPiece(b, j, eoi);
    GlueMore(parts, scans, Nil);
    parts := parts + [scans];
    GlueIsJoined(parts, |parts|, Nil);
    out := Concat(parts);
  }

  /** Where the walk of a JPEG stands at i. */
  ghost predicate StandsAt(b: seq<byte>, i: nat, head: seq<seq<byte>>, orientation: Option<byte>, at: int,
          s: Segments) {
    && i <= |b|
    && Walks(Parse(From(b, i, Nil)), head, at, s, Piece(Orientation(s)))
    && (if orientation.Some? then orientation else Orientation(Parse(From(b, i, Nil)))) == Orientation(s)
  }

  lemma StepsOverMarker(b: seq<byte>, i: nat, j: nat, head: seq<seq<byte>>, orientation: Option<byte>, at: int,
          s: Segments)
    requires StandsAt(b, i, head, orientation, at, s) && j + 1 < |b| && b[j] == 0xFF && StandsAlone(b[j + 1])
    requires Parse(From(b, i, Nil)) == ParseMarker(From(b, j, Nil))
    ensures StandsAt(b, j + 2, head + [b[j..j + 2]], orientation, at, s)
  {
    MarkerAt(b, j);
    var left, next, bytes := Parse(From(b, i, Nil)), Parse(From(b, j + 2, Nil)), b[j..j + 2];
    forall rest: ByteList ensures From(bytes, 0, rest) == Cons(0xFF, Cons(b[j + 1], rest)) {
      assert From(bytes, 0, rest) == Cons(bytes[0], From(bytes, 1, rest));
      assert From(bytes, 1, rest) == Cons(bytes[1], From(bytes, 2, rest));
    }
    WalksOn(left, head, at, s, Piece(Orientation(s)), bytes, next);
  }

  lemma StepsOverMetadata(b: seq<byte>, i: nat, j: nat, end: nat, head: seq<seq<byte>>, orientation: Option<byte>,
          at: int, s: Segments)
    requires StandsAt(b, i, head, orientation, at, s) && j + 4 <= end <= |b|
    requires Parse(From(b, i, Nil)) == Segment(b[j..end], Parse(From(b, end, Nil)))
    requires b[j + 1] == APP1 || b[j + 1] == APP13
    ensures var found := if b[j + 1] == APP1 && orientation.None? then ExifOrientation(b[j + 4..end]) else orientation;
            StandsAt(b, end, head, found, at, s)
  {
    assert b[j..end][1] == b[j + 1];
    assert b[j..end][4..] == b[j + 4..end];
  }

  lemma StepsOverSegment(b: seq<byte>, i: nat, j: nat, end: nat, head: seq<seq<byte>>, orientation: Option<byte>,
          at: int, s: Segments)
    requires StandsAt(b, i, head, orientation, at, s) && j + 4 <= end <= |b|
    requires Parse(From(b, i, Nil)) == Segment(b[j..end], Parse(From(b, end, Nil)))
    requires b[j + 1] != APP1 && b[j + 1] != APP13
    ensures StandsAt(b, end, head + [b[j..end]], orientation, if b[j + 1] != APP0 && at < 0 then |head| else at, s)
  {
    var left, next, bytes, piece := Parse(From(b, i, Nil)), Parse(From(b, end, Nil)), b[j..end], Piece(Orientation(s));
    assert bytes[1] == b[j + 1];
    if b[j + 1] != APP0 && at < 0 {
      PlaceFound(left, head, s, piece);
      WalksOn(left, head, |head|, s, piece, bytes, next);
    } else {
      WalksOn(left, head, at, s, piece, bytes, next);
    }
  }

  /** The segment at j kept, or dropped and its orientation read; -1 if there is no whole segment. */
  method StepSegment(b: seq<byte>, i: nat, j: nat, head: seq<seq<byte>>, orientation: Option<byte>, at: int,
          ghost s: Segments)
    returns (end: int, kept: seq<seq<byte>>, found: Option<byte>, place: int)
    requires StandsAt(b, i, head, orientation, at, s) && j + 1 < |b| && b[j] == 0xFF
    requires b[j + 1] != 0xFF && b[j + 1] != SOS && b[j + 1] != EOI && !StandsAlone(b[j + 1])
    requires Parse(From(b, i, Nil)) == ParseMarker(From(b, j, Nil))
    ensures end < 0 ==> !Whole(s)
    ensures end >= 0 ==> end > j && StandsAt(b, end, kept, found, place, s)
  {
    kept, found, place := head, orientation, at;
    FieldsAt(b, j);
    var m := b[j + 1];
    if j + 3 >= |b| { return -1, head, orientation, at; }
    var len := b[j + 2] as nat * 256 + b[j + 3] as nat;
    end := j + 2 + len;
    if len < 2 || end > |b| { return -1, head, orientation, at; }
    SegmentAt(b, j, end);
    if m == APP1 || m == APP13 {
      StepsOverMetadata(b, i, j, end, head, orientation, at, s);
      if m == APP1 && orientation.None? { found := ReadOrientation(b[j + 4..end]); }
    } else {
      StepsOverSegment(b, i, j, end, head, orientation, at, s);
      if m != APP0 && at < 0 { place := |head|; }
      kept := head + [b[j..end]];
    }
  }

  /** Where the walk gives up: at the end of the file, off a marker, or at one that cannot come here. */
  lemma GivesUp(b: seq<byte>, i: nat, j: nat, head: seq<seq<byte>>, orientation: Option<byte>, at: int, s: Segments)
    requires StandsAt(b, i, head, orientation, at, s)
    requires || i + 1 >= |b| || b[i] != 0xFF
             || (j + 1 < |b| && Parse(From(b, i, Nil)) == ParseMarker(From(b, j, Nil))
                 && (b[j + 1] == 0xFF || b[j + 1] == EOI))
    ensures !Whole(s)
  {
    if i + 1 < |b| {
      FieldsAt(b, i);
      if b[i] == 0xFF { FieldsAt(b, j); }
    }
  }

  lemma ReachesScans(b: seq<byte>, i: nat, j: nat, head: seq<seq<byte>>, orientation: Option<byte>, at: int,
          s: Segments)
    requires StandsAt(b, i, head, orientation, at, s) && j + 1 < |b| && b[j + 1] == SOS
    requires Parse(From(b, i, Nil)) == ParseMarker(From(b, j, Nil))
    ensures Whole(s) && orientation == Orientation(s) && Walks(Scans(From(b, j, Nil)), head, at, s, Piece(orientation))
  {
    FieldsAt(b, j);
  }

  /** The walk from after SOI; None where it gives up. */
  method WalkSegments(b: seq<byte>) returns (out: Option<seq<byte>>)
    requires |b| >= 4 && b[0] == 0xFF && b[1] == SOI
    ensures var s := Parse(From(b, 2, Nil));
            && (out.Some? <==> Whole(s))
            && (out.Some? ==> From(out.value, 0, Nil) == Begun(Put(Rebuilt(s, Orientation(s)))))
  {
    ghost var s := Parse(From(b, 2, Nil));
    WalkBegins(b, s, Piece(Orientation(s)));
    var head := [b[..2]];
    var orientation: Option<byte> := None;
    var orientationAt := -1;
    var i := 2;
    while i + 1 < |b|
      invariant StandsAt(b, i, head, orientation, orientationAt, s)
      decreases |b| - i
    {
      if b[i] != 0xFF {
        GivesUp(b, i, i, head, orientation, orientationAt, s);
        return None;
      }
      var j := SkipToMarker(b, i);
      var m := b[j + 1];
      if m == 0xFF || m == EOI {
        GivesUp(b, i, j, head, orientation, orientationAt, s);
        return None;
      }
      if m == SOS {
        ReachesScans(b, i, j, head, orientation, orientationAt, s);
        var whole := Finish(b, j, head, orientation, orientationAt, s);
        return Some(whole);
      }
      if StandsAlone(m) {
        StepsOverMarker(b, i, j, head, orientation, orientationAt, s);
        head := head + [b[j..j + 2]];
        i := j + 2;
      } else {
        var end;
        end, head, orientation, orientationAt := StepSegment(b, i, j, head, orientation, orientationAt, s);
        if end < 0 { return None; }
        i := end;
      }
    }
    GivesUp(b, i, i, head, orientation, orientationAt, s);
    return None;
  }

  method StripJpeg(b: seq<byte>) returns (out: seq<byte>)
    ensures From(out, 0, Nil) == Strip(From(b, 0, Nil))
  {
    if |b| < 4 { return b; }
    FieldsAt(b, 0);
    if b[0] != 0xFF || b[1] != SOI { return b; }
    FromSuffix(b, 0, Nil, 2);
    var stripped := WalkSegments(b);
    out := if stripped.Some? then stripped.value else b;
  }
}
