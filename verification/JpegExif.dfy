/**
 * What an Exif block says, built from its entries (TIFF in either byte order, as Exif uses it), and
 * that the reader finds it: the orientation a photo gives is the one its stored cover gives.
 */
module JpegExif {
  import opened Bytes
  import opened ByteLists
  import opened JpegStrip

  /** A directory entry: its tag, type and count, a 16-bit value, and two bytes more. */
  datatype Entry = Entry(tag: nat, kind: seq<byte>, value: nat, more: seq<byte>)

  predicate IsEntry(e: Entry) {
    e.tag < 0x1_0000 && |e.kind| == 6 && e.value < 0x1_0000 && |e.more| == 2
  }

  function Two(n: nat, little: bool): (b: seq<byte>)
    requires n < 0x1_0000
    ensures |b| == 2
  {
    if little then [n % 256, n / 256] else [n / 256, n % 256]
  }

  function Four(n: nat, little: bool): (b: seq<byte>)
    requires n < 0x1_0000_0000
    ensures |b| == 4
  {
    if little then [n % 256, n / 256 % 256, n / 0x1_0000 % 256, n / 0x100_0000]
    else [n / 0x100_0000, n / 0x1_0000 % 256, n / 256 % 256, n % 256]
  }

  function EntryBytes(e: Entry, little: bool): (b: seq<byte>)
    requires IsEntry(e)
    ensures |b| == 12
  {
    Two(e.tag, little) + e.kind + Two(e.value, little) + e.more
  }

  predicate AreEntries(es: seq<Entry>) {
    forall k :: 0 <= k < |es| ==> IsEntry(es[k])
  }

  /** The first n entries. */
  function Directory(es: seq<Entry>, n: nat, little: bool): (b: seq<byte>)
    requires n <= |es| && AreEntries(es)
    ensures |b| == 12 * n
  {
    if n == 0 then [] else Directory(es, n - 1, little) + EntryBytes(es[n - 1], little)
  }

  /** "Exif", two zeros, the byte order, 42 and where the directory is. */
  function ExifHeader(little: bool, at: nat): (b: seq<byte>)
    requires at < 0x1_0000_0000
    ensures |b| == 14
  {
    [0x45, 0x78, 0x69, 0x66, 0, 0] + (if little then [0x49, 0x49] else [0x4D, 0x4D])
    + Two(42, little) + Four(at, little)
  }

  /**
   * An Exif payload whose directory comes after `gap`: `count` entries, of which `es` are there, and
   * whatever else.
   */
  datatype Exif = Exif(little: bool, gap: seq<byte>, count: nat, es: seq<Entry>, tail: seq<byte>)

  predicate IsExif(x: Exif) {
    && 8 + |x.gap| < 0x1_0000_0000 && x.count < 0x1_0000 && AreEntries(x.es)
    && (x.count == |x.es| || (x.count > |x.es| && |x.tail| < 12))
  }

  function Front(x: Exif): (b: seq<byte>)
    requires IsExif(x)
    ensures |b| == 16 + |x.gap|
  {
    ExifHeader(x.little, 8 + |x.gap|) + x.gap + Two(x.count, x.little)
  }

  function Payload(x: Exif): (b: seq<byte>)
    requires IsExif(x)
    ensures |b| == 16 + |x.gap| + 12 * |x.es| + |x.tail|
  {
    Front(x) + Directory(x.es, |x.es|, x.little) + x.tail
  }

  /** The value of the first orientation entry from the k-th on, if it is one of the eight. */
  function Given(es: seq<Entry>, k: nat): Option<byte>
    requires k <= |es|
    decreases |es| - k
  {
    if k == |es| then None
    else if es[k].tag == 0x0112 then if 1 <= es[k].value <= 8 then Some(es[k].value) else None
    else Given(es, k + 1)
  }

  // ---- The reader finds it ----

  lemma ReadsTwo(s: seq<byte>, i: nat, n: nat, little: bool)
    requires n < 0x1_0000 && i + 2 <= |s| && s[i] == Two(n, little)[0] && s[i + 1] == Two(n, little)[1]
    ensures R16(s, i, little) == n
  {
  }

  lemma ReadsFour(s: seq<byte>, i: nat, n: nat, little: bool)
    requires n < 0x1_0000_0000 && i + 4 <= |s| && s[i..i + 4] == Four(n, little)
    ensures R32(s, i, little) == n
  {
    forall k | 0 <= k < 4 ensures s[i + k] == Four(n, little)[k] { assert s[i + k] == s[i..i + 4][k]; }
    var n1 := n / 256;
    var n2 := n1 / 256;
    assert n / 0x1_0000 == n2 && n / 0x100_0000 == n2 / 256;
    assert n == n % 256 + 256 * (n1 % 256) + 0x1_0000 * (n2 % 256) + 0x100_0000 * (n2 / 256);
  }

  lemma {:induction false} DirectoryAt(es: seq<Entry>, n: nat, little: bool, k: nat)
    requires k < n <= |es| && AreEntries(es)
    ensures Directory(es, n, little)[12 * k..12 * k + 12] == EntryBytes(es[k], little)
  {
    var front, last := Directory(es, n - 1, little), EntryBytes(es[n - 1], little);
    if k < n - 1 {
      DirectoryAt(es, n - 1, little, k);
      assert (front + last)[12 * k..12 * k + 12] == front[12 * k..12 * k + 12];
    } else {
      assert (front + last)[12 * k..12 * k + 12] == last;
    }
  }

  lemma HeaderReads(x: Exif)
    requires IsExif(x)
    ensures var s := Payload(x);
            && SaysExif(s) && s[6] == s[7] == (if x.little then 0x49 else 0x4D)
            && R16(s, 8, x.little) == 42 && R32(s, 10, x.little) == 8 + |x.gap|
  {
    var s, h := Payload(x), ExifHeader(x.little, 8 + |x.gap|);
    assert s[..14] == h;
    forall k | 0 <= k < 14 ensures s[k] == h[k] { assert s[k] == s[..14][k]; }
    ReadsTwo(s, 8, 42, x.little);
    assert s[10..14] == h[10..14] == Four(8 + |x.gap|, x.little);
    ReadsFour(s, 10, 8 + |x.gap|, x.little);
  }

  lemma CountReads(x: Exif)
    requires IsExif(x)
    ensures R16(Payload(x), 14 + |x.gap|, x.little) == x.count
  {
    var s, at := Payload(x), 14 + |x.gap|;
    assert s[at..at + 2] == Two(x.count, x.little);
    assert s[at] == s[at..at + 2][0] && s[at + 1] == s[at..at + 2][1];
    ReadsTwo(s, at, x.count, x.little);
  }

  lemma EntryThere(x: Exif, k: nat)
    requires IsExif(x) && k < |x.es|
    ensures var e := 16 + |x.gap| + 12 * k; Payload(x)[e..e + 12] == EntryBytes(x.es[k], x.little)
  {
    var directory := Directory(x.es, |x.es|, x.little);
    assert directory[12 * k..12 * k + 12] == EntryBytes(x.es[k], x.little) by {
      DirectoryAt(x.es, |x.es|, x.little, k);
    }
    Inside(Front(x), directory, x.tail, 12 * k, 12 * k + 12);
  }

  lemma Inside(a: seq<byte>, b: seq<byte>, c: seq<byte>, from: nat, to: nat)
    requires from <= to <= |b|
    ensures (a + b + c)[|a| + from..|a| + to] == b[from..to]
  {
  }

  lemma EntryFields(s: seq<byte>, i: nat, e: Entry, little: bool)
    requires IsEntry(e) && i + 12 <= |s| && s[i..i + 12] == EntryBytes(e, little)
    ensures R16(s, i, little) == e.tag && R16(s, i + 8, little) == e.value
  {
    var b := EntryBytes(e, little);
    forall k | 0 <= k < 12 ensures s[i + k] == b[k] { assert s[i + k] == s[i..i + 12][k]; }
    assert b[0] == Two(e.tag, little)[0] && b[1] == Two(e.tag, little)[1];
    assert b[8] == Two(e.value, little)[0] && b[9] == Two(e.value, little)[1];
    ReadsTwo(s, i, e.tag, little);
    ReadsTwo(s, i + 8, e.value, little);
  }

  lemma EntryReads(x: Exif, k: nat)
    requires IsExif(x) && k < |x.es|
    ensures var e := 16 + |x.gap| + 12 * k;
            R16(Payload(x), e, x.little) == x.es[k].tag && R16(Payload(x), e + 8, x.little) == x.es[k].value
  {
    EntryThere(x, k);
    EntryFields(Payload(x), 16 + |x.gap| + 12 * k, x.es[k], x.little);
  }

  lemma {:induction false} DirectoryReads(x: Exif, k: nat)
    requires IsExif(x) && k <= |x.es|
    ensures FindOrientation(Payload(x), 14 + |x.gap|, x.little, k, x.count) == Given(x.es, k)
    decreases |x.es| - k
  {
    if k < |x.es| {
      EntryReads(x, k);
      DirectoryReads(x, k + 1);
    }
  }

  /** In either byte order, any directory reads as the value of its first orientation entry, if that is 1..8. */
  lemma ExifReads(x: Exif)
    requires IsExif(x)
    ensures ExifOrientation(Payload(x)) == Given(x.es, 0)
  {
    HeaderReads(x);
    CountReads(x);
    DirectoryReads(x, 0);
  }

  // ---- And the cover keeps it ----

  /** A metadata segment that has no Exif: it is Photoshop's, or XMP, or too short. */
  predicate NoExif(bytes: seq<byte>) {
    |bytes| < 10 || bytes[1] != 0xE1 || bytes[4..10] != [0x45, 0x78, 0x69, 0x66, 0, 0]
  }

  lemma SaysExifAt(bytes: seq<byte>)
    requires |bytes| >= 10
    ensures SaysExif(bytes[4..]) <==> bytes[4..10] == [0x45, 0x78, 0x69, 0x66, 0, 0]
  {
    forall k | 0 <= k < 6 ensures bytes[4..][k] == bytes[4..10][k] {}
  }

  lemma NoExifGivesNone(bytes: seq<byte>)
    requires NoExif(bytes) && |bytes| > 4 && bytes[1] == APP1
    ensures ExifOrientation(bytes[4..]) == None
  {
    if |bytes| >= 10 { SaysExifAt(bytes); }
  }

  ghost predicate NoneHasExif(ms: seq<seq<byte>>, n: nat)
    requires n <= |ms|
  {
    forall j :: 0 <= j < n ==> NoExif(ms[j])
  }

  lemma OneFewer(first: seq<byte>, ms: seq<seq<byte>>, n: nat)
    requires 0 < n <= |ms| + 1 && NoneHasExif([first] + ms, n)
    ensures NoExif(first) && NoneHasExif(ms, n - 1)
  {
    assert ([first] + ms)[0] == first;
    forall j | 0 <= j < n - 1 ensures NoExif(ms[j]) { assert ([first] + ms)[j + 1] == ms[j]; }
  }

  lemma MetadataIs(s: Segments)
    requires s.Marker? || s.Segment?
    ensures Metadata(s) == if s.Segment? && IsMetadata(s.bytes) then [s.bytes] + Metadata(s.next) else Metadata(s.next)
  {
    assert [] + Metadata(s.next) == Metadata(s.next);
  }

  lemma {:induction false} FirstExifGives(s: Segments, k: nat, x: Exif)
    requires k < |Metadata(s)| && IsExif(x) && NoneHasExif(Metadata(s), k)
    requires |Metadata(s)[k]| > 4 && Metadata(s)[k][1] == 0xE1 && Metadata(s)[k][4..] == Payload(x)
    requires Given(x.es, 0).Some?
    ensures Orientation(s) == Given(x.es, 0)
  {
    MetadataIs(s);
    if s.Segment? && IsMetadata(s.bytes) {
      if k == 0 {
        ExifReads(x);
      } else {
        OneFewer(s.bytes, Metadata(s.next), k);
        if |s.bytes| > 4 && s.bytes[1] == APP1 { NoExifGivesNone(s.bytes); }
        FirstExifGives(s.next, k - 1, x);
      }
    } else {
      FirstExifGives(s.next, k, x);
    }
  }

  lemma {:induction false} NoExifGives(s: Segments)
    requires NoneHasExif(Metadata(s), |Metadata(s)|)
    ensures Orientation(s) == None
  {
    if s.Marker? || s.Segment? {
      MetadataIs(s);
      if s.Segment? && IsMetadata(s.bytes) {
        OneFewer(s.bytes, Metadata(s.next), |Metadata(s)|);
        if |s.bytes| > 4 && s.bytes[1] == APP1 { NoExifGivesNone(s.bytes); }
      }
      NoExifGives(s.next);
    }
  }

  /** The segment written: a big-endian Exif whose one entry is the orientation. */
  function Upright(value: byte): Exif {
    Exif(false, [], 1, [Entry(0x0112, [0, 3, 0, 0, 0, 1], value, [0, 0])], [0, 0, 0, 0])
  }

  lemma WrittenIsExif(value: byte)
    ensures IsExif(Upright(value)) && OrientationSegment(value) == [0xFF, 0xE1, 0, 34] + Payload(Upright(value))
  {
  }

  /**
   * Whichever way round its first Exif is written, a photo that gives an orientation other than upright
   * is stored with that orientation and no other metadata before its scans; an upright one with none.
   */
  lemma PhotoKeepsOrientation(l: ByteList, k: nat, x: Exif)
    requires IsJpeg(l) && Whole(Parse(Suffix(l, 2))) && IsExif(x) && Given(x.es, 0).Some?
    requires var ms := Metadata(Parse(Suffix(l, 2)));
             && k < |ms| && NoneHasExif(ms, k)
             && |ms[k]| > 4 && ms[k][1] == 0xE1 && ms[k][4..] == Payload(x)
    ensures var v := Given(x.es, 0).value;
            Metadata(Parse(Suffix(Strip(l), 2)))
            == if v == 1 then [] else [[0xFF, 0xE1, 0, 34] + Payload(Upright(v))]
  {
    FirstExifGives(Parse(Suffix(l, 2)), k, x);
    OnlyOrientationLeft(l);
    WrittenIsExif(Given(x.es, 0).value);
  }

  /** And one with no Exif is stored with none. */
  lemma NoExifKeepsNone(l: ByteList)
    requires IsJpeg(l) && Whole(Parse(Suffix(l, 2)))
    requires var ms := Metadata(Parse(Suffix(l, 2))); NoneHasExif(ms, |ms|)
    ensures Metadata(Parse(Suffix(Strip(l), 2))) == []
  {
    NoExifGives(Parse(Suffix(l, 2)));
    OnlyOrientationLeft(l);
  }
}
