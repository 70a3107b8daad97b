/**
 * The OLED layout's blob (src/lib/display-layout.ts): encoding and decoding undo each other, and
 * what stripping records leaves.
 */
module DisplayLayout {
  import opened Bytes

  const FORMAT: byte := 1
  const HEADER: nat := 4
  const RECORD: nat := 8
  const LEGACY_HEAD_ID: byte := 10
  const ROTATION_RECORD: byte := 0x80

  /** Element ids are these, in order, from 1. */
  datatype ElementName = Status | Wifi | Write | Title | Detail | Track | Download | Lemming | Nfc

  datatype Panel = P128x32 | P128x64

  /** The optional field of the JSON: not there, 0 or 180. */
  datatype Rotation = Absent | Upright | HalfTurn

  datatype Element = Element(id: ElementName, visible: bool, doubled: bool, x: int, y: int, w: int, opt: int)

  datatype Layout = Layout(panel: Panel, rotation: Rotation, elements: seq<Element>)

  datatype Decoded = Decoded(layout: Layout) | NotALayout | WrongLength(length: nat, n: nat) | UnknownElement(id: byte)

  // ---- Blobs as a header and records ----

  datatype Rec = Rec(id: byte, flags: byte, x: byte, y: byte, w: byte, opt: byte, r6: byte, r7: byte)

  function RecordAt(b: seq<byte>, i: nat): Rec
    requires HEADER + RECORD * (i + 1) <= |b|
  {
    var r := HEADER + RECORD * i;
    Rec(b[r], b[r + 1], b[r + 2], b[r + 3], b[r + 4], b[r + 5], b[r + 6], b[r + 7])
  }

  predicate HasRecords(b: seq<byte>) {
    |b| >= HEADER && |b| == HEADER + RECORD * b[2]
  }

  /** The first n records. */
  function Records(b: seq<byte>, n: nat): (rs: seq<Rec>)
    requires HEADER + RECORD * n <= |b|
    ensures |rs| == n && forall k :: 0 <= k < n ==> rs[k] == RecordAt(b, k)
  {
    if n == 0 then [] else Records(b, n - 1) + [RecordAt(b, n - 1)]
  }

  function RecordBytes(r: Rec): seq<byte> {
    [r.id, r.flags, r.x, r.y, r.w, r.opt, r.r6, r.r7]
  }

  function Flat(rs: seq<Rec>, n: nat): (b: seq<byte>)
    requires n <= |rs|
    ensures |b| == RECORD * n
  {
    if n == 0 then [] else Flat(rs, n - 1) + RecordBytes(rs[n - 1])
  }

  /** The blob with this header and these records. */
  function Blob(format: byte, panel: byte, count: byte, reserved: byte, rs: seq<Rec>): (b: seq<byte>)
    ensures |b| == HEADER + RECORD * |rs|
  {
    [format, panel, count, reserved] + Flat(rs, |rs|)
  }

  lemma {:induction false} FlatAt(rs: seq<Rec>, n: nat, k: nat, j: nat)
    requires k < n <= |rs| && j < RECORD
    ensures RECORD * k + j < |Flat(rs, n)| && Flat(rs, n)[RECORD * k + j] == RecordBytes(rs[k])[j]
    decreases n
  {
    if k < n - 1 { FlatAt(rs, n - 1, k, j); }
  }

  lemma BlobRecord(format: byte, panel: byte, count: byte, reserved: byte, rs: seq<Rec>, k: nat)
    requires k < |rs|
    ensures RecordAt(Blob(format, panel, count, reserved, rs), k) == rs[k]
  {
    var n := |rs|;
    FlatAt(rs, n, k, 0);
    FlatAt(rs, n, k, 1);
    FlatAt(rs, n, k, 2);
    FlatAt(rs, n, k, 3);
    FlatAt(rs, n, k, 4);
    FlatAt(rs, n, k, 5);
    FlatAt(rs, n, k, 6);
    FlatAt(rs, n, k, 7);
  }

  lemma BlobRecords(format: byte, panel: byte, reserved: byte, rs: seq<Rec>)
    requires |rs| < 256
    ensures var b := Blob(format, panel, |rs|, reserved, rs); HasRecords(b) && b[2] == |rs| && Records(b, |rs|) == rs
  {
    forall k | 0 <= k < |rs| ensures RecordAt(Blob(format, panel, |rs|, reserved, rs), k) == rs[k] {
      BlobRecord(format, panel, |rs|, reserved, rs, k);
    }
  }

  lemma {:induction false} FlatRecords(b: seq<byte>, n: nat)
    requires HEADER + RECORD * n <= |b|
    ensures Flat(Records(b, n), n) == b[HEADER..HEADER + RECORD * n]
  {
    if n > 0 {
      FlatRecords(b, n - 1);
      FlatSame(Records(b, n - 1), Records(b, n), n - 1);
      var r := HEADER + RECORD * (n - 1);
      assert RecordBytes(RecordAt(b, n - 1)) == b[r..r + RECORD];
      assert b[HEADER..r] + b[r..r + RECORD] == b[HEADER..r + RECORD];
    }
  }

  lemma {:induction false} FlatSame(rs: seq<Rec>, more: seq<Rec>, n: nat)
    requires n <= |rs| && n <= |more| && forall i :: 0 <= i < n ==> rs[i] == more[i]
    ensures Flat(rs, n) == Flat(more, n)
  {
    if n > 0 { FlatSame(rs, more, n - 1); }
  }

  lemma BlobOfRecords(b: seq<byte>)
    requires HasRecords(b)
    ensures b == Blob(b[0], b[1], b[2], b[3], Records(b, b[2]))
  {
    FlatRecords(b, b[2]);
    assert b == [b[0], b[1], b[2], b[3]] + b[HEADER..];
  }

  // ---- Encoding ----

  function IdOf(e: ElementName): byte {
    match e case Status => 1 case Wifi => 2 case Write => 3 case Title => 4 case Detail => 5 case Track => 6
            case Download => 7 case Lemming => 8 case Nfc => 9
  }

  function NameOf(id: byte): Option<ElementName> {
    match id
    case 1 => Some(Status) case 2 => Some(Wifi) case 3 => Some(Write) case 4 => Some(Title) case 5 => Some(Detail)
             case 6 => Some(Track) case 7 => Some(Download) case 8 => Some(Lemming) case 9 => Some(Nfc) case _ => None
  }

  /** What a byte array keeps of a number. */
  function Low(n: int): byte {
    n % 256
  }

  function ElementRecord(e: Element): Rec {
    Rec(IdOf(e.id), (if e.visible then 1 else 0) + (if e.doubled then 2 else 0),
        Low(e.x), Low(e.y), Low(e.w), Low(e.opt), 0, 0)
  }

  const ROTATION := Rec(ROTATION_RECORD, 0, 0, 0, 0, 2, 0, 0)

  function PanelId(p: Panel): byte {
    if p == P128x64 then 1 else 0
  }

  function LayoutRecords(j: Layout): seq<Rec> {
    seq(|j.elements|, i requires 0 <= i < |j.elements| => ElementRecord(j.elements[i])) +
    (if j.rotation == HalfTurn then [ROTATION] else [])
  }

  function Encode(j: Layout): seq<byte> {
    var rs := LayoutRecords(j);
    Blob(FORMAT, PanelId(j.panel), Low(|rs|), 0, rs)
  }

  /** The names, in the order of their ids. */
  const NAMES: seq<ElementName> := [Status, Wifi, Write, Title, Detail, Track, Download, Lemming, Nfc]

  /** Where each of an element's fields is in the blob. */
  lemma ElementBytes(j: Layout, i: nat)
    requires i < |j.elements|
    ensures var b, e, r := Encode(j), j.elements[i], 4 + 8 * i;
            && r + 8 <= |b| && 1 <= b[r] <= 9 && NAMES[b[r] - 1] == e.id
            && (b[r + 1] % 2 == 1 <==> e.visible) && (b[r + 1] / 2 == 1 <==> e.doubled) && b[r + 1] < 4
            && b[r + 2] == Low(e.x) && b[r + 3] == Low(e.y) && b[r + 4] == Low(e.w) && b[r + 5] == Low(e.opt)
            && b[r + 6] == 0 && b[r + 7] == 0
  {
    var rs := LayoutRecords(j);
    assert rs[i] == ElementRecord(j.elements[i]);
    BlobRecord(FORMAT, PanelId(j.panel), Low(|rs|), 0, rs, i);
    assert RecordAt(Encode(j), i) == ElementRecord(j.elements[i]);
  }

  /** And its header, and the record that turns the layout. */
  lemma HeaderBytes(j: Layout)
    ensures var b, n := Encode(j), |j.elements|;
            && |b| == 4 + 8 * (n + if j.rotation == HalfTurn then 1 else 0)
            && b[0] == 1 && (b[1] == 1 <==> j.panel == P128x64) && b[1] <= 1 && b[3] == 0
            && b[2] == Low(n + if j.rotation == HalfTurn then 1 else 0)
            && (j.rotation == HalfTurn ==> b[4 + 8 * n..] == [128, 0, 0, 0, 0, 2, 0, 0])
  {
    var rs, n := LayoutRecords(j), |j.elements|;
    if j.rotation == HalfTurn {
      assert rs[n] == ROTATION;
      BlobRecord(FORMAT, PanelId(j.panel), Low(|rs|), 0, rs, n);
      assert RecordAt(Encode(j), n) == ROTATION;
    }
  }

  // ---- Decoding ----

  /** What the loop has gathered: a rotation, elements, or the first id it does not know. */
  datatype Gathered = Gathered(turned: bool, elements: seq<Element>) | Stopped(id: byte)

  function ElementOf(name: ElementName, r: Rec): Element {
    Element(name, r.flags % 2 == 1, r.flags / 2 % 2 == 1, r.x, r.y, r.w, r.opt)
  }

  function Take(g: Gathered, r: Rec): Gathered {
    if g.Stopped? then g
    else if r.id == ROTATION_RECORD then g.(turned := g.turned || r.opt == 2)
    else if r.id == LEGACY_HEAD_ID then g
    else match NameOf(r.id)
      case None => Stopped(r.id)
      case Some(name) => g.(elements := g.elements + [ElementOf(name, r)])
  }

  function Gather(rs: seq<Rec>, n: nat): Gathered
    requires n <= |rs|
  {
    if n == 0 then Gathered(false, []) else Take(Gather(rs, n - 1), rs[n - 1])
  }

  function Decode(b: seq<byte>): Decoded {
    if |b| < HEADER || b[0] != FORMAT then NotALayout
    else if !HasRecords(b) then WrongLength(|b|, b[2])
    else Finish(b[1], Gather(Records(b, b[2]), b[2]))
  }

  function Finish(panel: byte, g: Gathered): Decoded {
    match g
    case Stopped(id) => UnknownElement(id)
    case Gathered(turned, elements) =>
      Decoded(Layout(if panel == 1 then P128x64 else P128x32, if turned then HalfTurn else Absent, elements))
  }

  lemma BlobDecodes(panel: byte, reserved: byte, rs: seq<Rec>)
    requires |rs| < 256
    ensures Decode(Blob(FORMAT, panel, |rs|, reserved, rs)) == Finish(panel, Gather(rs, |rs|))
  {
    BlobRecords(FORMAT, panel, reserved, rs);
  }

  lemma {:induction false} GatherSame(rs: seq<Rec>, more: seq<Rec>, n: nat)
    requires n <= |rs| && n <= |more| && forall i :: 0 <= i < n ==> rs[i] == more[i]
    ensures Gather(rs, n) == Gather(more, n)
  {
    if n > 0 { GatherSame(rs, more, n - 1); }
  }

  // ---- Encode, then decode ----

  predicate IsByte(n: int) {
    0 <= n < 256
  }

  /** What fits a blob: at most 255 records, and fields a byte holds. */
  predicate Fits(j: Layout) {
    && |j.elements| + (if j.rotation == HalfTurn then 1 else 0) <= 255
    && forall k :: 0 <= k < |j.elements| ==>
         var e := j.elements[k]; IsByte(e.x) && IsByte(e.y) && IsByte(e.w) && IsByte(e.opt)
  }

  /** A rotation of 0 is the same as none. */
  function Normal(j: Layout): Layout {
    if j.rotation == Upright then j.(rotation := Absent) else j
  }

  function Kept(e: Element): Element {
    e.(x := Low(e.x), y := Low(e.y), w := Low(e.w), opt := Low(e.opt))
  }

  lemma TakesElement(g: Gathered, e: Element)
    requires g.Gathered?
    ensures Take(g, ElementRecord(e)) == g.(elements := g.elements + [Kept(e)])
  {
  }

  lemma {:induction false} GathersElements(j: Layout, n: nat)
    requires n <= |j.elements|
    ensures Gather(LayoutRecords(j), n) == Gathered(false, seq(n, i requires 0 <= i < n => Kept(j.elements[i])))
  {
    if n > 0 {
      GathersElements(j, n - 1);
      assert LayoutRecords(j)[n - 1] == ElementRecord(j.elements[n - 1]);
      TakesElement(Gather(LayoutRecords(j), n - 1), j.elements[n - 1]);
      assert seq(n - 1, i requires 0 <= i < n - 1 => Kept(j.elements[i])) + [Kept(j.elements[n - 1])]
          == seq(n, i requires 0 <= i < n => Kept(j.elements[i]));
    }
  }

  function KeptElements(j: Layout): seq<Element> {
    seq(|j.elements|, i requires 0 <= i < |j.elements| => Kept(j.elements[i]))
  }

  lemma GathersAll(j: Layout)
    ensures var rs := LayoutRecords(j); Gather(rs, |rs|) == Gathered(j.rotation == HalfTurn, KeptElements(j))
  {
    var rs, n := LayoutRecords(j), |j.elements|;
    GathersElements(j, n);
    if j.rotation == HalfTurn { assert rs[n] == ROTATION; }
  }

  lemma EncodedDecodes(j: Layout)
    requires |LayoutRecords(j)| <= 255
    ensures Decode(Encode(j)) == Decoded(Normal(j).(elements := KeptElements(j)))
  {
    BlobDecodes(PanelId(j.panel), 0, LayoutRecords(j));
    GathersAll(j);
  }

  lemma TooManyRecords(j: Layout)
    requires |LayoutRecords(j)| > 255
    ensures Decode(Encode(j)).WrongLength?
  {
    var n := |LayoutRecords(j)|;
    assert Low(n) < 256 <= n;
  }

  lemma KeepsBytes(j: Layout)
    ensures KeptElements(j) == j.elements <==>
            forall k :: 0 <= k < |j.elements| ==>
              var e := j.elements[k]; IsByte(e.x) && IsByte(e.y) && IsByte(e.w) && IsByte(e.opt)
  {
    if KeptElements(j) == j.elements {
      forall k | 0 <= k < |j.elements| ensures Kept(j.elements[k]) == j.elements[k] {
        assert KeptElements(j)[k] == j.elements[k];
      }
    }
  }

  /** A layout comes back from its blob, with a rotation of 0 left out, if and only if it fits one. */
  lemma EncodeThenDecode(j: Layout)
    ensures Decode(Encode(j)) == Decoded(Normal(j)) <==> Fits(j)
  {
    KeepsBytes(j);
    if |LayoutRecords(j)| <= 255 { EncodedDecodes(j); } else { TooManyRecords(j); }
  }

  // ---- Decode, then encode ----

  /** A record as the encoder writes it. */
  predicate CanonicalElement(r: Rec) {
    1 <= r.id <= 9 && r.flags < 4 && r.r6 == 0 && r.r7 == 0
  }

  /** A blob as the encoder writes it: elements, then at most one rotation of 180. */
  predicate Canonical(b: seq<byte>)
    requires HasRecords(b)
  {
    var n := b[2] as nat;
    && b[1] < 2 && b[3] == 0
    && (forall k :: 0 <= k < n - 1 ==> CanonicalElement(RecordAt(b, k)))
    && (n > 0 ==> CanonicalElement(RecordAt(b, n - 1)) || RecordAt(b, n - 1) == ROTATION)
  }

  lemma {:induction false} GathersCanonical(rs: seq<Rec>, n: nat)
    requires n <= |rs| && forall k :: 0 <= k < n ==> CanonicalElement(rs[k])
    ensures Gather(rs, n).Gathered? && !Gather(rs, n).turned && |Gather(rs, n).elements| == n
    ensures forall k :: 0 <= k < n ==> ElementRecord(Gather(rs, n).elements[k]) == rs[k]
  {
    if n > 0 {
      GathersCanonical(rs, n - 1);
      TakesCanonical(Gather(rs, n - 1), rs[n - 1]);
    }
  }

  lemma TakesCanonical(g: Gathered, r: Rec)
    requires g.Gathered? && CanonicalElement(r)
    ensures var t := Take(g, r);
            && t.Gathered? && t.turned == g.turned && |t.elements| == |g.elements| + 1
            && t.elements[..|g.elements|] == g.elements && ElementRecord(t.elements[|g.elements|]) == r
  {
  }

  lemma CanonicalRecords(b: seq<byte>)
    requires HasRecords(b) && b[0] == FORMAT && Canonical(b)
    ensures Decode(b).Decoded? && LayoutRecords(Decode(b).layout) == Records(b, b[2])
  {
    var rs := Records(b, b[2]);
    var n := |rs|;
    if n > 0 && rs[n - 1] == ROTATION {
      GathersCanonical(rs, n - 1);
      assert Gather(rs, n) == Gather(rs, n - 1).(turned := true);
    } else {
      GathersCanonical(rs, n);
    }
    var j := Decode(b).layout;
    assert LayoutRecords(j) == rs;
  }

  lemma EncodesCanonical(j: Layout)
    requires |LayoutRecords(j)| < 256
    ensures HasRecords(Encode(j)) && Canonical(Encode(j))
  {
    RecordsCanonical(j);
    CanonicalBlob(PanelId(j.panel), LayoutRecords(j));
  }

  lemma RecordsCanonical(j: Layout)
    ensures var rs := LayoutRecords(j);
            && (forall k :: 0 <= k < |rs| - 1 ==> CanonicalElement(rs[k]))
            && (|rs| > 0 ==> CanonicalElement(rs[|rs| - 1]) || rs[|rs| - 1] == ROTATION)
  {
    var rs := LayoutRecords(j);
    forall k | 0 <= k < |j.elements| ensures CanonicalElement(rs[k]) { assert rs[k] == ElementRecord(j.elements[k]); }
    if j.rotation == HalfTurn { assert rs[|j.elements|] == ROTATION; }
  }

  lemma CanonicalBlob(panel: byte, rs: seq<Rec>)
    requires |rs| < 256 && panel < 2
    requires forall k :: 0 <= k < |rs| - 1 ==> CanonicalElement(rs[k])
    requires |rs| > 0 ==> CanonicalElement(rs[|rs| - 1]) || rs[|rs| - 1] == ROTATION
    ensures HasRecords(Blob(FORMAT, panel, |rs|, 0, rs)) && Canonical(Blob(FORMAT, panel, |rs|, 0, rs))
  {
    BlobRecords(FORMAT, panel, 0, rs);
    forall k | 0 <= k < |rs| ensures RecordAt(Blob(FORMAT, panel, |rs|, 0, rs), k) == rs[k] {
      BlobRecord(FORMAT, panel, |rs|, 0, rs, k);
    }
  }

  lemma EncodedLength(j: Layout)
    requires HasRecords(Encode(j))
    ensures |LayoutRecords(j)| < 256
  {
    assert Encode(j)[2] == Low(|LayoutRecords(j)|);
  }

  /** Decoding loses nothing of what the encoder writes, and the encoder writes nothing else. */
  lemma DecodeThenEncode(b: seq<byte>)
    requires Decode(b).Decoded?
    ensures Encode(Decode(b).layout) == b <==> Canonical(b)
  {
    if Canonical(b) {
      CanonicalRecords(b);
      BlobOfRecords(b);
    } else if Encode(Decode(b).layout) == b {
      EncodedLength(Decode(b).layout);
      EncodesCanonical(Decode(b).layout);
      assert false;
    }
  }

  // ---- Stripping records ----

  /** The records without those of one id. */
  function Without(rs: seq<Rec>, id: byte, n: nat): (kept: seq<Rec>)
    requires n <= |rs|
    ensures |kept| <= n
  {
    if n == 0 then []
    else if rs[n - 1].id == id then Without(rs, id, n - 1)
    else Without(rs, id, n - 1) + [rs[n - 1]]
  }

  function Strip(b: seq<byte>, id: byte): seq<byte> {
    if |b| < HEADER || b[0] != FORMAT || !HasRecords(b) then b
    else
      var kept := Without(Records(b, b[2]), id, b[2]);
      Blob(b[0], b[1], |kept|, b[3], kept)
  }

  /** The head records go, or the rotation: what a gathering makes of the rest. */
  function UprightOf(g: Gathered): Gathered {
    if g.Gathered? then g.(turned := false) else g
  }

  lemma {:induction false} GathersWithoutHeads(rs: seq<Rec>, n: nat)
    requires n <= |rs|
    ensures var kept := Without(rs, LEGACY_HEAD_ID, n); Gather(kept, |kept|) == Gather(rs, n)
  {
    if n > 0 {
      GathersWithoutHeads(rs, n - 1);
      var before := Without(rs, LEGACY_HEAD_ID, n - 1);
      if rs[n - 1].id != LEGACY_HEAD_ID { GatherSame(before, before + [rs[n - 1]], |before|); }
    }
  }

  lemma {:induction false} GathersWithoutRotation(rs: seq<Rec>, n: nat)
    requires n <= |rs|
    ensures var kept := Without(rs, ROTATION_RECORD, n); Gather(kept, |kept|) == UprightOf(Gather(rs, n))
  {
    if n > 0 {
      GathersWithoutRotation(rs, n - 1);
      var before := Without(rs, ROTATION_RECORD, n - 1);
      if rs[n - 1].id != ROTATION_RECORD { GatherSame(before, before + [rs[n - 1]], |before|); }
    }
  }

  lemma StripDecodes(b: seq<byte>, id: byte)
    requires HasRecords(b) && b[0] == FORMAT
    ensures var kept := Without(Records(b, b[2]), id, b[2]); Decode(Strip(b, id)) == Finish(b[1], Gather(kept, |kept|))
  {
    BlobDecodes(b[1], b[3], Without(Records(b, b[2]), id, b[2]));
  }

  /** Without its withdrawn head records every byte string decodes as it did, or fails as it did. */
  lemma HeadsDoNotMatter(b: seq<byte>)
    ensures Decode(Strip(b, LEGACY_HEAD_ID)) == Decode(b)
  {
    if HasRecords(b) && b[0] == FORMAT {
      StripDecodes(b, LEGACY_HEAD_ID);
      GathersWithoutHeads(Records(b, b[2]), b[2]);
    }
  }

  /** Without its rotation record it decodes to the same layout, upright. */
  lemma StrippedUpright(b: seq<byte>)
    ensures Decode(Strip(b, ROTATION_RECORD)) ==
            if Decode(b).Decoded? then Decoded(Decode(b).layout.(rotation := Absent)) else Decode(b)
  {
    if HasRecords(b) && b[0] == FORMAT {
      StripDecodes(b, ROTATION_RECORD);
      GathersWithoutRotation(Records(b, b[2]), b[2]);
    }
  }

  // ---- The code ----

  /** Bytes 6 and 7 stay the 0 they were made. */
  method PutElement(out: array<byte>, r: nat, e: Element)
    requires r + RECORD <= out.Length && out[r + 6] == 0 && out[r + 7] == 0
    modifies out
    ensures out[..r + RECORD] == old(out[..r]) + RecordBytes(ElementRecord(e))
    ensures forall k :: r + RECORD <= k < out.Length ==> out[k] == old(out[k])
  {
    out[r] := IdOf(e.id);
    out[r + 1] := (if e.visible then 1 else 0) + (if e.doubled then 2 else 0);
    out[r + 2] := Low(e.x);
    out[r + 3] := Low(e.y);
    out[r + 4] := Low(e.w);
    out[r + 5] := Low(e.opt);
    assert out[..r] == old(out[..r]);
    assert out[r..r + RECORD] == RecordBytes(ElementRecord(e));
    assert out[..r + RECORD] == out[..r] + out[r..r + RECORD];
  }

  method PutRotation(out: array<byte>, r: nat)
    requires out.Length == r + RECORD && forall k :: r <= k < out.Length ==> out[k] == 0
    modifies out
    ensures out[..] == old(out[..r]) + RecordBytes(ROTATION)
  {
    out[r] := ROTATION_RECORD;
    out[r + 5] := 2;
    assert out[..r] == old(out[..r]);
    assert out[r..] == RecordBytes(ROTATION);
    assert out[..] == out[..r] + out[r..];
  }

  lemma OneMoreRecord(header: seq<byte>, rs: seq<Rec>, n: nat)
    requires n < |rs|
    ensures header + Flat(rs, n + 1) == header + Flat(rs, n) + RecordBytes(rs[n])
  {
  }

  /** The header and the first n records. */
  ghost predicate Written(b: seq<byte>, header: seq<byte>, rs: seq<Rec>, n: nat)
    requires n <= |rs|
  {
    b == header + Flat(rs, n)
  }

  lemma WrittenMore(b: seq<byte>, more: seq<byte>, header: seq<byte>, rs: seq<Rec>, n: nat)
    requires n < |rs| && Written(b, header, rs, n) && more == b + RecordBytes(rs[n])
    ensures Written(more, header, rs, n + 1)
  {
    OneMoreRecord(header, rs, n);
  }

  method PutElements(out: array<byte>, j: Layout)
    requires out.Length >= HEADER + RECORD * |j.elements| && forall k :: HEADER <= k < out.Length ==> out[k] == 0
    modifies out
    ensures Written(out[..HEADER + RECORD * |j.elements|], old(out[..HEADER]), LayoutRecords(j), |j.elements|)
    ensures forall k :: HEADER + RECORD * |j.elements| <= k < out.Length ==> out[k] == 0
  {
    ghost var rs, header := LayoutRecords(j), out[..HEADER];
    for i := 0 to |j.elements|
      invariant Written(out[..HEADER + RECORD * i], header, rs, i)
      invariant forall k :: HEADER + RECORD * i <= k < out.Length ==> out[k] == 0
    {
      ghost var written := out[..HEADER + RECORD * i];
      PutElement(out, HEADER + RECORD * i, j.elements[i]);
      assert rs[i] == ElementRecord(j.elements[i]);
      WrittenMore(written, out[..HEADER + RECORD * (i + 1)], header, rs, i);
    }
  }

  function HeaderOf(j: Layout): seq<byte> {
    [FORMAT, PanelId(j.panel), Low(|LayoutRecords(j)|), 0]
  }

  /** The blob is the header, the elements and, turned, one more record. */
  lemma EncodedIs(j: Layout, elements: seq<byte>)
    requires Written(elements, HeaderOf(j), LayoutRecords(j), |j.elements|)
    ensures Encode(j) == if j.rotation == HalfTurn then elements + RecordBytes(ROTATION) else elements
  {
    var rs, n := LayoutRecords(j), |j.elements|;
    if j.rotation == HalfTurn {
      assert rs[n] == ROTATION;
      OneMoreRecord(HeaderOf(j), rs, n);
    }
  }

  method EncodeLayout(j: Layout) returns (out: array<byte>)
    ensures fresh(out) && out[..] == Encode(j)
  {
    var n := |j.elements|;
    var turned := j.rotation == HalfTurn;
    out := NewBlob(j, n + if turned then 1 else 0);
    PutElements(out, j);
    EncodedIs(j, out[..HEADER + RECORD * n]);
    if turned { PutRotation(out, HEADER + RECORD * n); } else { assert out[..] == out[..HEADER + RECORD * n]; }
  }

  /** A blob for so many records, its header written. */
  method NewBlob(j: Layout, records: nat) returns (out: array<byte>)
    requires records == |LayoutRecords(j)|
    ensures fresh(out) && out.Length == HEADER + RECORD * records && out[..HEADER] == HeaderOf(j)
    ensures forall k :: HEADER <= k < out.Length ==> out[k] == 0
  {
    out := new byte[HEADER + RECORD * records](_ => 0);
    out[0] := FORMAT;
    out[1] := PanelId(j.panel);
    out[2] := Low(records);
  }

  method DecodeLayout(b: seq<byte>) returns (d: Decoded)
    ensures d == Decode(b)
  {
    if |b| < HEADER || b[0] != FORMAT { return NotALayout; }
    var n: nat := b[2];
    if |b| != HEADER + RECORD * n { return WrongLength(|b|, n); }
    ghost var rs := Records(b, n);
    var elements: seq<Element> := [];
    var turned := false;
    for i := 0 to n
      invariant Gather(rs, i) == Gathered(turned, elements)
    {
      var r := HEADER + RECORD * i;
      assert rs[i] == RecordAt(b, i);
      if b[r] == ROTATION_RECORD {
        if b[r + 5] == 2 { turned := true; }
        continue;
      }
      if b[r] == LEGACY_HEAD_ID { continue; }
      var name := NameOf(b[r]);
      if name.None? {
        StaysStopped(rs, i + 1, n);
        return UnknownElement(b[r]);
      }
      elements := elements + [Element(name.value, b[r + 1] % 2 == 1, b[r + 1] / 2 % 2 == 1,
                                      b[r + 2], b[r + 3], b[r + 4], b[r + 5])];
    }
    d := Decoded(Layout(if b[1] == 1 then P128x64 else P128x32, if turned then HalfTurn else Absent, elements));
  }

  lemma {:induction false} StaysStopped(rs: seq<Rec>, i: nat, n: nat)
    requires i <= n <= |rs| && Gather(rs, i).Stopped?
    ensures Gather(rs, n) == Gather(rs, i)
    decreases n
  {
    if i < n { StaysStopped(rs, i, n - 1); }
  }

  /** The records not dropped, by where they are. */
  method Keep(b: seq<byte>, id: byte) returns (keep: seq<nat>)
    requires HasRecords(b)
    ensures var kept := Without(Records(b, b[2]), id, b[2]);
            |keep| == |kept| && forall d :: 0 <= d < |keep| ==> keep[d] < b[2] && RecordAt(b, keep[d]) == kept[d]
  {
    ghost var rs := Records(b, b[2]);
    keep := [];
    for i := 0 to b[2]
      invariant |keep| == |Without(rs, id, i)|
      invariant forall d :: 0 <= d < |keep| ==> keep[d] < b[2] && RecordAt(b, keep[d]) == Without(rs, id, i)[d]
    {
      assert rs[i] == RecordAt(b, i);
      if b[HEADER + RECORD * i] != id { keep := keep + [i]; }
    }
  }

  method CopyRecord(out: array<byte>, r: nat, b: seq<byte>, i: nat)
    requires r + RECORD <= out.Length && HEADER + RECORD * (i + 1) <= |b|
    modifies out
    ensures out[..r + RECORD] == old(out[..r]) + RecordBytes(RecordAt(b, i))
  {
    var from := HEADER + RECORD * i;
    forall k | 0 <= k < RECORD { out[r + k] := b[from + k]; }
    assert out[..r] == old(out[..r]);
    assert out[r..r + RECORD] == b[from..from + RECORD] == RecordBytes(RecordAt(b, i));
    assert out[..r + RECORD] == out[..r] + out[r..r + RECORD];
  }

  method StripRecords(b: seq<byte>, id: byte) returns (out: seq<byte>)
    ensures out == Strip(b, id)
  {
    if |b| < HEADER || b[0] != FORMAT || |b| != HEADER + RECORD * b[2] { return b; }
    ghost var kept := Without(Records(b, b[2]), id, b[2]);
    var keep := Keep(b, id);
    if |keep| == b[2] {
      AllKept(Records(b, b[2]), id, b[2]);
      BlobOfRecords(b);
      return b;
    }
    out := CopyKept(b, keep, kept);
  }

  /** A buffer for this many records, the header copied with its new count. */
  method CountedHeader(b: seq<byte>, count: byte) returns (buffer: array<byte>)
    requires |b| >= HEADER
    ensures fresh(buffer) && buffer.Length == HEADER + RECORD * count
    ensures buffer[..HEADER] == [b[0], b[1], count, b[3]]
  {
    buffer := new byte[HEADER + RECORD * count];
    forall i | 0 <= i < HEADER { buffer[i] := b[i]; }
    buffer[2] := count;
  }

  /** The header with its new count, and the records kept copied after it. */
  method CopyKept(b: seq<byte>, keep: seq<nat>, ghost kept: seq<Rec>) returns (out: seq<byte>)
    requires HasRecords(b) && |keep| == |kept| < 256
    requires forall d :: 0 <= d < |keep| ==> keep[d] < b[2] && RecordAt(b, keep[d]) == kept[d]
    ensures out == [b[0], b[1], |keep|, b[3]] + Flat(kept, |kept|)
  {
    var buffer := CountedHeader(b, |keep|);
    ghost var header := buffer[..HEADER];
    for d := 0 to |keep|
      invariant Written(buffer[..HEADER + RECORD * d], header, kept, d)
    {
      ghost var written := buffer[..HEADER + RECORD * d];
      CopyRecord(buffer, HEADER + RECORD * d, b, keep[d]);
      WrittenMore(written, buffer[..HEADER + RECORD * (d + 1)], header, kept, d);
    }
    out := buffer[..];
    assert out == buffer[..HEADER + RECORD * |keep|];
  }

  lemma {:induction false} AllKept(rs: seq<Rec>, id: byte, n: nat)
    requires n <= |rs| && |Without(rs, id, n)| == n
    ensures Without(rs, id, n) == rs[..n] && (n == |rs| ==> Without(rs, id, n) == rs)
  {
    if n > 0 {
      AllKept(rs, id, n - 1);
      assert rs[..n] == rs[..n - 1] + [rs[n - 1]];
    }
  }
}
