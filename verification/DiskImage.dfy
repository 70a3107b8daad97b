/**
 * A disk's bytes and the tracks a board uploads over them (src/lib/disk-history/version.ts,
 * src/lib/disk-format.ts).
 */
module DiskImage {
  import opened Bytes

  type Image = seq<byte>

  const TRACKS: nat := 160
  const TRACK_DATA_BYTES: nat := 5632
  const HD_TRACK_DATA_BYTES: nat := 11264
  const ADF_BYTES: nat := 901120
  const ADF_HD_BYTES: nat := 1802240

  /** One track's sector data for an image of this size. */
  function TrackBytes(imageBytes: nat): (r: Option<nat>)
    ensures r.Some? ==> r.value > 0 && imageBytes == TRACKS * r.value
  {
    if imageBytes == ADF_BYTES then Some(TRACK_DATA_BYTES)
    else if imageBytes == ADF_HD_BYTES then Some(HD_TRACK_DATA_BYTES)
    else None
  }

  /** An image a disk may have: 880 KB, or 1760 KB for a high-density one. */
  predicate FloppySize(n: nat) {
    n == 901120 || n == 1802240
  }

  predicate IsTrackUpload(track: nat, data: seq<byte>, trackBytes: nat) {
    track < TRACKS && |data| == trackBytes
  }

  /** Every staged track fits an image of this size. */
  predicate Fits(staged: map<nat, seq<byte>>, imageBytes: nat) {
    TrackBytes(imageBytes).Some? &&
    forall t :: t in staged ==> IsTrackUpload(t, staged[t], TrackBytes(imageBytes).value)
  }

  /** The bytes of the image with each staged track, in place of the base's. */
  function OverlayAt(base: Image, staged: map<nat, seq<byte>>, trackBytes: nat, i: nat): byte
    requires trackBytes > 0 && i < |base|
  {
    var t := i / trackBytes;
    if t in staged && i % trackBytes < |staged[t]| then staged[t][i % trackBytes] else base[i]
  }

  function Overlay(base: Image, staged: map<nat, seq<byte>>): (r: Image)
    requires TrackBytes(|base|).Some?
    ensures |r| == |base|
    ensures forall i :: 0 <= i < |base| ==> r[i] == OverlayAt(base, staged, TrackBytes(|base|).value, i)
  {
    seq(|base|, i requires 0 <= i < |base| => OverlayAt(base, staged, TrackBytes(|base|).value, i))
  }

  datatype StagedTrack = StagedTrack(track: nat, data: seq<byte>)

  /** The rows read back: one per track number, in no particular order. */
  function MapOf(tracks: seq<StagedTrack>): (m: map<nat, seq<byte>>)
  {
    if tracks == [] then map[]
    else MapOf(tracks[..|tracks| - 1])[tracks[|tracks| - 1].track := tracks[|tracks| - 1].data]
  }

  ghost predicate InRows(tracks: seq<StagedTrack>, t: nat) {
    exists k :: 0 <= k < |tracks| && tracks[k].track == t
  }

  /** The order the rows come back in does not matter: any listing of `m` is `m`. */
  lemma {:induction false} AnyListing(tracks: seq<StagedTrack>, m: map<nat, seq<byte>>)
    requires forall k :: 0 <= k < |tracks| ==> tracks[k].track in m && m[tracks[k].track] == tracks[k].data
    ensures forall t :: t in MapOf(tracks) <==> InRows(tracks, t)
    ensures forall t :: t in MapOf(tracks) ==> t in m && MapOf(tracks)[t] == m[t]
  {
    if tracks != [] {
      var n := |tracks| - 1;
      AnyListing(tracks[..n], m);
      forall t ensures t in MapOf(tracks) <==> InRows(tracks, t) {
        if InRows(tracks[..n], t) {
          var k :| 0 <= k < n && tracks[..n][k].track == t;
          assert tracks[k].track == t;
        }
        if InRows(tracks, t) && t != tracks[n].track {
          var k :| 0 <= k < |tracks| && tracks[k].track == t;
          assert tracks[..n][k].track == t;
        }
      }
    }
  }

  /**
   * overlayTracks: the tracks written over a copy of `head` one after another. None is its throw:
   * an image or a track of the wrong size.
   */
  method OverlayTracks(head: Image, tracks: seq<StagedTrack>) returns (r: Option<array<byte>>)
    ensures r.Some? <==> TrackBytes(|head|).Some?
                         && forall k :: 0 <= k < |tracks| ==>
                              IsTrackUpload(tracks[k].track, tracks[k].data, TrackBytes(|head|).value)
    ensures r.Some? ==> fresh(r.value) && r.value[..] == Overlay(head, MapOf(tracks))
  {
    var size := TrackBytes(|head|);
    if size.None? { return None; }
    var tb := size.value;
    var out := new byte[|head|](i requires 0 <= i < |head| => head[i]);
    for k := 0 to |tracks|
      invariant fresh(out) && out.Length == |head|
      invariant forall j :: 0 <= j < k ==> IsTrackUpload(tracks[j].track, tracks[j].data, tb)
      invariant forall i :: 0 <= i < |head| ==> out[i] == OverlayAt(head, MapOf(tracks[..k]), tb, i)
    {
      var t := tracks[k];
      if !IsTrackUpload(t.track, t.data, tb) { return None; }
      assert tracks[..k + 1][..k] == tracks[..k];
      SetTrack(out, t, tb, head, MapOf(tracks[..k]));
    }
    assert tracks[..|tracks|] == tracks;
    r := Some(out);
  }

  /** out.set(t.data, t.track * trackBytes). */
  method SetTrack(out: array<byte>, t: StagedTrack, tb: nat, ghost head: Image, ghost staged: map<nat, seq<byte>>)
    requires tb > 0 && IsTrackUpload(t.track, t.data, tb) && out.Length == |head| == TRACKS * tb
    requires forall i :: 0 <= i < |head| ==> out[i] == OverlayAt(head, staged, tb, i)
    modifies out
    ensures forall i :: 0 <= i < |head| ==> out[i] == OverlayAt(head, staged[t.track := t.data], tb, i)
  {
    var at := t.track * tb;
    ghost var was := out[..];
    assert at + tb <= out.Length by { TrackInside(t.track, tb); }
    for j := 0 to tb
      invariant forall i :: 0 <= i < out.Length ==> out[i] == if at <= i < at + j then t.data[i - at] else was[i]
    {
      out[at + j] := t.data[j];
    }
    forall i | 0 <= i < |head| ensures out[i] == OverlayAt(head, staged[t.track := t.data], tb, i) {
      OverlaidAt(head, staged, t, tb, i);
      assert was[i] == OverlayAt(head, staged, tb, i);
    }
  }

  lemma TrackInside(t: nat, tb: nat)
    requires t < TRACKS
    ensures t * tb + tb <= TRACKS * tb
  {
    assert (t + 1) * tb <= TRACKS * tb;
  }

  lemma OverlaidAt(head: Image, staged: map<nat, seq<byte>>, t: StagedTrack, tb: nat, i: nat)
    requires tb > 0 && |t.data| == tb && i < |head|
    ensures OverlayAt(head, staged[t.track := t.data], tb, i)
         == if t.track * tb <= i < t.track * tb + tb then t.data[i - t.track * tb] else OverlayAt(head, staged, tb, i)
  {
    InTrack(i, t.track, tb);
  }

  /** Byte i is in track t exactly when it is between that track's ends. */
  lemma InTrack(i: nat, t: nat, tb: nat)
    requires tb > 0
    ensures i / tb == t <==> t * tb <= i < t * tb + tb
    ensures i / tb == t ==> i % tb == i - t * tb
  {
    assert i == (i / tb) * tb + i % tb;
    if i / tb < t { assert (i / tb + 1) * tb <= t * tb; }
    if i / tb > t { assert (t + 1) * tb <= (i / tb) * tb; }
  }
}
