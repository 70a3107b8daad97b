/**
 * Splitting a file list into upload batches (splitBatches in src/lib/blob-upload.ts, chunk in
 * src/lib/chunk.ts): nothing is lost, both caps are kept, and no split has fewer batches.
 */
module BatchSplit {

  /** A file to upload; only its name matters here. */
  datatype File = File(name: string, sha256: string)

  /** The one filename rule for HFE: it ends in .hfe, in any case. */
  predicate IsHfeName(name: string) {
    var n := |name|;
    && n >= 4 && name[n - 4] == '.' && (name[n - 3] == 'h' || name[n - 3] == 'H')
    && (name[n - 2] == 'f' || name[n - 2] == 'F') && (name[n - 1] == 'e' || name[n - 1] == 'E')
  }

  /** A letter's lower case. */
  function Lower(c: char): char {
    if 'A' <= c <= 'Z' then c + 32 as char else c
  }

  lemma HfeNames(name: string)
    ensures IsHfeName(name) <==>
              var n := |name|;
              n >= 4 && [Lower(name[n - 4]), Lower(name[n - 3]), Lower(name[n - 2]), Lower(name[n - 1])] == ".hfe"
  {
  }

  /** How many of the first n files are HFE by name. */
  function Hfes(files: seq<File>, n: nat): nat
    requires n <= |files|
  {
    if n == 0 then 0 else Hfes(files, n - 1) + if IsHfeName(files[n - 1].name) then 1 else 0
  }

  predicate Within(batch: seq<File>, maxBatch: nat, maxHfe: nat) {
    0 < |batch| <= maxBatch && Hfes(batch, |batch|) <= maxHfe
  }

  /** The first n batches, one after another. */
  function Concat(batches: seq<seq<File>>, n: nat): seq<File>
    requires n <= |batches|
  {
    if n == 0 then [] else Concat(batches, n - 1) + batches[n - 1]
  }

  /** A split of the list, in order, into batches the caps allow. */
  ghost predicate Splits(batches: seq<seq<File>>, files: seq<File>, maxBatch: nat, maxHfe: nat) {
    && Concat(batches, |batches|) == files
    && forall k :: 0 <= k < |batches| ==> Within(batches[k], maxBatch, maxHfe)
  }

  /** Where batch k ends in the list. */
  function Reach(batches: seq<seq<File>>, k: nat): nat
    requires k <= |batches|
  {
    if k == 0 then 0 else Reach(batches, k - 1) + |batches[k - 1]|
  }

  lemma {:induction false} ReachIsLength(batches: seq<seq<File>>, k: nat)
    requires k <= |batches|
    ensures Reach(batches, k) == |Concat(batches, k)|
  {
    if k > 0 { ReachIsLength(batches, k - 1); }
  }

  /** The next file would break a cap of this batch. */
  predicate Full(batch: seq<File>, next: File, maxBatch: nat, maxHfe: nat) {
    |batch| == maxBatch || (IsHfeName(next.name) && Hfes(batch, |batch|) == maxHfe)
  }

  /** A batch closes only when the next file would break a cap. */
  ghost predicate ClosedFull(batches: seq<seq<File>>, files: seq<File>, k: nat, maxBatch: nat, maxHfe: nat)
    requires k < |batches|
  {
    Reach(batches, k + 1) < |files| ==> Full(batches[k], files[Reach(batches, k + 1)], maxBatch, maxHfe)
  }

  ghost predicate Eager(batches: seq<seq<File>>, files: seq<File>, maxBatch: nat, maxHfe: nat) {
    forall k :: 0 <= k < |batches| ==> ClosedFull(batches, files, k, maxBatch, maxHfe)
  }

  // ---- Where a batch lies in the list ----

  lemma {:induction false} BatchAt(batches: seq<seq<File>>, n: nat, k: nat, j: nat)
    requires k < n <= |batches| && j < |batches[k]|
    ensures Reach(batches, k) + j < |Concat(batches, n)|
    ensures Concat(batches, n)[Reach(batches, k) + j] == batches[k][j]
    decreases n
  {
    ReachIsLength(batches, n - 1);
    if k < n - 1 { BatchAt(batches, n - 1, k, j); }
  }

  lemma {:induction false} HfesAt(batch: seq<File>, files: seq<File>, start: nat, j: nat)
    requires j <= |batch| && start + j <= |files| && forall i :: 0 <= i < j ==> files[start + i] == batch[i]
    ensures Hfes(files, start + j) == Hfes(files, start) + Hfes(batch, j)
    decreases j
  {
    if j > 0 {
      HfesAt(batch, files, start, j - 1);
      assert files[start + (j - 1)] == batch[j - 1];
    }
  }

  lemma {:induction false} HfesGrow(files: seq<File>, i: nat, j: nat)
    requires i <= j <= |files|
    ensures Hfes(files, i) <= Hfes(files, j)
    decreases j
  {
    if i < j { HfesGrow(files, i, j - 1); }
  }

  lemma {:induction false} ReachGrows(batches: seq<seq<File>>, i: nat, j: nat)
    requires i <= j <= |batches|
    ensures Reach(batches, i) <= Reach(batches, j)
    decreases j
  {
    if i < j { ReachGrows(batches, i, j - 1); }
  }

  /** Batch k of a split is the stretch of the list from one reach to the next. */
  lemma Stretch(batches: seq<seq<File>>, files: seq<File>, k: nat)
    requires k < |batches| && Concat(batches, |batches|) == files
    ensures Reach(batches, k + 1) == Reach(batches, k) + |batches[k]| <= |files|
    ensures forall j :: 0 <= j < |batches[k]| ==> files[Reach(batches, k) + j] == batches[k][j]
    ensures Hfes(files, Reach(batches, k + 1)) == Hfes(files, Reach(batches, k)) + Hfes(batches[k], |batches[k]|)
  {
    ReachIsLength(batches, |batches|);
    ReachGrows(batches, k + 1, |batches|);
    forall j | 0 <= j < |batches[k]| ensures files[Reach(batches, k) + j] == batches[k][j] {
      BatchAt(batches, |batches|, k, j);
    }
    HfesAt(batches[k], files, Reach(batches, k), |batches[k]|);
  }

  // ---- The eager split is ahead of any other ----

  /** No batch starting no later reaches further. */
  lemma Blocked(eager: seq<seq<File>>, other: seq<seq<File>>, files: seq<File>, maxBatch: nat, maxHfe: nat, k: nat)
    requires Splits(eager, files, maxBatch, maxHfe) && Eager(eager, files, maxBatch, maxHfe)
    requires Splits(other, files, maxBatch, maxHfe)
    requires k < |eager| && k < |other| && Reach(other, k) <= Reach(eager, k)
    ensures Reach(other, k + 1) <= Reach(eager, k + 1)
  {
    Stretch(eager, files, k);
    Stretch(other, files, k);
    assert Within(other[k], maxBatch, maxHfe);
    var next := Reach(eager, k + 1);
    if Reach(other, k + 1) > next {
      assert ClosedFull(eager, files, k, maxBatch, maxHfe);
      HfesGrow(files, Reach(other, k), Reach(eager, k));
      HfesGrow(files, next + 1, Reach(other, k + 1));
      assert false;
    }
  }

  lemma {:induction false} Ahead(eager: seq<seq<File>>, other: seq<seq<File>>, files: seq<File>, maxBatch: nat,
          maxHfe: nat, k: nat)
    requires Splits(eager, files, maxBatch, maxHfe) && Eager(eager, files, maxBatch, maxHfe)
    requires Splits(other, files, maxBatch, maxHfe)
    requires k <= |eager| && k <= |other|
    ensures Reach(other, k) <= Reach(eager, k)
  {
    if k > 0 {
      Ahead(eager, other, files, maxBatch, maxHfe, k - 1);
      Blocked(eager, other, files, maxBatch, maxHfe, k - 1);
    }
  }

  /** No split in order within the caps has fewer batches. */
  lemma FewestBatches(eager: seq<seq<File>>, other: seq<seq<File>>, files: seq<File>, maxBatch: nat, maxHfe: nat)
    requires Splits(eager, files, maxBatch, maxHfe) && Eager(eager, files, maxBatch, maxHfe)
    requires Splits(other, files, maxBatch, maxHfe)
    ensures |eager| <= |other|
  {
    var n := |other|;
    if n < |eager| {
      Ahead(eager, other, files, maxBatch, maxHfe, n);
      ReachIsLength(other, n);
      Stretch(eager, files, n);
    }
  }

  /** Two such splits are one. */
  lemma {:induction false} SameReach(a: seq<seq<File>>, b: seq<seq<File>>, files: seq<File>, maxBatch: nat,
          maxHfe: nat, k: nat)
    requires Splits(a, files, maxBatch, maxHfe) && Eager(a, files, maxBatch, maxHfe)
    requires Splits(b, files, maxBatch, maxHfe) && Eager(b, files, maxBatch, maxHfe)
    requires k <= |a| && k <= |b|
    ensures Reach(a, k) == Reach(b, k)
  {
    Ahead(a, b, files, maxBatch, maxHfe, k);
    Ahead(b, a, files, maxBatch, maxHfe, k);
  }

  lemma OnlyOneEager(a: seq<seq<File>>, b: seq<seq<File>>, files: seq<File>, maxBatch: nat, maxHfe: nat)
    requires Splits(a, files, maxBatch, maxHfe) && Eager(a, files, maxBatch, maxHfe)
    requires Splits(b, files, maxBatch, maxHfe) && Eager(b, files, maxBatch, maxHfe)
    ensures a == b
  {
    FewestBatches(a, b, files, maxBatch, maxHfe);
    FewestBatches(b, a, files, maxBatch, maxHfe);
    forall k | 0 <= k < |a| ensures a[k] == b[k] {
      SameReach(a, b, files, maxBatch, maxHfe, k);
      SameReach(a, b, files, maxBatch, maxHfe, k + 1);
      Stretch(a, files, k);
      Stretch(b, files, k);
      forall j | 0 <= j < |a[k]| ensures a[k][j] == b[k][j] {
        assert files[Reach(a, k) + j] == a[k][j];
        assert files[Reach(b, k) + j] == b[k][j];
      }
    }
  }

  // ---- The loops ----

  lemma {:induction false} EarlierSame(batches: seq<seq<File>>, last: seq<File>, n: nat)
    requires n <= |batches|
    ensures Concat(batches + [last], n) == Concat(batches, n) && Reach(batches + [last], n) == Reach(batches, n)
  {
    if n > 0 { EarlierSame(batches, last, n - 1); }
  }

  lemma {:induction false} HfesSame(batch: seq<File>, file: File, n: nat)
    requires n <= |batch|
    ensures Hfes(batch + [file], n) == Hfes(batch, n)
  {
    if n > 0 { HfesSame(batch, file, n - 1); }
  }

  /** The batches closed so far, of a list of which they hold the first `at`. */
  ghost predicate SoFar(out: seq<seq<File>>, files: seq<File>, at: nat, maxBatch: nat, maxHfe: nat) {
    && at <= |files| && Concat(out, |out|) == files[..at]
    && (maxBatch > 0 && maxHfe > 0 ==>
          (forall k :: 0 <= k < |out| ==> Within(out[k], maxBatch, maxHfe))
          && Eager(out, files, maxBatch, maxHfe))
  }

  lemma CloseBatch(out: seq<seq<File>>, cur: seq<File>, files: seq<File>, at: nat, maxBatch: nat, maxHfe: nat)
    requires SoFar(out, files, at, maxBatch, maxHfe)
    requires at + |cur| <= |files| && cur == files[at..at + |cur|]
    requires maxBatch > 0 && maxHfe > 0 ==>
      Within(cur, maxBatch, maxHfe) && (at + |cur| < |files| ==> Full(cur, files[at + |cur|], maxBatch, maxHfe))
    ensures SoFar(out + [cur], files, at + |cur|, maxBatch, maxHfe)
  {
    var more := out + [cur];
    EarlierSame(out, cur, |out|);
    assert files[..at] + cur == files[..at + |cur|];
    ReachIsLength(more, |more|);
    if maxBatch > 0 && maxHfe > 0 {
      forall k | 0 <= k < |more|
        ensures Within(more[k], maxBatch, maxHfe) && ClosedFull(more, files, k, maxBatch, maxHfe)
      {
        if k < |out| {
          EarlierSame(out, cur, k + 1);
          assert more[k] == out[k] && ClosedFull(out, files, k, maxBatch, maxHfe);
        }
      }
    }
  }

  /** The batch being filled holds the files before the i-th that no closed batch has. */
  ghost predicate Filling(out: seq<seq<File>>, cur: seq<File>, hfe: nat, files: seq<File>, i: nat,
                          maxBatch: nat, maxHfe: nat) {
    && |cur| <= i <= |files| && SoFar(out, files, i - |cur|, maxBatch, maxHfe) && cur == files[i - |cur|..i]
    && (maxBatch > 0 && maxHfe > 0 ==> |cur| <= maxBatch && hfe == Hfes(cur, |cur|) <= maxHfe)
  }

  /** The code's test that the next file would break a cap. */
  predicate NoRoom(cur: seq<File>, hfe: nat, next: File, maxBatch: nat, maxHfe: nat) {
    |cur| == maxBatch || (IsHfeName(next.name) && hfe == maxHfe)
  }

  lemma FilledMore(out: seq<seq<File>>, cur: seq<File>, hfe: nat, files: seq<File>, i: nat,
                   maxBatch: nat, maxHfe: nat)
    requires Filling(out, cur, hfe, files, i, maxBatch, maxHfe) && i < |files|
    requires maxBatch > 0 && maxHfe > 0 ==> !NoRoom(cur, hfe, files[i], maxBatch, maxHfe)
    ensures Filling(out, cur + [files[i]], if IsHfeName(files[i].name) then hfe + 1 else hfe, files, i + 1,
                    maxBatch, maxHfe)
  {
    HfesSame(cur, files[i], |cur|);
  }

  lemma FilledUp(out: seq<seq<File>>, cur: seq<File>, hfe: nat, files: seq<File>, i: nat, maxBatch: nat, maxHfe: nat)
    requires Filling(out, cur, hfe, files, i, maxBatch, maxHfe)
    requires if i < |files| then NoRoom(cur, hfe, files[i], maxBatch, maxHfe) else cur != []
    ensures Filling(out + [cur], [], 0, files, i, maxBatch, maxHfe)
  {
    CloseBatch(out, cur, files, i - |cur|, maxBatch, maxHfe);
  }

  lemma FilledAll(out: seq<seq<File>>, hfe: nat, files: seq<File>, maxBatch: nat, maxHfe: nat)
    requires Filling(out, [], hfe, files, |files|, maxBatch, maxHfe)
    ensures Concat(out, |out|) == files
    ensures maxBatch > 0 && maxHfe > 0 ==> Splits(out, files, maxBatch, maxHfe) && Eager(out, files, maxBatch, maxHfe)
  {
    assert files[..|files|] == files;
  }

  /** Nothing lost or reordered whatever the caps; with caps of at least 1, the one eager split. */
  method SplitBatches(files: seq<File>, maxBatch: nat, maxHfe: nat) returns (out: seq<seq<File>>)
    ensures Concat(out, |out|) == files
    ensures maxBatch > 0 && maxHfe > 0 ==> Splits(out, files, maxBatch, maxHfe) && Eager(out, files, maxBatch, maxHfe)
  {
    out := [];
    var cur: seq<File> := [];
    var hfe := 0;
    for i := 0 to |files|
      invariant Filling(out, cur, hfe, files, i, maxBatch, maxHfe)
    {
      if NoRoom(cur, hfe, files[i], maxBatch, maxHfe) {
        FilledUp(out, cur, hfe, files, i, maxBatch, maxHfe);
        out, cur, hfe := out + [cur], [], 0;
      }
      FilledMore(out, cur, hfe, files, i, maxBatch, maxHfe);
      cur, hfe := cur + [files[i]], if IsHfeName(files[i].name) then hfe + 1 else hfe;
    }
    if |cur| > 0 {
      FilledUp(out, cur, hfe, files, |files|, maxBatch, maxHfe);
      out, cur, hfe := out + [cur], [], 0;
    }
    FilledAll(out, hfe, files, maxBatch, maxHfe);
  }

  /** Groups of n, the last of what is left. */
  ghost predicate Chunks(out: seq<seq<File>>, xs: seq<File>, n: nat) {
    && Concat(out, |out|) == xs
    && forall k :: 0 <= k < |out| ==> 0 < |out[k]| <= n && (k < |out| - 1 ==> |out[k]| == n)
  }

  method Chunk(xs: seq<File>, n: nat) returns (out: seq<seq<File>>)
    requires n > 0
    ensures Chunks(out, xs, n)
  {
    out := [];
    var i := 0;
    while i < |xs|
      invariant 0 <= i && Concat(out, |out|) == xs[..if i < |xs| then i else |xs|]
      invariant forall k :: 0 <= k < |out| ==> 0 < |out[k]| <= n && (k < |out| - 1 || i < |xs| ==> |out[k]| == n)
      decreases |xs| - i
    {
      var end := if i + n < |xs| then i + n else |xs|;
      EarlierSame(out, xs[i..end], |out|);
      assert xs[..i] + xs[i..end] == xs[..end];
      out := out + [xs[i..end]];
      i := i + n;
    }
  }

  lemma {:induction false} NoHfes(batch: seq<File>, n: nat)
    requires n <= |batch| && forall f :: f in batch ==> !IsHfeName(f.name)
    ensures Hfes(batch, n) == 0
  {
    if n > 0 { NoHfes(batch, n - 1); }
  }

  /** A list with no HFE splits exactly like chunk. */
  lemma SplitsLikeChunk(batches: seq<seq<File>>, chunks: seq<seq<File>>, files: seq<File>, maxBatch: nat, maxHfe: nat)
    requires maxHfe > 0 && forall f :: f in files ==> !IsHfeName(f.name)
    requires Splits(batches, files, maxBatch, maxHfe) && Eager(batches, files, maxBatch, maxHfe)
    requires Chunks(chunks, files, maxBatch)
    ensures batches == chunks
  {
    forall k | 0 <= k < |chunks|
      ensures Within(chunks[k], maxBatch, maxHfe) && ClosedFull(chunks, files, k, maxBatch, maxHfe)
    {
      Stretch(chunks, files, k);
      forall f | f in chunks[k] ensures !IsHfeName(f.name) {
        var j :| 0 <= j < |chunks[k]| && chunks[k][j] == f;
        assert files[Reach(chunks, k) + j] == f;
      }
      NoHfes(chunks[k], |chunks[k]|);
      ReachIsLength(chunks, |chunks|);
    }
    OnlyOneEager(batches, chunks, files, maxBatch, maxHfe);
  }
}
