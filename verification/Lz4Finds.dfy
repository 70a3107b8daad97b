/**
 * What the encoder finds (m68k/lz4/lz4_68k.c): which positions it looks at, and that a repeat it can
 * know of is taken. Safety alone would be met by a block of nothing but literals.
 */
module Lz4Finds {
  import opened Bytes
  import opened Lz4Format
  import opened Lz4Encoder

  // ---- The hash in closed form ----

  function TwoTo(k: nat): (n: nat)
    ensures n > 0
  {
    if k == 0 then 1 else 2 * TwoTo(k - 1)
  }

  ghost predicate PowerOfTwo(n: nat) {
    exists k: nat :: n == TwoTo(k)
  }

  /** Half of 2X + Y, X and Y being bytes 0 and 2, and 1 and 3, as 16-bit numbers; modulo the table. */
  function Slot(buf: seq<byte>, pos: nat, entries: nat): (h: nat)
    requires pos + 4 <= |buf| && entries > 0
    ensures h < entries
  {
    (2 * (256 * buf[pos] as nat + buf[pos + 2] as nat) + 256 * buf[pos + 1] as nat + buf[pos + 3] as nat) / 2 % entries
  }

  lemma MulBig(d: int, x: int)
    requires d > 0 && x != 0
    ensures d * x >= d || d * x <= -d
  {
    if x > 0 { assert d * (x - 1) >= 0; } else { assert d * (-x - 1) >= 0; }
  }

  lemma ModIs(a: nat, d: nat, q: nat, r: nat)
    requires a == d * q + r && r < d
    ensures a % d == r
  {
    var x := a / d - q;
    assert d * x == r - a % d;
    if x != 0 { MulBig(d, x); }
  }

  lemma ModDouble(a: nat, p: nat)
    requires p > 0
    ensures a % 2 + 2 * (a / 2 % p) == a % (2 * p)
  {
    var half := a / 2;
    var q, r := half / p, half % p;
    assert half == p * q + r;
    assert a == 2 * half + a % 2 == (2 * p) * q + (2 * r + a % 2);
    ModIs(a, 2 * p, q, 2 * r + a % 2);
  }

  lemma AndOdd(a: nat, m: nat)
    ensures And(a, 2 * m + 1) == a % 2 + 2 * And(a / 2, m)
  {
    assert (2 * m + 1) % 2 == 1 && (2 * m + 1) / 2 == m;
  }

  lemma {:induction false} AndMask(a: nat, k: nat)
    ensures And(a, TwoTo(k) - 1) == a % TwoTo(k)
    decreases k
  {
    if k > 0 {
      var p := TwoTo(k - 1);
      AndOdd(a, p - 1);
      assert And(a / 2, p - 1) == a / 2 % p by { AndMask(a / 2, k - 1); }
      ModDouble(a, p);
    }
  }

  lemma AndDoubled(a: nat, m: nat)
    ensures And(a, 2 * m) / 2 == And(a / 2, m)
  {
  }

  /** For a table of a power of two, the mask is that modulus. */
  lemma HashIs(buf: seq<byte>, pos: nat, entries: nat)
    requires pos + 4 <= |buf| && PowerOfTwo(entries)
    ensures HashAt(buf, pos, entries) == Slot(buf, pos, entries)
  {
    var k: nat :| entries == TwoTo(k);
    var x, y := 256 * buf[pos] as nat + buf[pos + 2] as nat, 256 * buf[pos + 1] as nat + buf[pos + 3] as nat;
    AndDoubled(2 * x + y, entries - 1);
    AndMask((2 * x + y) / 2, k);
  }

  // ---- Where it looks, and what it takes ----

  predicate SameFour(buf: seq<byte>, p: nat, q: nat)
    requires p + 4 <= |buf| && q + 4 <= |buf|
  {
    buf[p] == buf[q] && buf[p + 1] == buf[q + 1] && buf[p + 2] == buf[q + 2] && buf[p + 3] == buf[q + 3]
  }

  /** Where the greedy loop stands: what lz4_encode_linked_ref has in its variables, and its table. */
  datatype Stand = Stand(anchor: nat, pos: nat, misses: nat, tab: seq<uint16>)

  predicate Stands(buf: seq<byte>, end: nat, w: Stand, entries: nat) {
    && w.anchor <= w.pos && w.anchor <= end <= |buf| && end <= 0x1_0000 && 1 <= entries <= |w.tab|
  }

  /** It still has a position to probe. */
  predicate Probing(buf: seq<byte>, end: nat, w: Stand, entries: nat) {
    Stands(buf, end, w, entries) && w.pos + 12 <= end
  }

  function Named(buf: seq<byte>, end: nat, w: Stand, entries: nat): nat
    requires Probing(buf, end, w, entries)
  {
    Flip(w.tab[HashAt(buf, w.pos, entries)])
  }

  predicate Hits(buf: seq<byte>, end: nat, w: Stand, entries: nat)
    requires Probing(buf, end, w, entries)
  {
    Hit(buf, w.pos, Named(buf, end, w, entries))
  }

  function Grown(buf: seq<byte>, end: nat, w: Stand, entries: nat): (m: Match)
    requires Probing(buf, end, w, entries) && Hits(buf, end, w, entries)
    ensures Repeats(buf, m.pos, m.ref, m.len, w.anchor, end - 5)
    ensures m.pos <= w.pos && w.pos + 4 <= m.pos + m.len && m.pos - m.ref == w.pos - Named(buf, end, w, entries)
  {
    HitRepeats(buf, w.pos, Named(buf, end, w, entries), w.anchor, end - 5);
    Grow(buf, w.pos, Named(buf, end, w, entries), 4, w.anchor, end - 5)
  }

  /** Once round the loop. */
  function Next(buf: seq<byte>, end: nat, w: Stand, entries: nat): (n: Stand)
    requires Probing(buf, end, w, entries)
    ensures Stands(buf, end, n, entries) && w.pos < n.pos
  {
    var probed := w.tab[HashAt(buf, w.pos, entries) := Flip(w.pos)];
    if Hits(buf, end, w, entries) then
      var m := Grown(buf, end, w, entries);
      Stand(m.pos + m.len, m.pos + m.len, 0, probed)
    else Stand(w.anchor, w.pos + 1 + w.misses / MISSES_PER_STEP, w.misses + 1, probed)
  }

  /** The positions probed from there on. */
  function Probes(buf: seq<byte>, end: nat, w: Stand, entries: nat): (at: seq<nat>)
    requires Stands(buf, end, w, entries)
    ensures forall k :: 0 <= k < |at| ==> w.pos <= at[k] && at[k] + 12 <= end
    decreases end - w.pos
  {
    if w.pos + 12 > end then [] else [w.pos] + Probes(buf, end, Next(buf, end, w, entries), entries)
  }

  function Found(buf: seq<byte>, end: nat, w: Stand, entries: nat): Sequences
    requires Stands(buf, end, w, entries)
  {
    Search(buf, end, w.anchor, w.pos, w.misses, w.tab, entries).seqs
  }

  lemma FoundNext(buf: seq<byte>, end: nat, w: Stand, entries: nat)
    requires Probing(buf, end, w, entries)
    ensures var rest := Found(buf, end, Next(buf, end, w, entries), entries);
            Found(buf, end, w, entries) ==
              if Hits(buf, end, w, entries) then
                var m := Grown(buf, end, w, entries);
                Then(Lits(buf, w.anchor, m.pos), m.pos - m.ref, m.len, rest)
              else rest
  {
  }

  /** A match of this offset covers the four bytes at `pos`. */
  predicate Covered(s: Sequences, at: nat, pos: nat, off: nat) {
    s.Then? &&
    var start := at + Length(s.lits);
    || (start <= pos && pos + 4 <= start + s.len && s.off == off)
    || Covered(s.rest, start + s.len, pos, off)
  }

  /** A match is found at q that repeats p. */
  predicate Finds(buf: seq<byte>, end: nat, w: Stand, entries: nat, p: nat, q: nat)
    requires Stands(buf, end, w, entries) && p < q
  {
    Covered(Found(buf, end, w, entries), w.anchor, q, q - p)
  }

  lemma FindsLater(buf: seq<byte>, end: nat, w: Stand, entries: nat, p: nat, q: nat)
    requires Probing(buf, end, w, entries) && p < q && Finds(buf, end, Next(buf, end, w, entries), entries, p, q)
    ensures Finds(buf, end, w, entries, p, q)
  {
    FoundNext(buf, end, w, entries);
  }

  lemma FindsNow(buf: seq<byte>, end: nat, w: Stand, entries: nat)
    requires Probing(buf, end, w, entries) && Hits(buf, end, w, entries)
    ensures Finds(buf, end, w, entries, Named(buf, end, w, entries), w.pos)
  {
    FoundNext(buf, end, w, entries);
  }

  /** The table names p in q's slot, and the probes before q, the j-th from here, leave that slot alone. */
  ghost predicate Pending(buf: seq<byte>, end: nat, w: Stand, entries: nat, p: nat, q: nat, j: nat) {
    && Stands(buf, end, w, entries) && p < q && q + 4 <= |buf| && q < 0x1_0000 && SameFour(buf, p, q)
    && w.tab[HashAt(buf, q, entries)] == Flip(p)
    && var at := Probes(buf, end, w, entries);
       j < |at| && at[j] == q && forall k :: 0 <= k < j ==> HashAt(buf, at[k], entries) != HashAt(buf, q, entries)
  }

  lemma PendingNext(buf: seq<byte>, end: nat, w: Stand, entries: nat, p: nat, q: nat, j: nat)
    requires Pending(buf, end, w, entries, p, q, j) && j > 0
    ensures Probing(buf, end, w, entries) && Pending(buf, end, Next(buf, end, w, entries), entries, p, q, j - 1)
  {
    var at, rest := Probes(buf, end, w, entries), Probes(buf, end, Next(buf, end, w, entries), entries);
    assert at == [w.pos] + rest && at[0] == w.pos;
    forall k | 0 <= k < |rest| ensures rest[k] == at[k + 1] {}
    forall k | 0 <= k < j - 1 ensures HashAt(buf, rest[k], entries) != HashAt(buf, q, entries) {
      assert rest[k] == at[k + 1];
    }
  }

  /** So q matches p: whatever the table held before, and whatever is found on the way. */
  lemma {:induction false} PendingFound(buf: seq<byte>, end: nat, w: Stand, entries: nat, p: nat, q: nat, j: nat)
    requires Pending(buf, end, w, entries, p, q, j)
    ensures Finds(buf, end, w, entries, p, q)
    decreases j
  {
    if j == 0 {
      FindsNow(buf, end, w, entries);
    } else {
      PendingNext(buf, end, w, entries, p, q, j);
      PendingFound(buf, end, Next(buf, end, w, entries), entries, p, q, j - 1);
      FindsLater(buf, end, w, entries, p, q);
    }
  }

  /** p and q are the i-th and j-th probes, alike in four bytes, and no probe between is in their slot. */
  ghost predicate Repeated(buf: seq<byte>, at: seq<nat>, i: nat, j: nat, entries: nat) {
    && i < j < |at| && entries > 0 && (forall k :: 0 <= k < |at| ==> at[k] + 12 <= |buf|)
    && SameFour(buf, at[i], at[j])
    && forall k :: i < k < j ==> HashAt(buf, at[k], entries) != HashAt(buf, at[j], entries)
  }

  lemma ProbesOn(buf: seq<byte>, end: nat, w: Stand, entries: nat, k: nat)
    requires Stands(buf, end, w, entries) && k < |Probes(buf, end, w, entries)|
    ensures Probing(buf, end, w, entries)
    ensures Probes(buf, end, w, entries)[k]
         == if k == 0 then w.pos else Probes(buf, end, Next(buf, end, w, entries), entries)[k - 1]
    ensures |Probes(buf, end, w, entries)| == 1 + |Probes(buf, end, Next(buf, end, w, entries), entries)|
  {
  }

  lemma RepeatedPends(buf: seq<byte>, end: nat, w: Stand, entries: nat, j: nat)
    requires Stands(buf, end, w, entries) && Repeated(buf, Probes(buf, end, w, entries), 0, j, entries)
    ensures Probing(buf, end, w, entries)
    ensures Pending(buf, end, Next(buf, end, w, entries), entries, w.pos, Probes(buf, end, w, entries)[j], j - 1)
  {
    var at := Probes(buf, end, w, entries);
    ProbesOn(buf, end, w, entries, 0);
    ProbesOn(buf, end, w, entries, j);
    var next := Next(buf, end, w, entries);
    var rest, q := Probes(buf, end, next, entries), at[j];
    forall k | 0 <= k < j - 1 ensures HashAt(buf, rest[k], entries) != HashAt(buf, q, entries) {
      ProbesOn(buf, end, w, entries, k + 1);
    }
    assert HashAt(buf, w.pos, entries) == HashAt(buf, q, entries);
    assert next.tab[HashAt(buf, q, entries)] == Flip(w.pos);
  }

  lemma RepeatedOn(buf: seq<byte>, end: nat, w: Stand, entries: nat, i: nat, j: nat)
    requires Stands(buf, end, w, entries) && Repeated(buf, Probes(buf, end, w, entries), i, j, entries) && i > 0
    ensures Probing(buf, end, w, entries)
    ensures Repeated(buf, Probes(buf, end, Next(buf, end, w, entries), entries), i - 1, j - 1, entries)
  {
    ProbesOn(buf, end, w, entries, 0);
    var rest := Probes(buf, end, Next(buf, end, w, entries), entries);
    forall k | i - 1 <= k <= j - 1 ensures rest[k] == Probes(buf, end, w, entries)[k + 1] {
      ProbesOn(buf, end, w, entries, k + 1);
    }
  }

  lemma {:induction false} RepeatFound(buf: seq<byte>, end: nat, w: Stand, entries: nat, i: nat, j: nat)
    requires Stands(buf, end, w, entries) && Repeated(buf, Probes(buf, end, w, entries), i, j, entries)
    ensures var at := Probes(buf, end, w, entries); at[i] < at[j] && Finds(buf, end, w, entries, at[i], at[j])
    decreases i
  {
    ProbesOn(buf, end, w, entries, i);
    ProbesOn(buf, end, w, entries, j);
    var at, next := Probes(buf, end, w, entries), Next(buf, end, w, entries);
    if i == 0 {
      RepeatedPends(buf, end, w, entries, j);
      PendingFound(buf, end, next, entries, at[0], at[j], j - 1);
    } else {
      RepeatedOn(buf, end, w, entries, i, j);
      RepeatFound(buf, end, next, entries, i - 1, j - 1);
    }
    FindsLater(buf, end, w, entries, at[i], at[j]);
  }

  // ---- What a caller may rely on ----

  function Start(p0: nat, tab: seq<uint16>): Stand {
    Stand(p0, p0, 0, tab)
  }

  /**
   * Of two positions probed that are alike in four bytes, with none probed between them in their slot,
   * the later is covered by a match that repeats the earlier, whatever the table held.
   */
  lemma RepeatsAreTaken(buf: seq<byte>, p0: nat, n: nat, tab: seq<uint16>, entries: nat, i: nat, j: nat)
    requires 13 <= n && p0 + n <= |buf| && p0 + n <= 0x1_0000 && 1 <= entries <= |tab| && PowerOfTwo(entries)
    requires var at := Probes(buf, p0 + n, Start(p0, tab), entries);
             && i < j < |at| && SameFour(buf, at[i], at[j])
             && forall k :: i < k < j ==> Slot(buf, at[k], entries) != Slot(buf, at[j], entries)
    ensures var at := Probes(buf, p0 + n, Start(p0, tab), entries);
            at[i] < at[j] && Covered(Plan(buf, p0, n, tab, entries).seqs, p0, at[j], at[j] - at[i])
  {
    var at := Probes(buf, p0 + n, Start(p0, tab), entries);
    assert Repeated(buf, at, i, j, entries) by {
      forall k | i < k <= j ensures HashAt(buf, at[k], entries) == Slot(buf, at[k], entries) {
        HashIs(buf, at[k], entries);
      }
    }
    RepeatFound(buf, p0 + n, Start(p0, tab), entries, i, j);
  }

  /**
   * And what the table already names is taken too: a position probed first in its slot, alike in four
   * bytes to the earlier one the table names there, repeats it. So frames linked by a table carried over
   * repeat the frames before them.
   */
  lemma CarriedIsTaken(buf: seq<byte>, p0: nat, n: nat, tab: seq<uint16>, entries: nat, p: nat, j: nat)
    requires 13 <= n && p0 + n <= |buf| && p0 + n <= 0x1_0000 && 1 <= entries <= |tab| && PowerOfTwo(entries)
    requires var at := Probes(buf, p0 + n, Start(p0, tab), entries);
             && j < |at| && p < at[j] && SameFour(buf, p, at[j]) && tab[Slot(buf, at[j], entries)] == Flip(p)
             && forall k :: 0 <= k < j ==> Slot(buf, at[k], entries) != Slot(buf, at[j], entries)
    ensures var q := Probes(buf, p0 + n, Start(p0, tab), entries)[j];
            Covered(Plan(buf, p0, n, tab, entries).seqs, p0, q, q - p)
  {
    var at := Probes(buf, p0 + n, Start(p0, tab), entries);
    assert Pending(buf, p0 + n, Start(p0, tab), entries, p, at[j], j) by {
      forall k | 0 <= k <= j ensures HashAt(buf, at[k], entries) == Slot(buf, at[k], entries) {
        HashIs(buf, at[k], entries);
      }
    }
    PendingFound(buf, p0 + n, Start(p0, tab), entries, p, at[j], j);
  }

  // ---- A periodic source ----

  /** The source repeats every d bytes, and no two positions of a period share a slot. */
  ghost predicate Periodic(buf: seq<byte>, n: nat, d: nat, entries: nat) {
    && 1 <= d <= 64 && d + 12 <= n <= |buf| && n <= 65535 && entries > 0
    && (forall i :: d <= i < n ==> SameAt(buf, i, d))
    && (forall i, j :: 0 <= i < j < d ==> Slot(buf, i, entries) != Slot(buf, j, entries))
  }

  /** The table after the first k positions of the period. */
  ghost predicate NamesPeriod(buf: seq<byte>, tab: seq<uint16>, k: nat, entries: nat)
    requires k + 4 <= |buf| && 0 < entries <= |tab| && k <= 64
  {
    forall i :: 0 <= i < k ==> tab[Slot(buf, i, entries)] == Flip(i)
  }

  lemma NoHitInPeriod(buf: seq<byte>, n: nat, d: nat, entries: nat, w: Stand)
    requires Periodic(buf, n, d, entries) && PowerOfTwo(entries) && Probing(buf, n, w, entries) && w.pos < d
    ensures !Hits(buf, n, w, entries)
  {
    HashIs(buf, w.pos, entries);
    var ref := Named(buf, n, w, entries);
    if ref < w.pos { assert Slot(buf, ref, entries) != Slot(buf, w.pos, entries); }
  }

  lemma PeriodStep(buf: seq<byte>, n: nat, d: nat, entries: nat, tab: seq<uint16>, k: nat)
    requires Periodic(buf, n, d, entries) && PowerOfTwo(entries) && entries <= |tab| && k < d
    requires NamesPeriod(buf, tab, k, entries)
    ensures var w := Stand(0, k, k, tab);
            var after := Next(buf, n, w, entries);
            && after == Stand(0, k + 1, k + 1, after.tab) && |after.tab| == |tab|
            && NamesPeriod(buf, after.tab, k + 1, entries) && Found(buf, n, w, entries) == Found(buf, n, after, entries)
  {
    var w := Stand(0, k, k, tab);
    NoHitInPeriod(buf, n, d, entries, w);
    FoundNext(buf, n, w, entries);
    HashIs(buf, k, entries);
  }

  /** The first d positions are probed one by one, and miss. */
  lemma {:induction false} ThroughPeriod(buf: seq<byte>, n: nat, d: nat, entries: nat, tab: seq<uint16>, k: nat)
    returns (after: seq<uint16>)
    requires Periodic(buf, n, d, entries) && PowerOfTwo(entries) && entries <= |tab| && k <= d
    ensures |after| == |tab| && NamesPeriod(buf, after, k, entries)
    ensures Found(buf, n, Start(0, tab), entries) == Found(buf, n, Stand(0, k, k, after), entries)
  {
    after := tab;
    if k > 0 {
      var before := ThroughPeriod(buf, n, d, entries, tab, k - 1);
      PeriodStep(buf, n, d, entries, before, k - 1);
      after := Next(buf, n, Stand(0, k - 1, k - 1, before), entries).tab;
    }
  }

  /** At the start of the second period the first is found, and the match goes on to where matches end. */
  lemma PeriodGrows(buf: seq<byte>, n: nat, d: nat, entries: nat, w: Stand)
    requires Periodic(buf, n, d, entries) && PowerOfTwo(entries) && Probing(buf, n, w, entries)
    requires w.pos == d && w.anchor == 0 && NamesPeriod(buf, w.tab, d, entries)
    ensures Hits(buf, n, w, entries) && Grown(buf, n, w, entries) == Match(d, 0, n - 5 - d)
  {
    HashIs(buf, d, entries);
    assert SameAt(buf, d, d) && SameAt(buf, d + 1, d) && SameAt(buf, d + 2, d) && SameAt(buf, d + 3, d);
    assert Slot(buf, d, entries) == Slot(buf, 0, entries);
    assert w.tab[Slot(buf, 0, entries)] == Flip(0);
    HitRepeats(buf, d, 0, 0, n - 5);
    var m := Grow(buf, d, 0, 4, 0, n - 5);
    if m.pos + m.len < n - 5 { assert SameAt(buf, m.pos + m.len, d); }
  }

  lemma PeriodFound(buf: seq<byte>, n: nat, d: nat, tab: seq<uint16>, entries: nat)
    requires Periodic(buf, n, d, entries) && PowerOfTwo(entries) && entries <= |tab|
    ensures Plan(buf, 0, n, tab, entries).seqs
         == Then(Lits(buf, 0, d), d, n - 5 - d, End(Lits(buf, n - 5, n)))
  {
    var after := ThroughPeriod(buf, n, d, entries, tab, d);
    var w := Stand(0, d, d, after);
    PeriodGrows(buf, n, d, entries, w);
    FoundNext(buf, n, w, entries);
  }

  /**
   * A source that repeats every d bytes, d up to 64, whose period has no two positions in one slot, is
   * encoded as its period, one match and five literals, whatever the table held: in fewer bytes than it has.
   */
  lemma PeriodPays(buf: seq<byte>, n: nat, d: nat, tab: seq<uint16>, entries: nat)
    requires Periodic(buf, n, d, entries) && PowerOfTwo(entries) && entries <= |tab|
    ensures Length(BlockOf(buf, 0, n, tab, entries)) == 9 + d + ExtLen(d) + ExtLen(n - d - 9) < n
  {
    PeriodFound(buf, n, d, tab, entries);
    var last := End(Lits(buf, n - 5, n));
    HeadSize(Lits(buf, n - 5, n), 0, Nil);
    CopySize(d, n - 9 - d, Serialize(last));
    HeadSize(Lits(buf, 0, d), Nibble(n - 9 - d), CopyBytes(d, n - 9 - d, Serialize(last)));
  }

  /** "abcd" fifteen times. */
  function Abcd(): seq<byte> {
    seq(60, i requires 0 <= i < 60 => 97 + i % 4)
  }

  lemma AbcdSlots()
    ensures Slot(Abcd(), 0, 1024) == 661 && Slot(Abcd(), 1, 1024) == 20
    ensures Slot(Abcd(), 2, 1024) == 402 && Slot(Abcd(), 3, 1024) == 275
  {
    var b := Abcd();
    assert b[0] == 97 && b[1] == 98 && b[2] == 99 && b[3] == 100 && b[4] == 97 && b[5] == 98 && b[6] == 99;
  }

  lemma AbcdSame(i: nat)
    requires 4 <= i < 60
    ensures SameAt(Abcd(), i, 4)
  {
    assert i % 4 == (i - 4) % 4;
  }

  lemma AbcdRepeats()
    ensures Periodic(Abcd(), 60, 4, 1024)
  {
    var b := Abcd();
    forall i | 4 <= i < 60 ensures SameAt(b, i, 4) { AbcdSame(i); }
    forall i, j | 0 <= i < j < 4 ensures Slot(b, i, 1024) != Slot(b, j, 1024) { AbcdSlots(); }
  }

  /** So 60 bytes of it take 14, with a table of 1024 entries. */
  lemma AbcdPays(tab: seq<uint16>)
    requires |tab| >= 1024
    ensures Length(BlockOf(Abcd(), 0, 60, tab, 1024)) == 14
  {
    assert TwoTo(10) == 1024;
    AbcdRepeats();
    PeriodPays(Abcd(), 60, 4, tab, 1024);
  }
}
