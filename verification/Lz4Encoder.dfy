/** The LZ4 block encoder's C reference model (m68k/lz4/lz4_68k.c). */
module Lz4Encoder {
  import opened Bytes
  import opened Lz4Format

  // Positions are counted from the window start: `buf` is the memory from `base` on, the source
  // is buf[p0..end] and the window buf[..p0].
  //
  // `Search` is the parse the greedy loop makes and `Serialize` the bytes it stands for; the
  // methods at the end are the loops themselves, writing `dst` and `tab` in place.

  /** A hash table entry: 16 bits. */
  type uint16 = x: int | 0 <= x < 0x1_0000 witness 0

  const MISSES_PER_STEP: nat := 64

  // ---- The bytes of a block, each followed by `next` ----

  /** How many bytes follow a nibble of 15 for a length of `x`. */
  function ExtLen(x: nat): nat {
    if x < 15 then 0 else (x - 15) / 255 + 1
  }

  /** What put_len writes. */
  function Run(len: nat, next: ByteList): ByteList {
    if len >= 255 then Cons(255, Run(len - 255, next)) else Cons(len, next)
  }

  function LengthRun(x: nat, next: ByteList): ByteList {
    if x >= 15 then Run(x - 15, next) else next
  }

  function Nibble(x: nat): (r: nat)
    ensures r < 16
  {
    if x >= 15 then 15 else x
  }

  /** A token, the run of the literals' length, and the literals. */
  function Head(lits: ByteList, nibble: nat, next: ByteList): ByteList
    requires nibble < 16
  {
    Cons(Nibble(Length(lits)) * 16 + nibble, LengthRun(Length(lits), Append(lits, next)))
  }

  /** The offset, little-endian as the format says, and the run of the match length. */
  function CopyBytes(off: nat, ml: nat, next: ByteList): ByteList {
    Cons(off % 256, Cons(off / 256 % 256, LengthRun(ml, next)))
  }

  function Serialize(s: Sequences): ByteList {
    match s
    case Bad => Nil
    case End(lits) => Head(lits, 0, Nil)
    case Then(lits, off, len, rest) =>
      var ml := if len >= 4 then len - 4 else 0;
      Head(lits, Nibble(ml), CopyBytes(off, ml, Serialize(rest)))
  }

  // ---- A decoder reads back what was written ----

  lemma {:induction false} ReadsRun(len: nat, next: ByteList)
    ensures ReadRun(Run(len, next)) == Some((len, next))
  {
    if len >= 255 { ReadsRun(len - 255, next); }
  }

  lemma ReadsLength(x: nat, next: ByteList)
    ensures ReadLength(Nibble(x), LengthRun(x, next)) == Some((x, next))
  {
    if x >= 15 { ReadsRun(x - 15, next); }
  }

  lemma {:induction false} ReadsLiterals(lits: ByteList, next: ByteList)
    ensures ReadLiterals(Length(lits), Append(lits, next)) == Some((lits, next))
  {
    if lits.Cons? { ReadsLiterals(lits.tail, next); }
  }

  lemma ReadsHead(lits: ByteList, nibble: nat, next: ByteList)
    requires nibble < 16
    ensures ReadSequence(Head(lits, nibble, next))
         == if next.Nil? then Last(lits) else ReadCopy(lits, nibble, next)
  {
    ReadsLength(Length(lits), Append(lits, next));
    ReadsLiterals(lits, next);
  }

  lemma ReadsCopy(lits: ByteList, off: nat, ml: nat, next: ByteList)
    requires off < 0x1_0000
    ensures ReadCopy(lits, Nibble(ml), CopyBytes(off, ml, next)) == Copy(lits, off, ml + 4, next)
  {
    ReadsLength(ml, next);
  }

  lemma ReadsSequence(lits: ByteList, off: nat, len: nat, next: ByteList)
    requires off < 0x1_0000 && len >= 4
    ensures ReadSequence(Head(lits, Nibble(len - 4), CopyBytes(off, len - 4, next))) == Copy(lits, off, len, next)
  {
    ReadsHead(lits, Nibble(len - 4), CopyBytes(off, len - 4, next));
    ReadsCopy(lits, off, len - 4, next);
  }

  lemma ReadsThen(lits: ByteList, off: nat, len: nat, rest: Sequences)
    requires off < 0x1_0000 && len >= 4 && ReadBlock(Serialize(rest)) == rest
    ensures ReadBlock(Serialize(Then(lits, off, len, rest))) == Then(lits, off, len, rest)
  {
    ReadsSequence(lits, off, len, Serialize(rest));
  }

  /** The format's own round trip: a legal block reads back as the sequences it was made from. */
  lemma {:induction false} ReadsBack(s: Sequences, at: nat, end: nat)
    requires Legal(s, at, end)
    ensures ReadBlock(Serialize(s)) == s
  {
    match s
    case End(lits) =>
      ReadsHead(lits, 0, Nil);
    case Then(lits, off, len, rest) =>
      ReadsBack(rest, at + Length(lits) + len, end);
      ReadsThen(lits, off, len, rest);
  }

  // ---- The size of a block ----

  lemma {:induction false} RunSize(len: nat, next: ByteList)
    ensures Length(Run(len, next)) == len / 255 + 1 + Length(next)
  {
    if len >= 255 { RunSize(len - 255, next); }
  }

  lemma LengthRunSize(x: nat, next: ByteList)
    ensures Length(LengthRun(x, next)) == ExtLen(x) + Length(next)
  {
    if x >= 15 { RunSize(x - 15, next); }
  }

  lemma HeadSize(lits: ByteList, nibble: nat, next: ByteList)
    requires nibble < 16
    ensures Length(Head(lits, nibble, next)) == 1 + Length(lits) + ExtLen(Length(lits)) + Length(next)
  {
    LengthRunSize(Length(lits), Append(lits, next));
  }

  lemma CopySize(off: nat, ml: nat, next: ByteList)
    ensures Length(CopyBytes(off, ml, next)) == 2 + ExtLen(ml) + Length(next)
  {
    LengthRunSize(ml, next);
  }

  /** A match always pays for its own sequence; only the runs of the literals can make a block grow. */
  lemma MatchPays(lit: nat, len: nat, left: nat)
    requires len >= 4
    ensures var n := lit + len + left;
            3 + lit + ExtLen(lit) + ExtLen(len - 4) + left + left / 255 <= n + n / 255
  {
    assert ExtLen(len - 4) <= len - 4 && ExtLen(lit) <= lit / 255 + 1;
  }

  lemma {:induction false} SerializedSize(s: Sequences, at: nat, end: nat)
    requires Legal(s, at, end)
    ensures var n := end - at; n >= 0 && 1 <= Length(Serialize(s)) <= n + n / 255 + 2
  {
    match s
    case End(lits) =>
      HeadSize(lits, 0, Nil);
    case Then(lits, off, len, rest) =>
      SerializedSize(rest, at + Length(lits) + len, end);
      HeadSize(lits, Nibble(len - 4), CopyBytes(off, len - 4, Serialize(rest)));
      CopySize(off, len - 4, Serialize(rest));
      MatchPays(Length(lits), len, end - (at + Length(lits) + len));
  }

  // ---- The greedy parse ----

  /** Bitwise and of two numbers. */
  function And(a: nat, b: nat): (r: nat)
    ensures r <= b
  {
    if a == 0 || b == 0 then 0
    else (if a % 2 == 1 && b % 2 == 1 then 1 else 0) + 2 * And(a / 2, b / 2)
  }

  /** The 4 bytes at `pos` as two 16-bit views X and Y: bits 1.. of 2X + Y, masked to the table. */
  function HashAt(buf: seq<byte>, pos: nat, entries: nat): (h: nat)
    requires pos + 4 <= |buf| && entries >= 1
    ensures h < entries
  {
    var x, y := buf[pos] as nat * 256 + buf[pos + 2] as nat, buf[pos + 1] as nat * 256 + buf[pos + 3] as nat;
    And(2 * x + y, (entries - 1) * 2) / 2
  }

  /** Entries are stored with bit 15 flipped. */
  function Flip(x: uint16): (r: uint16)
    ensures x == if r >= 0x8000 then r - 0x8000 else r + 0x8000
  {
    if x >= 0x8000 then x - 0x8000 else x + 0x8000
  }

  predicate SameAt(buf: seq<byte>, i: nat, off: nat)
    requires off <= i < |buf|
  {
    buf[i] == buf[i - off]
  }

  /** Every byte of buf[from..to] is the one `off` before it. */
  ghost predicate Echoes(buf: seq<byte>, from: nat, to: nat, off: nat)
    requires off <= from && to <= |buf|
  {
    forall i :: from <= i < to ==> SameAt(buf, i, off)
  }

  /** buf[pos..pos + len] repeats what is `pos - ref` before it, inside buf[anchor..mend]. */
  ghost predicate Repeats(buf: seq<byte>, pos: nat, ref: nat, len: nat, anchor: nat, mend: nat) {
    && anchor <= pos && 4 <= len && pos + len <= mend <= |buf| && ref < pos
    && Echoes(buf, pos, pos + len, pos - ref)
  }

  /** The candidate an entry names: an earlier position whose 4 bytes really are the same. */
  predicate Hit(buf: seq<byte>, pos: nat, ref: nat)
    requires pos + 4 <= |buf|
  {
    && ref < pos && buf[ref] == buf[pos] && buf[ref + 1] == buf[pos + 1]
    && buf[ref + 2] == buf[pos + 2] && buf[ref + 3] == buf[pos + 3]
  }

  lemma HitRepeats(buf: seq<byte>, pos: nat, ref: nat, anchor: nat, mend: nat)
    requires pos + 4 <= mend <= |buf| && anchor <= pos && Hit(buf, pos, ref)
    ensures Repeats(buf, pos, ref, 4, anchor, mend)
  {
  }

  /** `len` bytes at `pos` repeat those at `ref`. */
  datatype Match = Match(pos: nat, ref: nat, len: nat)

  /** A match made longer a byte at a time: forwards to `mend`, backwards to `anchor` and the window start. */
  function Grow(buf: seq<byte>, pos: nat, ref: nat, len: nat, anchor: nat, mend: nat): (m: Match)
    requires Repeats(buf, pos, ref, len, anchor, mend)
    ensures Repeats(buf, m.pos, m.ref, m.len, anchor, mend)
    ensures m.pos <= pos && pos + len <= m.pos + m.len && m.pos - m.ref == pos - ref
    ensures m.pos + m.len == mend || buf[m.ref + m.len] != buf[m.pos + m.len]
    ensures m.pos == anchor || m.ref == 0 || buf[m.pos - 1] != buf[m.ref - 1]
    decreases mend - len
  {
    if pos + len < mend && buf[ref + len] == buf[pos + len] then
      assert SameAt(buf, pos + len, pos - ref);
      Grow(buf, pos, ref, len + 1, anchor, mend)
    else if pos > anchor && ref > 0 && buf[pos - 1] == buf[ref - 1] then
      assert SameAt(buf, pos - 1, pos - ref);
      Grow(buf, pos - 1, ref - 1, len + 1, anchor, mend)
    else Match(pos, ref, len)
  }

  /** The literals buf[from..to]. */
  function Lits(buf: seq<byte>, from: nat, to: nat): (r: ByteList)
    requires from <= to <= |buf|
    ensures Length(r) == to - from
    decreases |buf| - from
  {
    if from == to then Nil else Cons(buf[from], Lits(buf, from + 1, to))
  }

  /** The sequences of a block, and the table it leaves. */
  datatype Parse = Parse(seqs: Sequences, tab: seq<uint16>)

  /** What the greedy loop makes of the rest of the source, from `pos` on. */
  function Search(buf: seq<byte>, end: nat, anchor: nat, pos: nat, misses: nat, tab: seq<uint16>, entries: nat)
    : (p: Parse)
    requires anchor <= pos && anchor <= end <= |buf| && end <= 0x1_0000 && 1 <= entries <= |tab|
    ensures |p.tab| == |tab|
    decreases end - pos
  {
    if pos + 12 > end then Parse(End(Lits(buf, anchor, end)), tab)
    else
      var h := HashAt(buf, pos, entries);
      var ref := Flip(tab[h]);
      var probed := tab[h := Flip(pos)];
      if Hit(buf, pos, ref) then
        HitRepeats(buf, pos, ref, anchor, end - 5);
        var m := Grow(buf, pos, ref, 4, anchor, end - 5);
        var rest := Search(buf, end, m.pos + m.len, m.pos + m.len, 0, probed, entries);
        Parse(Then(Lits(buf, anchor, m.pos), m.pos - m.ref, m.len, rest.seqs), rest.tab)
      else Search(buf, end, anchor, pos + 1 + misses / MISSES_PER_STEP, misses + 1, probed, entries)
  }

  /** A source under 13 bytes is all literals. */
  function Plan(buf: seq<byte>, p0: nat, n: nat, tab: seq<uint16>, entries: nat): (p: Parse)
    requires p0 + n <= |buf| && p0 + n <= 0x1_0000 && 1 <= entries <= |tab|
    ensures |p.tab| == |tab|
  {
    if n >= 13 then Search(buf, p0 + n, p0, p0, 0, tab, entries)
    else Parse(End(Lits(buf, p0, p0 + n)), tab)
  }

  lemma {:induction false} SearchLegal(buf: seq<byte>, end: nat, anchor: nat, pos: nat, misses: nat,
                                       tab: seq<uint16>, entries: nat)
    requires anchor <= pos && anchor <= end <= |buf| && end <= 0x1_0000 && 1 <= entries <= |tab|
    ensures Legal(Search(buf, end, anchor, pos, misses, tab, entries).seqs, anchor, end)
    decreases end - pos
  {
    if pos + 12 <= end {
      var h := HashAt(buf, pos, entries);
      var ref := Flip(tab[h]);
      var t1 := tab[h := Flip(pos)];
      if Hit(buf, pos, ref) {
        HitRepeats(buf, pos, ref, anchor, end - 5);
        var m := Grow(buf, pos, ref, 4, anchor, end - 5);
        SearchLegal(buf, end, m.pos + m.len, m.pos + m.len, 0, t1, entries);
      } else {
        SearchLegal(buf, end, anchor, pos + 1 + misses / MISSES_PER_STEP, misses + 1, t1, entries);
      }
    }
  }

  lemma {:induction false} CopiesLiterals(buf: seq<byte>, from: nat, to: nat)
    requires from <= to <= |buf|
    ensures CopyLiterals(buf[..from], Lits(buf, from, to)) == buf[..to]
    decreases |buf| - from
  {
    if from < to {
      assert buf[..from] + [buf[from]] == buf[..from + 1];
      CopiesLiterals(buf, from + 1, to);
    }
  }

  /** A byte-by-byte copy of a true repeat continues the buffer, however much it overlaps itself. */
  lemma {:induction false} CopiesRepeat(buf: seq<byte>, at: nat, off: nat, len: nat)
    requires 0 < off <= at && at + len <= |buf| && Echoes(buf, at, at + len, off)
    ensures CopyMatch(buf[..at], off, len) == buf[..at + len]
    decreases len
  {
    if len > 0 {
      assert SameAt(buf, at, off);
      assert buf[..at] + [buf[..at][at - off]] == buf[..at + 1];
      CopiesRepeat(buf, at + 1, off, len - 1);
    }
  }

  /** The sequences tell what buf[at..end] holds: its literals as they are, each match a true repeat. */
  ghost predicate Describes(s: Sequences, buf: seq<byte>, at: nat, end: nat)
    requires at <= end <= |buf|
  {
    match s
    case Bad => false
    case End(lits) => lits == Lits(buf, at, end)
    case Then(lits, off, len, rest) =>
      var pos := at + Length(lits);
      && pos + len <= end && 1 <= off <= pos
      && lits == Lits(buf, at, pos) && Echoes(buf, pos, pos + len, off)
      && Describes(rest, buf, pos + len, end)
  }

  lemma MatchDescribes(buf: seq<byte>, anchor: nat, end: nat, m: Match, rest: Sequences)
    requires end <= |buf| && end >= 5 && Repeats(buf, m.pos, m.ref, m.len, anchor, end - 5)
    requires Describes(rest, buf, m.pos + m.len, end)
    ensures Describes(Then(Lits(buf, anchor, m.pos), m.pos - m.ref, m.len, rest), buf, anchor, end)
  {
  }

  lemma {:induction false} SearchDescribes(buf: seq<byte>, end: nat, anchor: nat, pos: nat, misses: nat,
                                           tab: seq<uint16>, entries: nat)
    requires anchor <= pos && anchor <= end <= |buf| && end <= 0x1_0000 && 1 <= entries <= |tab|
    ensures Describes(Search(buf, end, anchor, pos, misses, tab, entries).seqs, buf, anchor, end)
    decreases end - pos
  {
    if pos + 12 <= end {
      var h := HashAt(buf, pos, entries);
      var ref := Flip(tab[h]);
      var t1 := tab[h := Flip(pos)];
      if Hit(buf, pos, ref) {
        HitRepeats(buf, pos, ref, anchor, end - 5);
        var m := Grow(buf, pos, ref, 4, anchor, end - 5);
        SearchDescribes(buf, end, m.pos + m.len, m.pos + m.len, 0, t1, entries);
        MatchDescribes(buf, anchor, end, m, Search(buf, end, m.pos + m.len, m.pos + m.len, 0, t1, entries).seqs);
      } else {
        SearchDescribes(buf, end, anchor, pos + 1 + misses / MISSES_PER_STEP, misses + 1, t1, entries);
      }
    }
  }

  lemma {:induction false} DescribedReplays(s: Sequences, buf: seq<byte>, at: nat, end: nat)
    requires at <= end <= |buf| && Describes(s, buf, at, end)
    ensures Replay(s, buf[..at]) == Some(buf[..end])
  {
    match s
    case End(lits) =>
      CopiesLiterals(buf, at, end);
    case Then(lits, off, len, rest) =>
      var pos := at + Length(lits);
      CopiesLiterals(buf, at, pos);
      CopiesRepeat(buf, pos, off, len);
      DescribedReplays(rest, buf, pos + len, end);
  }

  // ---- What a block promises ----

  function BlockOf(buf: seq<byte>, p0: nat, n: nat, tab: seq<uint16>, entries: nat): ByteList
    requires p0 + n <= |buf| && p0 + n <= 0x1_0000 && 1 <= entries <= |tab|
  {
    Serialize(Plan(buf, p0, n, tab, entries).seqs)
  }

  /** Every match reaches 1..65535 back inside the window and obeys the end-of-block rules. */
  lemma PlanLegal(buf: seq<byte>, p0: nat, n: nat, tab: seq<uint16>, entries: nat)
    requires p0 + n <= |buf| && p0 + n <= 0x1_0000 && 1 <= entries <= |tab|
    ensures Legal(ReadBlock(BlockOf(buf, p0, n, tab, entries)), p0, p0 + n)
  {
    var s := Plan(buf, p0, n, tab, entries).seqs;
    if n >= 13 { SearchLegal(buf, p0 + n, p0, p0, 0, tab, entries); }
    ReadsBack(s, p0, p0 + n);
  }

  /** Whatever the table held, the block decodes after the window to exactly the source. */
  lemma RoundTrip(buf: seq<byte>, p0: nat, n: nat, tab: seq<uint16>, entries: nat)
    requires p0 + n <= |buf| && p0 + n <= 0x1_0000 && 1 <= entries <= |tab|
    ensures Decode(BlockOf(buf, p0, n, tab, entries), buf[..p0]) == Some(buf[..p0 + n])
  {
    var s := Plan(buf, p0, n, tab, entries).seqs;
    if n >= 13 {
      SearchLegal(buf, p0 + n, p0, p0, 0, tab, entries);
      SearchDescribes(buf, p0 + n, p0, p0, 0, tab, entries);
    }
    ReadsBack(s, p0, p0 + n);
    DescribedReplays(s, buf, p0, p0 + n);
  }

  /** A cap of n + n / 255 + 2, and so the documented n + n / 255 + 16, never refuses. */
  lemma CapSuffices(buf: seq<byte>, p0: nat, n: nat, tab: seq<uint16>, entries: nat)
    requires p0 + n <= |buf| && p0 + n <= 0x1_0000 && 1 <= entries <= |tab|
    ensures 1 <= Length(BlockOf(buf, p0, n, tab, entries)) <= n + n / 255 + 2
  {
    if n >= 13 { SearchLegal(buf, p0 + n, p0, p0, 0, tab, entries); }
    SerializedSize(Plan(buf, p0, n, tab, entries).seqs, p0, p0 + n);
  }

  ghost function Sum(sizes: seq<nat>): nat {
    if sizes == [] then 0 else sizes[0] + Sum(sizes[1..])
  }

  /** Frames encoded one after another against the same base, the table carried over. */
  ghost function LinkedRun(buf: seq<byte>, p0: nat, sizes: seq<nat>, tab: seq<uint16>, entries: nat): seq<ByteList>
    requires p0 + Sum(sizes) <= |buf| && p0 + Sum(sizes) <= 0x1_0000 && 1 <= entries <= |tab|
    decreases |sizes|
  {
    if sizes == [] then []
    else
      [BlockOf(buf, p0, sizes[0], tab, entries)]
      + LinkedRun(buf, p0 + sizes[0], sizes[1..], Plan(buf, p0, sizes[0], tab, entries).tab, entries)
  }

  /** The frames decoded one after another into one buffer, each with all of it as its window. */
  ghost function DecodeRun(blocks: seq<ByteList>, out: seq<byte>): Option<seq<byte>> {
    if blocks == [] then Some(out)
    else match Decode(blocks[0], out) {
           case None => None
           case Some(more) => DecodeRun(blocks[1..], more)
         }
  }

  lemma DecodeRunCons(first: ByteList, rest: seq<ByteList>, out: seq<byte>, more: seq<byte>)
    requires Decode(first, out) == Some(more)
    ensures DecodeRun([first] + rest, out) == DecodeRun(rest, more)
  {
    assert ([first] + rest)[1..] == rest;
  }

  lemma {:induction false} LinkedRunDecodes(buf: seq<byte>, p0: nat, sizes: seq<nat>, tab: seq<uint16>, entries: nat)
    requires p0 + Sum(sizes) <= |buf| && p0 + Sum(sizes) <= 0x1_0000 && 1 <= entries <= |tab|
    ensures DecodeRun(LinkedRun(buf, p0, sizes, tab, entries), buf[..p0]) == Some(buf[..p0 + Sum(sizes)])
    decreases |sizes|
  {
    if sizes != [] {
      var at := p0 + sizes[0];
      var carried := Plan(buf, p0, sizes[0], tab, entries).tab;
      RoundTrip(buf, p0, sizes[0], tab, entries);
      LinkedRunDecodes(buf, at, sizes[1..], carried, entries);
      DecodeRunCons(BlockOf(buf, p0, sizes[0], tab, entries),
                    LinkedRun(buf, at, sizes[1..], carried, entries), buf[..p0], buf[..at]);
    }
  }

  // ---- The loops ----

  /** Nothing at or past `from` has been written. */
  ghost predicate Kept(now: seq<byte>, was: seq<byte>, from: nat) {
    |now| == |was| && forall k :: from <= k < |now| ==> now[k] == was[k]
  }

  method PutByte(dst: array<byte>, o: nat, b: byte, ghost next: ByteList) returns (o1: nat)
    requires o < dst.Length
    modifies dst
    ensures o1 == o + 1 && Kept(dst[..], old(dst[..]), o1)
    ensures Before(dst[..], o1, next) == Before(old(dst[..]), o, Cons(b, next))
  {
    dst[o] := b;
    o1 := o + 1;
    BeforeSame(dst[..], old(dst[..]), o, Cons(b, next));
  }

  /** put_len. */
  method PutRun(dst: array<byte>, o: nat, len: nat, ghost next: ByteList) returns (o1: nat)
    requires o + len / 255 + 1 <= dst.Length
    modifies dst
    ensures o1 == o + len / 255 + 1 && Kept(dst[..], old(dst[..]), o1)
    ensures Before(dst[..], o1, next) == Before(old(dst[..]), o, Run(len, next))
  {
    var left := len;
    o1 := o;
    while left >= 255
      invariant left >= 0 && o <= o1 && o1 + left / 255 == o + len / 255 && Kept(dst[..], old(dst[..]), o1)
      invariant Before(dst[..], o1, Run(left, next)) == Before(old(dst[..]), o, Run(len, next))
    {
      o1 := PutByte(dst, o1, 255, Run(left - 255, next));
      left := left - 255;
    }
    o1 := PutByte(dst, o1, left, next);
  }

  method PutLengthRun(dst: array<byte>, o: nat, x: nat, ghost next: ByteList) returns (o1: nat)
    requires o + ExtLen(x) <= dst.Length
    modifies dst
    ensures o1 == o + ExtLen(x) && Kept(dst[..], old(dst[..]), o1)
    ensures Before(dst[..], o1, next) == Before(old(dst[..]), o, LengthRun(x, next))
  {
    o1 := o;
    if x >= 15 { o1 := PutRun(dst, o, x - 15, next); }
  }

  method PutLiterals(dst: array<byte>, o: nat, buf: seq<byte>, anchor: nat, lit: nat, ghost next: ByteList)
    returns (o1: nat)
    requires anchor + lit <= |buf| && o + lit <= dst.Length
    modifies dst
    ensures o1 == o + lit && Kept(dst[..], old(dst[..]), o1)
    ensures Before(dst[..], o1, next) == Before(old(dst[..]), o, Append(Lits(buf, anchor, anchor + lit), next))
  {
    o1 := o;
    for i := 0 to lit
      invariant o1 == o + i && Kept(dst[..], old(dst[..]), o1)
      invariant Before(dst[..], o1, Append(Lits(buf, anchor + i, anchor + lit), next))
             == Before(old(dst[..]), o, Append(Lits(buf, anchor, anchor + lit), next))
    {
      o1 := PutByte(dst, o1, buf[anchor + i], Append(Lits(buf, anchor + i + 1, anchor + lit), next));
    }
  }

  method PutHead(dst: array<byte>, o: nat, buf: seq<byte>, anchor: nat, lit: nat, nibble: nat, ghost next: ByteList)
    returns (o1: nat)
    requires anchor + lit <= |buf| && nibble < 16 && o + 1 + lit + ExtLen(lit) <= dst.Length
    modifies dst
    ensures o1 == o + 1 + lit + ExtLen(lit) && Kept(dst[..], old(dst[..]), o1)
    ensures Before(dst[..], o1, next) == Before(old(dst[..]), o, Head(Lits(buf, anchor, anchor + lit), nibble, next))
  {
    ghost var lits := Append(Lits(buf, anchor, anchor + lit), next);
    o1 := PutByte(dst, o, Nibble(lit) * 16 + nibble, LengthRun(lit, lits));
    o1 := PutLengthRun(dst, o1, lit, lits);
    o1 := PutLiterals(dst, o1, buf, anchor, lit, next);
  }

  method PutCopy(dst: array<byte>, o: nat, off: nat, ml: nat, ghost next: ByteList) returns (o1: nat)
    requires o + 2 + ExtLen(ml) <= dst.Length
    modifies dst
    ensures o1 == o + 2 + ExtLen(ml) && Kept(dst[..], old(dst[..]), o1)
    ensures Before(dst[..], o1, next) == Before(old(dst[..]), o, CopyBytes(off, ml, next))
  {
    o1 := PutByte(dst, o, off % 256, Cons(off / 256 % 256, LengthRun(ml, next)));
    o1 := PutByte(dst, o1, off / 256 % 256, LengthRun(ml, next));
    o1 := PutLengthRun(dst, o1, ml, next);
  }

  /** The first inner loop: forwards as far as it goes. */
  method ExtendForwards(buf: seq<byte>, pos: nat, ref: nat, anchor: nat, mend: nat) returns (len: nat)
    requires Repeats(buf, pos, ref, 4, anchor, mend)
    ensures Repeats(buf, pos, ref, len, anchor, mend)
    ensures pos + len == mend || buf[ref + len] != buf[pos + len]
    ensures Grow(buf, pos, ref, len, anchor, mend) == Grow(buf, pos, ref, 4, anchor, mend)
  {
    len := 4;
    while pos + len < mend && buf[ref + len] == buf[pos + len]
      invariant Repeats(buf, pos, ref, len, anchor, mend)
      invariant Grow(buf, pos, ref, len, anchor, mend) == Grow(buf, pos, ref, 4, anchor, mend)
    {
      assert SameAt(buf, pos + len, pos - ref);
      len := len + 1;
    }
  }

  /** A match that goes no further forwards, and grows into `grown`. */
  ghost predicate GrowsInto(buf: seq<byte>, pos: nat, ref: nat, len: nat, anchor: nat, mend: nat, grown: Match) {
    && Repeats(buf, pos, ref, len, anchor, mend)
    && (pos + len == mend || buf[ref + len] != buf[pos + len])
    && Grow(buf, pos, ref, len, anchor, mend) == grown
  }

  lemma GrowsBack(buf: seq<byte>, pos: nat, ref: nat, len: nat, anchor: nat, mend: nat, grown: Match)
    requires GrowsInto(buf, pos, ref, len, anchor, mend, grown)
    ensures anchor <= pos && ref < pos <= |buf|
    ensures if pos > anchor && ref > 0 && buf[pos - 1] == buf[ref - 1]
            then GrowsInto(buf, pos - 1, ref - 1, len + 1, anchor, mend, grown)
            else grown == Match(pos, ref, len)
  {
    if pos > anchor && ref > 0 && buf[pos - 1] == buf[ref - 1] { assert SameAt(buf, pos - 1, pos - ref); }
  }

  /** The second: backwards into the pending literals. */
  method ExtendBackwards(buf: seq<byte>, p: nat, r: nat, l: nat, anchor: nat, mend: nat, ghost grown: Match)
    returns (m: Match)
    requires GrowsInto(buf, p, r, l, anchor, mend, grown)
    ensures m == grown
  {
    var pos: nat, ref: nat, len: nat := p, r, l;
    while pos > anchor && ref > 0 && buf[pos - 1] == buf[ref - 1]
      invariant anchor <= pos && ref < pos <= |buf| && GrowsInto(buf, pos, ref, len, anchor, mend, grown)
    {
      GrowsBack(buf, pos, ref, len, anchor, mend, grown);
      pos, ref, len := pos - 1, ref - 1, len + 1;
    }
    GrowsBack(buf, pos, ref, len, anchor, mend, grown);
    m := Match(pos, ref, len);
  }

  /** Both loops: the match at `pos` as long as it gets. */
  method ExtendMatch(buf: seq<byte>, pos: nat, ref: nat, anchor: nat, mend: nat) returns (m: Match)
    requires pos + 4 <= mend <= |buf| && anchor <= pos && Hit(buf, pos, ref)
    ensures Repeats(buf, pos, ref, 4, anchor, mend) && m == Grow(buf, pos, ref, 4, anchor, mend)
  {
    HitRepeats(buf, pos, ref, anchor, mend);
    var len := ExtendForwards(buf, pos, ref, anchor, mend);
    m := ExtendBackwards(buf, pos, ref, len, anchor, mend, Grow(buf, pos, ref, 4, anchor, mend));
  }

  /** The table's one probe at `pos`: the candidate it named, replaced by `pos` itself. */
  method Probe(buf: seq<byte>, pos: nat, tab: array<uint16>, entries: nat) returns (ref: nat)
    requires pos + 4 <= |buf| && pos < 0x1_0000 && 1 <= entries <= tab.Length
    modifies tab
    ensures var h := HashAt(buf, pos, entries);
            ref == Flip(old(tab[..])[h]) && tab[..] == old(tab[..])[h := Flip(pos)]
  {
    var h := HashAt(buf, pos, entries);
    ref := Flip(tab[h]);
    tab[h] := Flip(pos);
  }

  lemma SearchHits(buf: seq<byte>, end: nat, anchor: nat, pos: nat, misses: nat,
                   t0: seq<uint16>, t1: seq<uint16>, entries: nat, m: Match)
    requires anchor <= pos && pos + 12 <= end <= |buf| && end <= 0x1_0000 && 1 <= entries <= |t0|
    requires HitAt(buf, end, anchor, pos, t0, t1, entries, m)
    ensures var next := Search(buf, end, m.pos + m.len, m.pos + m.len, 0, t1, entries);
            Search(buf, end, anchor, pos, misses, t0, entries)
            == Parse(Then(Lits(buf, anchor, m.pos), m.pos - m.ref, m.len, next.seqs), next.tab)
  {
  }

  /** The probe at `pos` hits, and the match there grows to `m`. */
  ghost predicate HitAt(buf: seq<byte>, end: nat, anchor: nat, pos: nat, t0: seq<uint16>, t1: seq<uint16>,
                        entries: nat, m: Match)
    requires pos + 12 <= end <= |buf| && end <= 0x1_0000 && 1 <= entries <= |t0|
  {
    var h := HashAt(buf, pos, entries);
    && Hit(buf, pos, Flip(t0[h])) && t1 == t0[h := Flip(pos)] && Repeats(buf, pos, Flip(t0[h]), 4, anchor, end - 5)
    && m == Grow(buf, pos, Flip(t0[h]), 4, anchor, end - 5)
  }

  /** What is written, followed by what is still to be found, is the block; `final` the table it leaves. */
  ghost predicate Writing(dst: seq<byte>, o: nat, left: Parse, block: ByteList, final: seq<uint16>) {
    o <= |dst| && Before(dst, o, Serialize(left.seqs)) == block && left.tab == final
  }

  /** The same in the loop: what is still to be found is what Search makes of the source from `pos` on. */
  ghost predicate Searching(dst: seq<byte>, o: nat, buf: seq<byte>, end: nat, anchor: nat, pos: nat, misses: nat,
                            tab: seq<uint16>, entries: nat, block: ByteList, final: seq<uint16>)
    requires anchor <= pos && anchor <= end <= |buf| && end <= 0x1_0000 && 1 <= entries <= |tab|
  {
    Writing(dst, o, Search(buf, end, anchor, pos, misses, tab, entries), block, final)
  }

  lemma SearchingOn(dst: seq<byte>, o: nat, buf: seq<byte>, end: nat, at: nat, tab: seq<uint16>, entries: nat,
                    next: Parse, block: ByteList, final: seq<uint16>)
    requires at <= end <= |buf| && end <= 0x1_0000 && 1 <= entries <= |tab| && next.tab == final
    requires next == Search(buf, end, at, at, 0, tab, entries)
    requires o <= |dst| && Before(dst, o, Serialize(next.seqs)) == block
    ensures Searching(dst, o, buf, end, at, at, 0, tab, entries, block, final)
  {
  }

  lemma SearchingMiss(dst: seq<byte>, o: nat, buf: seq<byte>, end: nat, anchor: nat, pos: nat, misses: nat,
                      t0: seq<uint16>, t1: seq<uint16>, entries: nat, block: ByteList, final: seq<uint16>)
    requires anchor <= pos && pos + 12 <= end <= |buf| && end <= 0x1_0000 && 1 <= entries <= |t0|
    requires Searching(dst, o, buf, end, anchor, pos, misses, t0, entries, block, final)
    requires var h := HashAt(buf, pos, entries); !Hit(buf, pos, Flip(t0[h])) && t1 == t0[h := Flip(pos)]
    ensures Searching(dst, o, buf, end, anchor, pos + 1 + misses / MISSES_PER_STEP, misses + 1, t1, entries,
                      block, final)
  {
  }

  lemma SearchingHit(dst: seq<byte>, o: nat, buf: seq<byte>, end: nat, anchor: nat, pos: nat, misses: nat,
                     t0: seq<uint16>, t1: seq<uint16>, entries: nat, m: Match, block: ByteList, final: seq<uint16>)
    requires anchor <= pos && pos + 12 <= end <= |buf| && end <= 0x1_0000 && 1 <= entries <= |t0|
    requires HitAt(buf, end, anchor, pos, t0, t1, entries, m)
    requires Searching(dst, o, buf, end, anchor, pos, misses, t0, entries, block, final)
    ensures var next := Search(buf, end, m.pos + m.len, m.pos + m.len, 0, t1, entries);
            && next.tab == final
            && Before(dst, o, Head(Lits(buf, anchor, m.pos), Nibble(m.len - 4),
                                   CopyBytes(m.pos - m.ref, m.len - 4, Serialize(next.seqs)))) == block
  {
    SearchHits(buf, end, anchor, pos, misses, t0, t1, entries, m);
  }

  lemma SearchingEnds(dst: seq<byte>, o: nat, buf: seq<byte>, end: nat, anchor: nat, pos: nat, misses: nat,
                      tab: seq<uint16>, entries: nat, block: ByteList, final: seq<uint16>)
    requires anchor <= pos && pos + 12 > end && anchor <= end <= |buf| && end <= 0x1_0000 && 1 <= entries <= |tab|
    requires Searching(dst, o, buf, end, anchor, pos, misses, tab, entries, block, final)
    ensures tab == final && o <= |dst| && Before(dst, o, Head(Lits(buf, anchor, end), 0, Nil)) == block
  {
  }

  /** The cap check and the sequence of one match; not ok means the block is over the cap. */
  method EmitMatch(dst: array<byte>, o: nat, cap: nat, buf: seq<byte>, anchor: nat, m: Match,
                   ghost next: ByteList, ghost block: ByteList) returns (ok: bool, o1: nat)
    requires o <= cap <= dst.Length && anchor <= m.pos <= |buf| && m.len >= 4 && m.ref < m.pos
    requires Before(dst[..], o, Head(Lits(buf, anchor, m.pos), Nibble(m.len - 4),
                                     CopyBytes(m.pos - m.ref, m.len - 4, next))) == block
    modifies dst
    ensures Kept(dst[..], old(dst[..]), cap)
    ensures ok ==> o1 <= cap && Before(dst[..], o1, next) == block
    ensures !ok ==> Length(block) > cap
  {
    var lit, ml := m.pos - anchor, m.len - 4;
    ghost var copy := CopyBytes(m.pos - m.ref, ml, next);
    HeadSize(Lits(buf, anchor, m.pos), Nibble(ml), copy);
    CopySize(m.pos - m.ref, ml, next);
    if 3 + lit + ExtLen(lit) + ExtLen(ml) > cap - o { return false, o; }
    o1 := PutHead(dst, o, buf, anchor, lit, Nibble(ml), copy);
    o1 := PutCopy(dst, o1, m.pos - m.ref, ml, next);
    ok := true;
  }

  /** The loop body once 4 bytes match: extend the match to `m` and write its sequence. */
  method TakeMatch(buf: seq<byte>, end: nat, dst: array<byte>, o: nat, cap: nat, anchor: nat, pos: nat, ref: nat,
                   ghost m: Match, ghost next: ByteList, ghost block: ByteList)
    returns (ok: bool, o1: nat, at: nat)
    requires anchor <= pos && pos + 12 <= end <= |buf| && o <= cap <= dst.Length
    requires Hit(buf, pos, ref) && Repeats(buf, pos, ref, 4, anchor, end - 5)
    requires m == Grow(buf, pos, ref, 4, anchor, end - 5)
    requires Before(dst[..], o, Head(Lits(buf, anchor, m.pos), Nibble(m.len - 4),
                                     CopyBytes(m.pos - m.ref, m.len - 4, next))) == block
    modifies dst
    ensures Kept(dst[..], old(dst[..]), cap)
    ensures !ok ==> Length(block) > cap
    ensures pos < at == m.pos + m.len <= end
    ensures ok ==> o1 <= cap && Before(dst[..], o1, next) == block
  {
    var found := ExtendMatch(buf, pos, ref, anchor, end - 5);
    at := found.pos + found.len;
    ok, o1 := EmitMatch(dst, o, cap, buf, anchor, found, next, block);
  }

  /** The result of a call: the whole block if it fits in the cap, else 0. */
  ghost predicate Encoded(size: nat, out: seq<byte>, cap: nat, block: ByteList) {
    if Length(block) <= cap then size == Length(block) <= |out| && ListOf(out[..size]) == block else size == 0
  }

  /** The cap check and the last literals. */
  method EmitLast(dst: array<byte>, o: nat, cap: nat, buf: seq<byte>, anchor: nat, end: nat, ghost block: ByteList)
    returns (size: nat)
    requires o <= cap <= dst.Length && anchor <= end <= |buf|
    requires Before(dst[..], o, Head(Lits(buf, anchor, end), 0, Nil)) == block
    modifies dst
    ensures Kept(dst[..], old(dst[..]), cap)
    ensures Encoded(size, dst[..], cap, block)
  {
    var lit := end - anchor;
    HeadSize(Lits(buf, anchor, end), 0, Nil);
    if 1 + lit + ExtLen(lit) > cap - o { return 0; }
    size := PutHead(dst, o, buf, anchor, lit, 0, Nil);
    BeforeIsList(dst[..], size);
  }

  /** The greedy loop; not ok means the block is over the cap, else the literals from `anchor` are left. */
  method Greedy(buf: seq<byte>, p0: nat, end: nat, dst: array<byte>, cap: nat, tab: array<uint16>, entries: nat)
    returns (ok: bool, o: nat, anchor: nat)
    requires cap <= dst.Length && 1 <= entries <= tab.Length && dst as object != tab
    requires p0 + 13 <= end <= |buf| && end <= 0x1_0000
    modifies dst, tab
    ensures Kept(dst[..], old(dst[..]), cap)
    ensures var p := Search(buf, end, p0, p0, 0, old(tab[..]), entries);
            if ok then o <= cap && anchor <= end && tab[..] == p.tab
                       && Before(dst[..], o, Head(Lits(buf, anchor, end), 0, Nil)) == Serialize(p.seqs)
            else Length(Serialize(p.seqs)) > cap
  {
    ghost var t := tab[..];
    ghost var p := Search(buf, end, p0, p0, 0, t, entries);
    ghost var block, final := Serialize(p.seqs), p.tab;
    var pos: nat, misses: nat := p0, 0;
    anchor, o := p0, 0;
    while pos <= end - 12
      invariant p0 <= anchor <= pos && anchor <= end && o <= cap && tab[..] == t
      invariant Kept(dst[..], old(dst[..]), cap)
      invariant Searching(dst[..], o, buf, end, anchor, pos, misses, t, entries, block, final)
      decreases end - pos
    {
      ghost var t0, d := t, dst[..];
      var ref := Probe(buf, pos, tab, entries);
      t := tab[..];
      assert dst[..] == d;
      if !Hit(buf, pos, ref) {
        SearchingMiss(d, o, buf, end, anchor, pos, misses, t0, t, entries, block, final);
        pos, misses := pos + 1 + misses / MISSES_PER_STEP, misses + 1;
        continue;
      }
      HitRepeats(buf, pos, ref, anchor, end - 5);
      ghost var m := Grow(buf, pos, ref, 4, anchor, end - 5);
      ghost var next := Search(buf, end, m.pos + m.len, m.pos + m.len, 0, t, entries);
      SearchingHit(d, o, buf, end, anchor, pos, misses, t0, t, entries, m, block, final);
      ok, o, pos := TakeMatch(buf, end, dst, o, cap, anchor, pos, ref, m, Serialize(next.seqs), block);
      if !ok { return; }
      SearchingOn(dst[..], o, buf, end, pos, t, entries, next, block, final);
      anchor, misses := pos, 0;
    }
    SearchingEnds(dst[..], o, buf, end, anchor, pos, misses, t, entries, block, final);
    ok := true;
  }

  /** What lz4_encode_linked_ref does once the positions are known to fit in 16 bits. */
  method EncodeWindow(buf: seq<byte>, p0: nat, n: nat, dst: array<byte>, cap: nat, tab: array<uint16>, entries: nat)
    returns (size: nat)
    requires cap <= dst.Length && 1 <= entries <= tab.Length && dst as object != tab
    requires p0 + n <= |buf| && p0 + n <= 0x1_0000
    modifies dst, tab
    ensures Kept(dst[..], old(dst[..]), cap)
    ensures Encoded(size, dst[..], cap, BlockOf(buf, p0, n, old(tab[..]), entries))
    ensures size > 0 ==> tab[..] == Plan(buf, p0, n, old(tab[..]), entries).tab
  {
    ghost var block := BlockOf(buf, p0, n, tab[..], entries);
    var o: nat, anchor: nat := 0, p0;
    if n >= 13 {
      var ok;
      ok, o, anchor := Greedy(buf, p0, p0 + n, dst, cap, tab, entries);
      if !ok { return 0; }
    }
    size := EmitLast(dst, o, cap, buf, anchor, p0 + n, block);
  }

  /**
   * lz4_encode_linked_ref. `buf` is the memory from `base`, `p0` = src - base, and `dst` and
   * `tab` the arrays of those names, of which the first `cap` bytes and `entries` entries are the
   * caller's to give.
   */
  method EncodeLinked(buf: seq<byte>, p0: int, n: nat, dst: array<byte>, cap: nat, tab: array<uint16>, entries: nat)
    returns (size: nat)
    requires cap <= dst.Length && 1 <= entries <= tab.Length && dst as object != tab
    requires p0 >= 0 ==> p0 + n <= |buf|
    modifies dst, tab
    ensures Kept(dst[..], old(dst[..]), cap)
    ensures n > 65535 || p0 < 0 || p0 + n > 65536 ==> size == 0
    ensures n <= 65535 && 0 <= p0 <= 65536 - n ==>
              && Encoded(size, dst[..], cap, BlockOf(buf, p0, n, old(tab[..]), entries))
              && (size > 0 ==> tab[..] == Plan(buf, p0, n, old(tab[..]), entries).tab)
  {
    if n > 65535 || p0 < 0 || p0 + n > 65536 { return 0; }
    size := EncodeWindow(buf, p0, n, dst, cap, tab, entries);
  }

  /** lz4_encode_ref: the window is the source itself. */
  method Encode(src: seq<byte>, n: nat, dst: array<byte>, cap: nat, tab: array<uint16>, entries: nat)
    returns (size: nat)
    requires n <= |src| && cap <= dst.Length && 1 <= entries <= tab.Length && dst as object != tab
    modifies dst, tab
    ensures Kept(dst[..], old(dst[..]), cap)
    ensures size > 0 ==> n <= 65535 && size <= cap && Decode(ListOf(dst[..size]), []) == Some(src[..n])
    ensures n <= 65535 ==> Encoded(size, dst[..], cap, BlockOf(src, 0, n, old(tab[..]), entries))
    ensures n <= 65535 && cap >= n + n / 255 + 16 ==> size > 0
  {
    size := EncodeLinked(src, 0, n, dst, cap, tab, entries);
    if n <= 65535 {
      RoundTrip(src, 0, n, old(tab[..]), entries);
      CapSuffices(src, 0, n, old(tab[..]), entries);
      assert src[..0] == [];
    }
  }
}
