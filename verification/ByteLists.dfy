/**
 * Walking a file from the front: what is left of it is a list, and pieces come off its head.
 *
 * The walkers index a byte sequence; what they are proved against is written over lists, and
 * `From` is the bridge: the bytes from an index on, as a list. Here are the laws by which a step
 * of an index is a piece taken off the list.
 */
module ByteLists {
  import opened Bytes

  /** Byte i, or 0 past the end. */
  function At(l: ByteList, i: nat): byte
    decreases l
  {
    match l
    case Nil => 0
    case Cons(b, tail) => if i == 0 then b else At(tail, i - 1)
  }

  function Suffix(l: ByteList, n: nat): (r: ByteList)
    requires n <= Length(l)
    ensures Length(r) == Length(l) - n
    decreases l
  {
    if n == 0 then l else Suffix(l.tail, n - 1)
  }

  function Prefix(l: ByteList, n: nat): (r: ByteList)
    requires n <= Length(l)
    ensures Length(r) == n
    decreases l
  {
    if n == 0 then Nil else Cons(l.head, Prefix(l.tail, n - 1))
  }

  /** The first n bytes, as a piece. */
  function Take(l: ByteList, n: nat): (s: seq<byte>)
    requires n <= Length(l)
    ensures |s| == n
    decreases l
  {
    if n == 0 then [] else [l.head] + Take(l.tail, n - 1)
  }

  lemma TwoBytes(a: byte, b: byte, rest: ByteList)
    ensures var l := Cons(a, Cons(b, rest)); At(l, 0) == a && At(l, 1) == b && Suffix(l, 2) == rest
  {
    assert At(Cons(b, rest), 0) == b && Suffix(Cons(b, rest), 1) == rest;
  }

  /** The bytes of s from i on, and then `rest`. */
  function From(s: seq<byte>, i: nat, rest: ByteList): (r: ByteList)
    requires i <= |s|
    ensures Length(r) == |s| - i + Length(rest)
    decreases |s| - i
  {
    if i == |s| then rest else Cons(s[i], From(s, i + 1, rest))
  }

  lemma {:induction false} FromAt(s: seq<byte>, i: nat, rest: ByteList, k: nat)
    requires i + k < |s|
    ensures At(From(s, i, rest), k) == s[i + k]
    decreases k
  {
    if k > 0 { FromAt(s, i + 1, rest, k - 1); }
  }

  lemma {:induction false} FromSuffix(s: seq<byte>, i: nat, rest: ByteList, n: nat)
    requires i + n <= |s|
    ensures Suffix(From(s, i, rest), n) == From(s, i + n, rest)
    decreases n
  {
    if n > 0 { FromSuffix(s, i + 1, rest, n - 1); }
  }

  lemma {:induction false} FromTake(s: seq<byte>, i: nat, rest: ByteList, n: nat)
    requires i + n <= |s|
    ensures Take(From(s, i, rest), n) == s[i..i + n]
    decreases n
  {
    if n > 0 {
      FromTake(s, i + 1, rest, n - 1);
      assert s[i..i + n] == [s[i]] + s[i + 1..i + n];
    }
  }

  /** The same bytes make the same list. */
  lemma {:induction false} FromSame(s: seq<byte>, i: nat, t: seq<byte>, j: nat, rest: ByteList)
    requires i <= |s| && j <= |t| && s[i..] == t[j..]
    ensures From(s, i, rest) == From(t, j, rest)
    decreases |s| - i
  {
    if i < |s| {
      assert s[i] == s[i..][0] == t[j..][0] == t[j];
      assert s[i + 1..] == s[i..][1..] == t[j..][1..] == t[j + 1..];
      FromSame(s, i + 1, t, j + 1, rest);
    } else {
      assert |s[i..]| == |t[j..]| == 0;
    }
  }

  lemma {:induction false} TakeBack(l: ByteList, n: nat)
    requires n <= Length(l)
    ensures From(Take(l, n), 0, Suffix(l, n)) == l
    decreases n
  {
    if n > 0 {
      TakeBack(l.tail, n - 1);
      var s := Take(l.tail, n - 1);
      assert ([l.head] + s)[1..] == s == s[0..];
      FromSame([l.head] + s, 1, s, 0, Suffix(l, n));
    }
  }

  lemma {:induction false} TakeAt(l: ByteList, n: nat, k: nat)
    requires k < n <= Length(l)
    ensures Take(l, n)[k] == At(l, k)
    decreases k
  {
    if k > 0 { TakeAt(l.tail, n - 1, k - 1); }
  }

  /** A piece put back comes off whole. */
  lemma PutPiece(s: seq<byte>, rest: ByteList)
    ensures Take(From(s, 0, rest), |s|) == s && Suffix(From(s, 0, rest), |s|) == rest
  {
    FromTake(s, 0, rest, |s|);
    FromSuffix(s, 0, rest, |s|);
  }

  /** One piece after another: the list of a concatenation. */
  lemma {:induction false} FromConcat(s: seq<byte>, t: seq<byte>, i: nat, rest: ByteList)
    requires i <= |s|
    ensures From(s + t, i, rest) == From(s, i, From(t, 0, rest))
    decreases |s| - i
  {
    if i == |s| {
      assert (s + t)[|s|..] == t == t[0..];
      FromSame(s + t, |s|, t, 0, rest);
    } else {
      FromConcat(s, t, i + 1, rest);
    }
  }

  lemma {:induction false} PrefixAt(l: ByteList, n: nat, k: nat)
    requires k < n <= Length(l)
    ensures At(Prefix(l, n), k) == At(l, k)
    decreases k
  {
    if k > 0 { PrefixAt(l.tail, n - 1, k - 1); }
  }

  lemma {:induction false} SuffixAt(l: ByteList, n: nat, k: nat)
    requires n <= Length(l)
    ensures At(Suffix(l, n), k) == At(l, n + k)
    decreases n
  {
    if n > 0 { SuffixAt(l.tail, n - 1, k); }
  }

  lemma {:induction false} PrefixSuffix(l: ByteList, n: nat, k: nat)
    requires k <= n <= Length(l)
    ensures Suffix(Prefix(l, n), k) == Prefix(Suffix(l, k), n - k)
    decreases k
  {
    if k > 0 { PrefixSuffix(l.tail, n - 1, k - 1); }
  }

  lemma {:induction false} PrefixTake(l: ByteList, n: nat, k: nat)
    requires k <= n <= Length(l)
    ensures Take(Prefix(l, n), k) == Take(l, k)
    decreases k
  {
    if k > 0 { PrefixTake(l.tail, n - 1, k - 1); }
  }

  /** Bytes as ASCII. */
  function Ascii(bytes: seq<byte>): string {
    seq(|bytes|, i requires 0 <= i < |bytes| => bytes[i] as char)
  }

  /** Four bytes are these if and only if they read as this name. */
  lemma NameIs(bytes: seq<byte>, kind: seq<byte>, name: string)
    requires |bytes| == 4 && |kind| == 4 && Ascii(kind) == name
    ensures bytes == kind <==> Ascii(bytes) == name
  {
    if Ascii(bytes) == Ascii(kind) {
      forall k | 0 <= k < 4 ensures bytes[k] == kind[k] { assert Ascii(bytes)[k] == Ascii(kind)[k]; }
    }
  }

  // ---- Parts, concatenated ----

  function Joined(parts: seq<seq<byte>>, n: nat): seq<byte>
    requires n <= |parts|
  {
    if n == 0 then [] else Joined(parts, n - 1) + parts[n - 1]
  }

  /** The first n parts, and then `rest`. */
  function Glue(parts: seq<seq<byte>>, n: nat, rest: ByteList): ByteList
    requires n <= |parts|
    decreases n
  {
    if n == 0 then rest else Glue(parts, n - 1, From(parts[n - 1], 0, rest))
  }

  lemma {:induction false} GlueIsJoined(parts: seq<seq<byte>>, n: nat, rest: ByteList)
    requires n <= |parts|
    ensures Glue(parts, n, rest) == From(Joined(parts, n), 0, rest)
    decreases n
  {
    if n > 0 {
      GlueIsJoined(parts, n - 1, From(parts[n - 1], 0, rest));
      FromConcat(Joined(parts, n - 1), parts[n - 1], 0, rest);
    }
  }

  lemma {:induction false} GlueSame(parts: seq<seq<byte>>, more: seq<seq<byte>>, n: nat, rest: ByteList)
    requires n <= |parts| && n <= |more| && forall k :: 0 <= k < n ==> parts[k] == more[k]
    ensures Glue(parts, n, rest) == Glue(more, n, rest)
    decreases n
  {
    if n > 0 { GlueSame(parts, more, n - 1, From(parts[n - 1], 0, rest)); }
  }

  /** One part pushed. */
  lemma GlueMore(parts: seq<seq<byte>>, s: seq<byte>, rest: ByteList)
    ensures Glue(parts + [s], |parts| + 1, rest) == Glue(parts, |parts|, From(s, 0, rest))
  {
    GlueSame(parts + [s], parts, |parts|, From(s, 0, rest));
  }

  lemma {:induction false} JoinedGrows(parts: seq<seq<byte>>, m: nat, n: nat)
    requires m <= n <= |parts|
    ensures |Joined(parts, m)| <= |Joined(parts, n)|
    decreases n
  {
    if m < n { JoinedGrows(parts, m, n - 1); }
  }

  /** The parts set one after another in a buffer of their total length. */
  method Concat(parts: seq<seq<byte>>) returns (out: seq<byte>)
    ensures out == Joined(parts, |parts|)
  {
    var total := 0;
    for k := 0 to |parts|
      invariant total == |Joined(parts, k)|
    {
      total := total + |parts[k]|;
    }
    var buffer := new byte[total];
    var at := 0;
    for k := 0 to |parts|
      invariant 0 <= at <= total && buffer[..at] == Joined(parts, k)
    {
      JoinedGrows(parts, k + 1, |parts|);
      ghost var before := buffer[..at];
      var p := parts[k];
      forall i | 0 <= i < |p| { buffer[at + i] := p[i]; }
      assert buffer[..at + |p|] == before + p;
      at := at + |p|;
    }
    out := buffer[..];
    assert out == buffer[..at];
  }
}
