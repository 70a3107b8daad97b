/** The value types several components share. */
module Bytes {

  /** One byte, as the number it holds. */
  type byte = b: int | 0 <= b < 256 witness 0

  datatype Option<+T> = None | Some(value: T)

  /** Bytes taken or put one at a time from the front. */
  datatype ByteList = Nil | Cons(head: byte, tail: ByteList)

  function Length(l: ByteList): nat {
    match l
    case Nil => 0
    case Cons(_, tail) => 1 + Length(tail)
  }

  function Append(l: ByteList, m: ByteList): (r: ByteList)
    ensures Length(r) == Length(l) + Length(m)
  {
    match l
    case Nil => m
    case Cons(b, tail) => Cons(b, Append(tail, m))
  }

  /** s[..n] and then `rest`. */
  function Before(s: seq<byte>, n: nat, rest: ByteList): (r: ByteList)
    requires n <= |s|
    ensures Length(r) == n + Length(rest)
    decreases n
  {
    if n == 0 then rest else Before(s, n - 1, Cons(s[n - 1], rest))
  }

  function ListOf(s: seq<byte>): ByteList {
    Before(s, |s|, Nil)
  }

  /** Only the first n elements matter. */
  lemma {:induction false} BeforeSame(s: seq<byte>, t: seq<byte>, n: nat, rest: ByteList)
    requires n <= |s| && n <= |t| && forall k :: 0 <= k < n ==> s[k] == t[k]
    ensures Before(s, n, rest) == Before(t, n, rest)
    decreases n
  {
    if n > 0 { BeforeSame(s, t, n - 1, Cons(s[n - 1], rest)); }
  }

  lemma BeforeIsList(s: seq<byte>, n: nat)
    requires n <= |s|
    ensures Before(s, n, Nil) == ListOf(s[..n])
  {
    BeforeSame(s, s[..n], n, Nil);
  }
}
