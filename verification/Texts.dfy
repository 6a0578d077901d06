/** Byte strings, as the source's `str`: a UTF-8 string is its bytes and `len()` counts bytes. */
module Texts {

  datatype Option<+T> = None | Some(value: T)

  newtype byte = b: int | 0 <= b < 256

  type Text = seq<byte>

  const COLON: byte := 58
  const ZERO: byte := 48

  predicate IsDigit(b: byte) { ZERO <= b < COLON }

  /** `n` in decimal, the way `{}` formats a `usize`. */
  function Decimal(n: nat): (t: Text)
    ensures |t| > 0
    ensures forall i :: 0 <= i < |t| ==> IsDigit(t[i])
  {
    if n < 10 then [ZERO + n as byte] else Decimal(n / 10) + [ZERO + (n % 10) as byte]
  }

  /** The number a run of digits denotes; any other byte makes the text unreadable. */
  function ParseDecimal(t: Text): Option<nat> {
    if t == [] then None
    else
      var last := t[|t| - 1];
      if !IsDigit(last) then None
      else if |t| == 1 then Some((last - ZERO) as nat)
      else match ParseDecimal(t[..|t| - 1])
        case None => None
        case Some(n) => Some(10 * n + (last - ZERO) as nat)
  }

  lemma {:induction false} ParseInvertsDecimal(n: nat)
    ensures ParseDecimal(Decimal(n)) == Some(n)
  {
    if n >= 10 {
      ParseInvertsDecimal(n / 10);
      var t := Decimal(n);
      assert t[..|t| - 1] == Decimal(n / 10);
    }
  }

  /** Ten's places: one more digit on the right, counted from the byte of `0`. */
  lemma DecimalDigits(n: nat, d: nat)
    requires d < 10
    ensures Decimal(d) == [48 + d as byte]
    ensures n > 0 ==> Decimal(10 * n + d) == Decimal(n) + [48 + d as byte]
  {
  }

  /** The text before the first separator and the text after it. */
  function Cut(t: Text): Option<(Text, Text)> {
    if t == [] then None
    else if t[0] == COLON then Some(([], t[1..]))
    else match Cut(t[1..])
      case None => None
      case Some((before, after)) => Some(([t[0]] + before, after))
  }

  lemma {:induction false} CutAtFirst(head: Text, tail: Text)
    requires COLON !in head
    ensures Cut(head + [COLON] + tail) == Some((head, tail))
  {
    var t := head + [COLON] + tail;
    if head == [] {
      assert t[1..] == tail;
    } else {
      CutAtFirst(head[1..], tail);
      assert t[1..] == head[1..] + [COLON] + tail;
      assert [head[0]] + head[1..] == head;
    }
  }

  lemma {:induction false} CutAbsent(t: Text)
    requires COLON !in t
    ensures Cut(t) == None
  {
    if t != [] { CutAbsent(t[1..]); }
  }

  lemma {:induction false} CutRejoins(t: Text)
    ensures match Cut(t)
            case None => COLON !in t
            case Some((before, after)) => COLON !in before && t == before + [COLON] + after
  {
    if t != [] && t[0] != COLON {
      CutRejoins(t[1..]);
      assert t == [t[0]] + t[1..];
    }
  }
}
