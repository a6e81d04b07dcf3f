/** The growable ring buffer behind every velocity window (internal/features/deque.go). */
module Deques {
  import opened Bits

  /** Where the i-th element of a ring of capacity len starting at head lives. */
  function Slot(head: nat, i: nat, len: nat): (k: nat)
    requires head < len && i <= len
    ensures i < len ==> k < len
  {
    if head + i < len then head + i else head + i - len
  }

  lemma MaskIsSlot(head: nat, i: nat, len: nat)
    requires PowerOfTwo(len) && head < len && i < len
    ensures And(head + i, len - 1) == Slot(head, i, len)
  {
    MaskIsRemainder(head + i, len);
    QuotientUnique(head + i, len, if head + i < len then 0 else 1, Slot(head, i, len));
  }

  lemma Doubled(len: nat)
    requires len == 0 || PowerOfTwo(len)
    ensures PowerOfTwo(4) && (len > 0 ==> PowerOfTwo(2 * len))
  {
    assert PowerOfTwo(2);
  }

  class Deque<T(0)> {
    var buf: array<T>
    var head: nat
    var n: nat
    ghost var Contents: seq<T>

    ghost predicate Valid()
      reads this, buf
    {
      && n == |Contents| <= buf.Length
      && (buf.Length == 0 ==> head == 0)
      && (buf.Length > 0 ==>
            && PowerOfTwo(buf.Length)
            && head < buf.Length
            && forall i :: 0 <= i < n ==> buf[Slot(head, i, buf.Length)] == Contents[i])
    }

    constructor ()
      ensures Valid() && Contents == [] && fresh(buf)
    {
      buf := new T[0];
      head, n, Contents := 0, 0, [];
    }

    method At(i: nat) returns (x: T)
      requires Valid() && i < n
      ensures x == Contents[i]
    {
      MaskIsSlot(head, i, buf.Length);
      x := buf[And(head + i, buf.Length - 1)];
    }

    /** Moves the elements, in order, to the front of a buffer of capacity c. */
    method Resize(c: nat)
      requires Valid() && PowerOfTwo(c) && n <= c
      modifies this
      ensures Valid() && Contents == old(Contents) && n == old(n)
      ensures fresh(buf) && buf.Length == c && head == 0
    {
      var b := new T[c];
      for i := 0 to n
        invariant Valid() && unchanged(this) && unchanged(buf)
        invariant forall k :: 0 <= k < i ==> b[k] == Contents[k]
      {
        b[i] := At(i);
      }
      buf, head := b, 0;
    }

    method PushBack(x: T)
      requires Valid()
      modifies this, buf
      ensures Valid() && Contents == old(Contents) + [x]
      ensures buf == old(buf) || fresh(buf)
    {
      if n == buf.Length {
        var c := if 2 * buf.Length < 4 then 4 else 2 * buf.Length;
        Doubled(buf.Length);
        Resize(c);
      }
      hide PowerOfTwo, And;
      MaskIsSlot(head, n, buf.Length);
      buf[And(head + n, buf.Length - 1)] := x;
      n, Contents := n + 1, Contents + [x];
    }

    /** Drops the front element, and halves a buffer that is at most a quarter full. */
    method PopFront(zero: T)
      requires Valid() && n > 0
      modifies this, buf
      ensures Valid() && Contents == old(Contents)[1..]
      ensures buf == old(buf) || fresh(buf)
    {
      var len := buf.Length;
      buf[head] := zero;
      ghost var h := head;
      MaskIsRemainder(head + 1, len);
      QuotientUnique(head + 1, len, if head + 1 < len then 0 else 1, if head + 1 < len then head + 1 else 0);
      head := And(head + 1, len - 1);
      n, Contents := n - 1, Contents[1..];
      assert forall i :: 0 <= i < n ==> Slot(head, i, len) == Slot(h, i + 1, len);
      if len > 16 && n <= len / 4 {
        Resize(len / 2);
      }
    }
  }
}
