/** The circular byte buffer of internal/call/ring.go, refining a bounded FIFO. */
module Ring {
  import opened Common
  import opened Division

  /** Position of the i-th buffered byte. */
  function Slot(head: int, i: int, n: int): int {
    if head + i < n then head + i else head + i - n
  }

  lemma SlotIsMod(head: int, i: int, n: int)
    requires 0 <= head < n && 0 <= i <= n
    ensures (head + i) % n == Slot(head, i, n)
  {
    DivUnique(head + i, n, if head + i < n then 0 else 1);
  }

  /** The size bytes from head on, wrapping around the end of b. */
  ghost function View(b: seq<byte>, head: nat, size: nat): (v: seq<byte>)
    requires head < |b| && size <= |b|
    ensures |v| == size
  {
    seq(size, i requires 0 <= i < size => b[Slot(head, i, |b|)])
  }

  lemma ViewAppend(b: seq<byte>, head: nat, size: nat, x: byte)
    requires head < |b| && size < |b|
    ensures View(b[Slot(head, size, |b|) := x], head, size + 1) == View(b, head, size) + [x]
  {
  }

  lemma ViewDrop(b: seq<byte>, head: nat, size: nat, n: nat)
    requires head < |b| && n <= size <= |b|
    ensures 0 <= Slot(head, n, |b|) < |b|
    ensures View(b, Slot(head, n, |b|), size - n) == View(b, head, size)[n..]
  {
  }

  class ByteRing {
    const buf: array<byte>
    var head: nat
    var size: nat

    ghost predicate Valid()
      reads this
    {
      head < buf.Length && size <= buf.Length
    }

    /** Buffered bytes, oldest first. */
    ghost function Contents(): (s: seq<byte>)
      requires Valid()
      reads this, buf
      ensures |s| == size
    {
      View(buf[..], head, size)
    }

    constructor (capacity: int)
      ensures Valid() && Contents() == [] && fresh(buf)
      ensures buf.Length == if capacity <= 0 then 1 else capacity
    {
      buf := new byte[if capacity <= 0 then 1 else capacity](_ => 0);
      head, size := 0, 0;
    }

    method Len() returns (n: nat)
      requires Valid()
      ensures n == |Contents()|
    {
      n := size;
    }

    method Write(p: seq<byte>) returns (n: nat)
      requires Valid()
      modifies this`size, buf
      ensures Valid()
      ensures n == if |p| <= buf.Length - |old(Contents())| then |p| else buf.Length - |old(Contents())|
      ensures Contents() == old(Contents()) + p[..n]
    {
      n := |p|;
      if n > buf.Length - size {
        n := buf.Length - size;
      }
      ghost var was := Contents();
      for i := 0 to n
        invariant unchanged(this)
        invariant View(buf[..], head, size + i) == was + p[..i]
      {
        hide View;
        SlotIsMod(head, size + i, buf.Length);
        ViewAppend(buf[..], head, size + i, p[i]);
        ghost var b := buf[..];
        buf[(head + size + i) % buf.Length] := p[i];
        assert buf[..] == b[Slot(head, size + i, |b|) := p[i]];
        assert p[..i + 1] == p[..i] + [p[i]];
      }
      size := size + n;
    }

    method Read(dst: array<byte>) returns (n: nat)
      requires Valid() && dst != buf
      modifies this, dst
      ensures Valid()
      ensures n == if dst.Length <= |old(Contents())| then dst.Length else |old(Contents())|
      ensures dst[..n] == old(Contents())[..n] && dst[n..] == old(dst[n..])
      ensures Contents() == old(Contents())[n..]
    {
      n := dst.Length;
      if n > size {
        n := size;
      }
      ghost var was := Contents();
      for i := 0 to n
        invariant unchanged(this) && unchanged(buf)
        invariant forall j :: 0 <= j < i ==> dst[j] == was[j]
        invariant forall j :: n <= j < dst.Length ==> dst[j] == old(dst[j])
      {
        SlotIsMod(head, i, buf.Length);
        dst[i] := buf[(head + i) % buf.Length];
      }
      SlotIsMod(head, n, buf.Length);
      ViewDrop(buf[..], head, size, n);
      hide View;
      head := (head + n) % buf.Length;
      size := size - n;
    }

    method Reset()
      requires Valid()
      modifies this
      ensures Valid() && Contents() == []
    {
      head, size := 0, 0;
    }
  }
}
