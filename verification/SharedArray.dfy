// SArray (deps/include/ps/sarray.h): a growable array that shares its memory with copies and
// segments. The shared pointer is an array with an offset into it.
module SharedArray {
  import KvData

  /** What resize makes of the elements. */
  function Resized(s: seq<int>, n: nat, v: int): (r: seq<int>)
    ensures |r| == n
  {
    if n <= |s| then s[..n] else s + KvData.Repeat(v, n - |s|)
  }

  /** Elements that lie from p on in a memory whose entries from lo to hi are set to zero. */
  function Cleared(s: seq<int>, p: nat, lo: nat, hi: nat): (r: seq<int>)
    ensures |r| == |s| && forall i :: 0 <= i < |r| ==> r[i] == if lo <= p + i < hi then 0 else s[i]
  {
    seq(|s|, i requires 0 <= i < |s| => if lo <= p + i < hi then 0 else s[i])
  }

  lemma ClearedSame(s: seq<int>, p: nat, lo: nat, hi: nat)
    ensures Cleared(s, p, lo, hi) == s <==> forall i :: 0 <= i < |s| && lo <= p + i < hi ==> s[i] == 0
  {
    if i :| 0 <= i < |s| && lo <= p + i < hi && s[i] != 0 {
      assert Cleared(s, p, lo, hi)[i] == 0;
    }
  }

  class SArray {
    var buf: array<int>
    var off: nat
    var size: nat
    var capacity: nat

    ghost predicate Valid()
      reads this
    {
      size <= capacity && off + capacity <= buf.Length
    }

    ghost function Contents(): (s: seq<int>)
      requires Valid()
      reads this, buf
      ensures |s| == size && forall i :: 0 <= i < size ==> s[i] == buf[off + i]
    {
      buf[off..off + size]
    }

    lemma IsPart()
      requires Valid()
      ensures Contents() == buf[..][off..off + size]
    {
    }

    constructor ()
      ensures Valid() && Contents() == [] && fresh(buf)
    {
      buf := new int[0];
      off, size, capacity := 0, 0, 0;
    }

    /** A copy of a std::vector: CopyFrom on an array without memory. */
    constructor FromSeq(data: seq<int>)
      ensures Valid() && Contents() == data && fresh(buf) && off == 0 && capacity == |data|
      ensures buf.Length == if data == [] then 0 else |data| + 5
    {
      buf := new int[0];
      off, size, capacity := 0, 0, 0;
      new;
      Resize(|data|, 0);
      Overwrite(0, data);
    }

    /** Whether n elements fit without new memory. */
    predicate Fits(n: nat)
      reads this
    {
      capacity >= n
    }

    /**
     * resize. In place only the entries behind the old elements are written; otherwise the
     * old memory is left as it was.
     */
    method Resize(n: nat, v: int)
      requires Valid()
      modifies this, buf
      ensures Valid() && Contents() == Resized(old(Contents()), n, v)
      ensures old(Fits(n)) ==> buf == old(buf) && off == old(off) && capacity == old(capacity)
      ensures old(Fits(n)) ==> forall i :: 0 <= i < buf.Length ==>
        buf[i] == if off + old(size) <= i < off + n then v else old(buf[i])
      ensures !old(Fits(n)) ==> fresh(buf) && off == 0 && capacity == n && buf.Length == n + 5
      ensures !old(Fits(n)) ==> old(buf)[..] == old(buf[..])
    {
      var curN := size;
      if capacity >= n {
        size := n;
      } else {
        Move(n);
      }
      if n <= curN {
        assert Contents() == old(Contents())[..n];
        return;
      }
      Extend(curN, v);
    }

    /** memset, or its loop, over the last entries. */
    method Extend(at: nat, v: int)
      requires Valid() && at <= size
      modifies buf
      ensures Valid() && Contents() == old(Contents()[..at]) + KvData.Repeat(v, size - at)
      ensures forall i :: 0 <= i < buf.Length ==>
        buf[i] == if off + at <= i < off + size then v else old(buf[i])
    {
      ghost var front, tail := Contents()[..at], KvData.Repeat(v, size - at);
      Overwrite(at, KvData.Repeat(v, size - at));
      assert tail[..size - at] == tail;
      forall i | off + at <= i < off + size
        ensures buf[i] == v
      {
        assert 0 <= i - off < size && |front| == at;
        assert buf[i] == Contents()[i - off] == (front + tail)[i - off] == tail[i - off - at];
      }
    }

    /** New memory for n entries, starting with the elements; the rest is not set yet. */
    method Move(n: nat)
      requires Valid() && n > capacity
      modifies this
      ensures Valid() && fresh(buf) && buf.Length == n + 5 && off == 0 && size == capacity == n
      ensures Contents()[..old(size)] == old(Contents())
    {
      var newData := new int[n + 5];
      forall i | 0 <= i < size {
        newData[i] := buf[off + i];
      }
      buf, off, size, capacity := newData, 0, n, n;
    }

    /** reserve: room for n elements, the same contents. */
    method Reserve(n: nat)
      requires Valid()
      modifies this, buf
      ensures Valid() && Contents() == old(Contents()) && Fits(n)
      ensures old(Fits(n)) ==> buf == old(buf) && off == old(off) && capacity == old(capacity)
      ensures !old(Fits(n)) ==> fresh(buf)
      ensures old(buf)[..] == old(buf[..])
    {
      if capacity >= n {
        return;
      }
      var oldSize := size;
      Resize(n, 0);
      size := oldSize;
      assert forall i :: 0 <= i < size ==> Contents()[i] == old(Contents())[i];
    }

    /** push_back: in place it writes the one entry behind the elements. */
    method PushBack(v: int)
      requires Valid()
      modifies this, buf
      ensures Valid() && Contents() == old(Contents()) + [v]
      ensures old(Fits(size + 1)) ==> buf == old(buf) && off == old(off) && capacity == old(capacity)
      ensures old(Fits(size + 1)) ==> forall i :: 0 <= i < buf.Length && i != off + old(size) ==> buf[i] == old(buf[i])
      ensures !old(Fits(size + 1)) ==> fresh(buf) && old(buf)[..] == old(buf[..])
    {
      if size == capacity {
        Reserve(size * 2 + 5);
      }
      ghost var start := Contents();
      buf[off + size] := v;
      size := size + 1;
      assert Contents() == start + [v];
    }

    method PopBack()
      requires Valid()
      modifies this`size
      ensures Valid() && Contents() == if old(size) == 0 then [] else old(Contents())[..old(size) - 1]
    {
      if size != 0 {
        size := size - 1;
      }
    }

    /**
     * What append reads of another array: in place, resize has already cleared the entries
     * behind the elements, also where the other array has its own.
     */
    ghost function Seen(other: SArray): seq<int>
      requires Valid() && other.Valid()
      reads this, buf, other, other.buf
    {
      if Fits(size + other.size) && other.buf == buf then
        Cleared(other.Contents(), other.off, off + size, off + size + other.size)
      else other.Contents()
    }

    /** Appending an array to itself copies twice its length, so the memory must hold three times. */
    ghost predicate SelfAppendFits()
      reads this
    {
      size == 0 || (if Fits(2 * size) then off + 3 * size <= buf.Length else 3 * size <= 2 * size + 5)
    }

    /**
     * append. The size of the other array is read again after resize, so appending an array to
     * itself copies twice as much; inBounds says whether the copy stays in the memory. Where
     * source and target overlap memcpy is taken to read the source first.
     */
    method Append(other: SArray) returns (inBounds: bool)
      requires Valid() && other.Valid()
      modifies this, buf
      ensures inBounds <==> (other == this ==> old(SelfAppendFits()))
      ensures inBounds ==> Valid() && Contents() == old(Contents()) + old(Seen(other))
      ensures other != this && old(Fits(size + other.size)) ==>
        buf == old(buf) && off == old(off) && capacity == old(capacity)
      ensures other != this && old(Fits(size + other.size)) ==> forall i ::
        0 <= i < buf.Length && !(off + old(size) <= i < off + size) ==> buf[i] == old(buf[i])
      ensures !old(Fits(size + other.size)) ==> fresh(buf) && old(buf)[..] == old(buf[..])
    {
      if other.size == 0 {
        assert Contents() + [] == Contents();
        return true;
      }
      var origSize := size;
      var source := MakeRoom(other);
      if off + origSize + |source| > buf.Length {
        return false;
      }
      Overwrite(origSize, source);
      inBounds := true;
    }

    /** The resize of append, and what memcpy then reads. */
    method MakeRoom(other: SArray) returns (source: seq<int>)
      requires Valid() && other.Valid()
      modifies this, buf
      ensures Valid() && size == old(size + other.size) && Contents()[..old(size)] == old(Contents())
      ensures |source| == other.size && old(other.size) <= |source|
      ensures source[..old(other.size)] == old(Seen(other))
      ensures old(Fits(size + other.size)) ==>
        buf == old(buf) && off == old(off) && capacity == old(capacity)
      ensures old(Fits(size + other.size)) ==> forall i ::
        0 <= i < buf.Length && !(off + old(size) <= i < off + size) ==> buf[i] == old(buf[i])
      ensures !old(Fits(size + other.size)) ==> fresh(buf) && off == 0 && buf.Length == size + 5
      ensures !old(Fits(size + other.size)) ==> old(buf)[..] == old(buf[..])
    {
      ghost var start, seen := Contents(), Seen(other);
      Resize(size + other.size, 0);
      assert Contents()[..|start|] == start;
      source := other.buf[other.off..other.off + other.size];
      if other == this {
        assert source == Contents() && seen == start;
      } else {
        assert |seen| == |source| && forall i :: 0 <= i < |source| ==> source[i] == seen[i];
      }
    }

    /** memcpy over the entries from at on; it may run past the size but not past the memory. */
    method Overwrite(at: nat, data: seq<int>)
      requires Valid() && at <= size <= at + |data| && off + at + |data| <= buf.Length
      modifies buf
      ensures Valid() && Contents() == old(Contents())[..at] + data[..size - at]
      ensures forall i :: 0 <= i < buf.Length && !(off + at <= i < off + at + |data|) ==>
        buf[i] == old(buf[i])
    {
      ghost var start := Contents();
      forall i | 0 <= i < |data| {
        buf[off + at + i] := data[i];
      }
      ghost var result := start[..at] + data[..size - at];
      forall i | 0 <= i < size
        ensures Contents()[i] == result[i]
      {
        if i >= at {
          assert buf[off + at + (i - at)] == data[i - at];
        }
      }
    }

    /** append does what it says, for another array, if and only if nothing it reads was cleared. */
    lemma AppendRightIff(other: SArray)
      requires Valid() && other.Valid()
      ensures Contents() + Seen(other) == Contents() + other.Contents()
         <==> Fits(size + other.size) && other.buf == buf ==>
                forall i :: other.off <= i < other.off + other.size ==>
                  off + size <= i < off + size + other.size ==> buf[i] == 0
    {
      var a, b := Seen(other), other.Contents();
      assert (Contents() + a)[size..] == a && (Contents() + b)[size..] == b;
      ClearedSame(b, other.off, off + size, off + size + other.size);
      assert forall i :: other.off <= i < other.off + other.size ==> other.buf[i] == b[i - other.off];
    }

    /** What CopyFrom reads at a pointer: in place, resize has already cleared the new entries. */
    ghost function SeenAt(source: array<int>, from: nat, n: nat): seq<int>
      requires Valid() && from + n <= source.Length
      reads this, source
    {
      if Fits(n) && source == buf then Cleared(source[from..from + n], from, off + size, off + n)
      else source[from..from + n]
    }

    /** CopyFrom a pointer, which may point into the array's own memory. */
    method CopyFromPointer(source: array<int>, from: nat, n: nat)
      requires Valid() && from + n <= source.Length
      modifies this, buf
      ensures Valid() && Contents() == old(SeenAt(source, from, n))
      ensures old(Fits(n)) ==> buf == old(buf) && off == old(off)
      ensures !old(Fits(n)) ==> fresh(buf) && old(buf)[..] == old(buf[..])
    {
      ghost var seen := SeenAt(source, from, n);
      Resize(n, 0);
      var data := source[from..from + n];
      assert forall i :: 0 <= i < n ==> data[i] == seen[i];
      Overwrite(0, data);
    }

    /** CopyFrom another array; from itself it does nothing. */
    method CopyFrom(other: SArray)
      requires Valid() && other.Valid()
      modifies this, buf
      ensures Valid()
      ensures other == this ==> Contents() == old(Contents())
      ensures other != this ==> Contents() == old(SeenAt(other.buf, other.off, other.size))
    {
      if other == this {
        return;
      }
      CopyFromPointer(other.buf, other.off, other.size);
    }

    /** The copy is right if and only if nothing that it reads was cleared. */
    lemma CopyRightIff(source: array<int>, from: nat, n: nat)
      requires Valid() && from + n <= source.Length
      ensures SeenAt(source, from, n) == source[from..from + n]
         <==> Fits(n) && source == buf ==>
                forall i :: from <= i < from + n && off + size <= i < off + n ==> source[i] == 0
    {
      var data := source[from..from + n];
      ClearedSame(data, from, off + size, off + n);
      assert forall i :: from <= i < from + n ==> source[i] == data[i - from];
    }

    /** segment: the same memory from begin to end, with no spare capacity. */
    method Segment(begin: nat, end: nat) returns (ok: bool, s: SArray)
      requires Valid()
      ensures ok <==> begin <= end <= size
      ensures fresh(s) && s.Valid()
      ensures ok ==> s.Contents() == Contents()[begin..end] && s.buf == buf && s.off == off + begin
      ensures ok ==> s.size == s.capacity == end - begin
    {
      s := new SArray();
      ok := begin <= end <= size;
      if ok {
        s.buf, s.off, s.size, s.capacity := buf, off + begin, end - begin, end - begin;
        assert buf[off + begin..off + end] == buf[off..off + size][begin..end];
      }
    }
  }

  // ----- segments and their parents -----

  datatype Op = Push(v: int) | Pop | Resize(n: nat, v: int) | Reserve(n: nat) | Append(data: seq<int>)

  function Apply(s: seq<int>, op: Op): seq<int> {
    match op
    case Push(v) => s + [v]
    case Pop => if s == [] then [] else s[..|s| - 1]
    case Resize(n, v) => Resized(s, n, v)
    case Reserve(_) => s
    case Append(data) => s + data
  }

  /** How many entries an operation asks for. */
  function Needs(size: nat, op: Op): nat {
    match op
    case Reserve(n) => n
    case _ => SizeAfter(size, op)
  }

  function SizeAfter(size: nat, op: Op): nat {
    match op
    case Push(_) => size + 1
    case Pop => if size == 0 then 0 else size - 1
    case Resize(n, _) => n
    case Reserve(_) => size
    case Append(data) => size + |data|
  }

  /** A segment: the parent's entries under it, whether it has moved away, and its elements. */
  datatype Cut = Cut(window: seq<int>, moved: bool, elems: seq<int>)

  function CutOf(window: seq<int>): Cut { Cut(window, false, window) }

  /** Growing in place writes the added elements into the parent. */
  function Step(c: Cut, op: Op): (r: Cut)
    ensures |r.window| == |c.window|
  {
    var elems, moved := Apply(c.elems, op), c.moved || Needs(|c.elems|, op) > |c.window|;
    var window :=
      if !moved && |c.elems| < |elems| <= |c.window| then
        c.window[..|c.elems|] + elems[|c.elems|..] + c.window[|elems|..]
      else c.window;
    Cut(window, moved, elems)
  }

  function Steps(c: Cut, ops: seq<Op>): (r: Cut)
    ensures |r.window| == |c.window|
    decreases |ops|
  {
    if ops == [] then c else Step(Steps(c, ops[..|ops| - 1]), ops[|ops| - 1])
  }

  /** A memory in which the elements at off have grown beyond their first n. */
  function Written(mem: seq<int>, off: nat, n: nat, elems: seq<int>): (r: seq<int>)
    requires off + |elems| <= |mem|
    ensures |r| == |mem|
  {
    if n < |elems| then mem[..off + n] + elems[n..] + mem[off + |elems|..] else mem
  }

  /** append of an array that shares no memory with s. */
  method AppendFresh(s: SArray, data: seq<int>)
    requires s.Valid()
    modifies s, s.buf
    ensures s.Valid() && s.Contents() == old(s.Contents()) + data
    ensures old(s.Fits(s.size + |data|)) ==>
      s.buf == old(s.buf) && s.off == old(s.off) && s.capacity == old(s.capacity)
    ensures old(s.Fits(s.size + |data|)) ==> forall i ::
      0 <= i < s.buf.Length && !(s.off + old(s.size) <= i < s.off + s.size) ==> s.buf[i] == old(s.buf[i])
    ensures !old(s.Fits(s.size + |data|)) ==> fresh(s.buf) && old(s.buf)[..] == old(s.buf[..])
  {
    var other := new SArray.FromSeq(data);
    var ok := s.Append(other);
  }

  method Perform(s: SArray, op: Op)
    requires s.Valid()
    modifies s, s.buf
    ensures s.Valid() && s.Contents() == Apply(old(s.Contents()), op)
    ensures old(s.Fits(Needs(s.size, op))) ==>
      s.buf == old(s.buf) && s.off == old(s.off) && s.capacity == old(s.capacity)
    ensures old(s.Fits(Needs(s.size, op))) ==> forall i ::
      0 <= i < s.buf.Length && !(s.off + old(s.size) <= i < s.off + s.size) ==> s.buf[i] == old(s.buf[i])
    ensures !old(s.Fits(Needs(s.size, op))) ==> fresh(s.buf) && old(s.buf)[..] == old(s.buf[..])
  {
    match op
    case Push(v) => s.PushBack(v);
    case Pop => s.PopBack();
    case Resize(n, v) => s.Resize(n, v);
    case Reserve(n) => s.Reserve(n);
    case Append(data) => AppendFresh(s, data);
  }

  /**
   * Whatever is done to a freshly cut segment: its elements, and what its parent's elements
   * are afterwards.
   */
  method UseSegment(parent: SArray, begin: nat, end: nat, ops: seq<Op>) returns (s: SArray)
    requires parent.Valid() && begin <= end <= parent.size
    modifies parent.buf
    ensures parent.Valid() && s.Valid()
    ensures var was := old(parent.Contents()); var c := Steps(CutOf(was[begin..end]), ops);
      && parent.Contents() == was[..begin] + c.window + was[end..]
      && s.Contents() == c.elems
  {
    hide Steps, Step, Under, Apply, Written, Needs, SizeAfter, Resized;
    var ok;
    ok, s := parent.Segment(begin, end);
    ghost var mem, window, was := parent.buf[..], s.Contents(), parent.Contents();
    assert was == mem[parent.off..parent.off + parent.size] by {
      parent.IsPart();
    }
    assert window == was[begin..end];
    UseAll(parent, s, parent.off + begin, window, ops);
    UnderPart(parent, mem, begin, end, Steps(CutOf(window), ops).window);
  }

  method UseAll(parent: SArray, s: SArray, ghost base: nat, ghost window: seq<int>, ops: seq<Op>)
    requires parent.Valid() && s.Valid() && s != parent && s.Contents() == window
    requires s.buf == parent.buf && s.off == base && s.capacity == |window|
    modifies s, s.buf
    ensures parent.Valid() && s.Valid() && s.Contents() == Steps(CutOf(window), ops).elems
    ensures parent.buf[..] == Under(old(parent.buf[..]), base, Steps(CutOf(window), ops).window)
  {
    ghost var mem := parent.buf[..];
    ghost var c := CutOf(window);
    assert window == mem[base..base + |window|] && ops[..0] == [];
    for i := 0 to |ops|
      invariant s.Valid() && parent.Valid() && (s.buf == parent.buf || fresh(s.buf))
      invariant c == Steps(CutOf(window), ops[..i]) && s.Contents() == c.elems
      invariant |c.window| == |window| && parent.buf[..] == Under(mem, base, c.window)
      invariant if c.moved then fresh(s.buf)
                else s.buf == parent.buf && s.off == base && s.capacity == |c.window|
    {
      hide Steps, Step, Under, Written;
      StepsStep(window, ops, i);
      UseOnce(parent, s, base, c, ops[i]);
      WrittenUnder(mem, base, c, ops[i]);
      c := Step(c, ops[i]);
    }
    assert ops[..|ops|] == ops;
  }

  /** A memory whose entries from base on are those of a window. */
  function Under(mem: seq<int>, base: nat, window: seq<int>): (r: seq<int>)
    requires base + |window| <= |mem|
    ensures |r| == |mem|
  {
    mem[..base] + window + mem[base + |window|..]
  }

  /** One operation on a segment, which starts at base. */
  method UseOnce(parent: SArray, s: SArray, ghost base: nat, ghost c: Cut, op: Op)
    requires parent.Valid() && s.Valid() && s != parent && s.Contents() == c.elems
    requires if c.moved then s.buf != parent.buf
             else s.buf == parent.buf && s.off == base && s.capacity == |c.window|
    modifies s, s.buf
    ensures parent.Valid() && s.Valid() && s.Contents() == Step(c, op).elems
    ensures if Step(c, op).moved then fresh(s.buf) || (c.moved && s.buf == old(s.buf))
            else s.buf == parent.buf && s.off == base && s.capacity == |c.window|
    ensures parent.buf[..] ==
      if Step(c, op).moved then old(parent.buf[..])
      else Written(old(parent.buf[..]), base, |c.elems|, Step(c, op).elems)
  {
    hide Apply, Needs, SizeAfter, Written;
    ghost var before := parent.buf[..];
    Perform(s, op);
    if !Step(c, op).moved {
      WrittenIs(before, parent.buf[..], base, |c.elems|, s.Contents());
    }
  }

  lemma WrittenIs(before: seq<int>, after: seq<int>, off: nat, n: nat, elems: seq<int>)
    requires |before| == |after| && off + |elems| <= |after| && after[off..off + |elems|] == elems
    requires forall i :: 0 <= i < |after| && !(off + n <= i < off + |elems|) ==> after[i] == before[i]
    ensures after == Written(before, off, n, elems)
  {
    if n < |elems| {
      assert after[off + n..off + |elems|] == elems[n..];
    }
  }

  lemma UnderPart(parent: SArray, mem: seq<int>, begin: nat, end: nat, window: seq<int>)
    requires parent.Valid() && begin <= end <= parent.size && |mem| == parent.buf.Length
    requires |window| == end - begin && parent.buf[..] == Under(mem, parent.off + begin, window)
    ensures var was := mem[parent.off..parent.off + parent.size];
      parent.Contents() == was[..begin] + window + was[end..]
  {
    parent.IsPart();
  }

  /** What an operation writes into the memory is what Step writes into the window. */
  lemma WrittenUnder(mem: seq<int>, base: nat, c: Cut, op: Op)
    requires base + |c.window| <= |mem|
    requires !Step(c, op).moved ==> |c.elems| <= |c.window| && |Step(c, op).elems| <= |c.window|
    ensures Under(mem, base, Step(c, op).window) ==
      if Step(c, op).moved then Under(mem, base, c.window)
      else Written(Under(mem, base, c.window), base, |c.elems|, Step(c, op).elems)
  {
    hide Apply, Needs;
  }

  // ----- when a parent keeps its elements -----

  /** Size of the segment and whether it has moved: both depend on its width and the operations only. */
  function Extent(width: nat, ops: seq<Op>): (nat, bool)
    decreases |ops|
  {
    if ops == [] then (width, false)
    else
      var (size, moved) := Extent(width, ops[..|ops| - 1]);
      var op := ops[|ops| - 1];
      (SizeAfter(size, op), moved || Needs(size, op) > width)
  }

  /** Operation k grows the segment in place: it had shrunk before, and has not moved yet. */
  predicate GrowsInPlace(width: nat, ops: seq<Op>, k: nat)
    requires k < |ops|
  {
    var (size, moved) := Extent(width, ops[..k]);
    !moved && size < SizeAfter(size, ops[k]) <= width
  }

  lemma {:induction false} StepsExtent(window: seq<int>, ops: seq<Op>)
    ensures var c := Steps(CutOf(window), ops); (|c.elems|, c.moved) == Extent(|window|, ops)
    decreases |ops|
  {
    if ops != [] {
      StepsExtent(window, ops[..|ops| - 1]);
    }
  }

  lemma {:induction false} KeptWithoutGrowth(window: seq<int>, ops: seq<Op>, n: nat)
    requires n <= |ops| && forall k :: 0 <= k < n ==> !GrowsInPlace(|window|, ops, k)
    ensures Steps(CutOf(window), ops[..n]).window == window
    decreases n
  {
    if n > 0 {
      KeptWithoutGrowth(window, ops, n - 1);
      StepsExtent(window, ops[..n - 1]);
      assert ops[..n][..n - 1] == ops[..n - 1];
      assert !GrowsInPlace(|window|, ops, n - 1);
    }
  }

  /** An operation writes the same into two windows whose segments have the same extent. */
  lemma SameWritten(c: Cut, c': Cut, op: Op, j: nat)
    requires |c.window| == |c'.window| && |c.elems| == |c'.elems| && c.moved == c'.moved && j < |c.window|
    requires c.window[j] == c'.window[j] || (!Step(c, op).moved && |c.elems| <= j < SizeAfter(|c.elems|, op))
    ensures Step(c, op).window[j] == Step(c', op).window[j]
  {
    var more, more' := Apply(c.elems, op), Apply(c'.elems, op);
    assert |c.elems| <= j < |more| ==> more[j] == more'[j];
  }

  /** What operation k writes does not depend on what was there, nor does anything later. */
  lemma {:induction false} WrittenRegardless(w: seq<int>, w': seq<int>, ops: seq<Op>, k: nat, n: nat)
    requires |w| == |w'| && k < n <= |ops| && GrowsInPlace(|w|, ops, k)
    ensures var j := Extent(|w|, ops[..k]).0;
      j < |w| && Steps(CutOf(w), ops[..n]).window[j] == Steps(CutOf(w'), ops[..n]).window[j]
    decreases n
  {
    hide Steps, Extent, Apply;
    var c, c' := Steps(CutOf(w), ops[..n - 1]), Steps(CutOf(w'), ops[..n - 1]);
    StepsStep(w, ops, n - 1);
    StepsStep(w', ops, n - 1);
    StepsExtent(w, ops[..n - 1]);
    StepsExtent(w', ops[..n - 1]);
    if k < n - 1 {
      WrittenRegardless(w, w', ops, k, n - 1);
    }
    SameWritten(c, c', ops[n - 1], Extent(|w|, ops[..k]).0);
  }

  lemma StepsStep(w: seq<int>, ops: seq<Op>, n: nat)
    requires n < |ops|
    ensures Steps(CutOf(w), ops[..n + 1]) == Step(Steps(CutOf(w), ops[..n]), ops[n])
  {
    assert ops[..n + 1][..n] == ops[..n];
  }

  ghost predicate Harmless(width: nat, ops: seq<Op>) {
    forall window: seq<int> :: |window| == width ==> Steps(CutOf(window), ops).window == window
  }

  /**
   * Every parent keeps its elements if and only if no operation grows the segment in place,
   * that is, after a shrink and before the first move.
   */
  lemma ParentKeptIff(width: nat, ops: seq<Op>)
    ensures Harmless(width, ops) <==> forall k :: 0 <= k < |ops| ==> !GrowsInPlace(width, ops, k)
  {
    hide Steps, GrowsInPlace;
    assert ops[..|ops|] == ops;
    if k :| 0 <= k < |ops| && GrowsInPlace(width, ops, k) {
      var w, w' := KvData.Repeat(0, width), KvData.Repeat(1, width);
      WrittenRegardless(w, w', ops, k, |ops|);
      assert Steps(CutOf(w), ops).window != w || Steps(CutOf(w'), ops).window != w';
    } else {
      forall window: seq<int> | |window| == width
        ensures Steps(CutOf(window), ops).window == window
      {
        KeptWithoutGrowth(window, ops, |ops|);
      }
    }
  }

  /** The shortest harmful use: shrink, then grow. */
  lemma ShrinkThenGrow()
    ensures Steps(CutOf([7]), [Resize(0, 0), Resize(1, 0)]).window == [0]
  {
    var ops := [Resize(0, 0), Resize(1, 0)];
    assert ops[..1] == [Resize(0, 0)] && ops[..1][..0] == [];
    assert Steps(CutOf([7]), ops[..1]) == Cut([7], false, []);
  }

  // ----- uses that go wrong -----

  /** Appending a segment behind which its own parent has just shrunk: zeros arrive. */
  method AppendTail() returns (a: SArray, inBounds: bool)
    ensures a.Valid() && inBounds && a.Contents() == [1, 2, 0, 0]
  {
    a := new SArray.FromSeq([1, 2, 3, 4]);
    var ok, tail := a.Segment(2, 4);
    assert tail.Contents() == [3, 4];
    a.Resize(2, 0);
    assert a.Contents() == [1, 2];
    ghost var seen := a.Seen(tail);
    assert seen == [0, 0];
    inBounds := a.Append(tail);
  }

  /** The same with CopyFrom: of the two elements copied the first has become zero. */
  method CopyMiddle() returns (a: SArray)
    ensures a.Valid() && a.Contents() == [0, 3]
  {
    a := new SArray.FromSeq([1, 2, 3, 4]);
    var ok, middle := a.Segment(1, 3);
    assert middle.Contents() == [2, 3];
    a.Resize(1, 0);
    assert middle.Contents() == [2, 3];
    ghost var seen := a.SeenAt(middle.buf, middle.off, middle.size);
    assert seen == [0, 3];
    a.CopyFrom(middle);
  }

  /** Appending an array of six elements to itself copies beyond its new memory. */
  method AppendSix() returns (inBounds: bool)
    ensures !inBounds
  {
    var a := new SArray.FromSeq([1, 2, 3, 4, 5, 6]);
    inBounds := a.Append(a);
  }
}
