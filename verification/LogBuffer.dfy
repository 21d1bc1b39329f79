/** http/logs/buffer.hpp: the growable byte array behind the asynchronous logger. */
module LogBuffer {

  const MIB: nat := 1024 * 1024
  const DEFAULT_BUFFER_SIZE: nat := 1 * MIB
  const THRESHOLD_BUFFER_SIZE: nat := 5 * MIB
  const INCREMENT_BUFFER_SIZE: nat := 1 * MIB

  /** What a buffer is worth to its users: the size of its backing array, how
      many bytes at its front were already read, and the bytes not yet read. */
  datatype BufferView = BufferView(capacity: nat, consumed: nat, unread: string) {
    function Writer(): nat { consumed + |unread| }

    predicate Valid() { Writer() <= capacity }

    function Free(): nat
      requires Valid()
    {
      capacity - Writer()
    }

    /** The array size `ensureEnoughSize` leaves behind. */
    function Grown(len: nat): nat
      requires Valid()
    {
      if len <= Free() then capacity
      else if capacity < THRESHOLD_BUFFER_SIZE then capacity * 2 + len
      else capacity + INCREMENT_BUFFER_SIZE + len
    }

    function Push(data: string): (r: BufferView)
      requires Valid()
      ensures r.Valid()
    {
      BufferView(Grown(|data|), consumed, unread + data)
    }

    function MoveReader(len: nat): (r: BufferView)
      requires Valid() && len <= |unread|
      ensures r.Valid() && r.Writer() == Writer()
    {
      BufferView(capacity, consumed + len, unread[len..])
    }

    function Reset(): (r: BufferView)
      ensures r.Valid()
    {
      BufferView(capacity, 0, "")
    }
  }

  const EMPTY: BufferView := BufferView(DEFAULT_BUFFER_SIZE, 0, "")

  /** std::copy into the array. */
  method CopyTo(a: array<char>, at: nat, data: string)
    requires at + |data| <= a.Length
    modifies a
    ensures a[..at] == old(a[..at]) && a[at..at + |data|] == data
  {
    forall i | 0 <= i < |data| {
      a[at + i] := data[i];
    }
  }

  class Buffer {
    var store: array<char>
    var readerIdx: nat
    var writerIdx: nat

    ghost predicate Valid()
      reads this
    {
      readerIdx <= writerIdx <= store.Length
    }

    ghost function View(): (v: BufferView)
      reads this, store
      requires Valid()
      ensures v.Valid()
    {
      BufferView(store.Length, readerIdx, store[readerIdx..writerIdx])
    }

    constructor ()
      ensures Valid() && fresh(store) && View() == EMPTY
      ensures store.Length == 1048576 && readerIdx == 0 && writerIdx == 0
    {
      store := new char[DEFAULT_BUFFER_SIZE];
      readerIdx, writerIdx := 0, 0;
    }

    method Push(data: string)
      requires Valid()
      modifies this, store
      ensures Valid() && (store == old(store) || fresh(store))
      ensures View() == old(View()).Push(data)
      ensures readerIdx == old(readerIdx) && writerIdx == old(writerIdx) + |data|
    {
      EnsureEnoughSize(|data|);
      var w := writerIdx;
      ghost var front := store[..w];
      assert front[readerIdx..] == old(View()).unread;
      CopyTo(store, w, data);
      MoveWriter(|data|);
      assert store[readerIdx..writerIdx] == store[..w][readerIdx..] + store[w..writerIdx];
    }

    method ReadAbleSize() returns (n: nat)
      requires Valid()
      ensures n == |View().unread|
    {
      n := writerIdx - readerIdx;
    }

    method WriteAbleSize() returns (n: nat)
      requires Valid()
      ensures n == View().Free()
    {
      n := store.Length - writerIdx;
    }

    method MoveReader(len: nat)
      requires Valid() && len <= |View().unread|
      modifies this
      ensures Valid() && store == old(store) && View() == old(View()).MoveReader(len)
      ensures readerIdx == old(readerIdx) + len && writerIdx == old(writerIdx)
    {
      readerIdx := readerIdx + len;
      assert store[readerIdx..writerIdx] == old(store[readerIdx..writerIdx])[len..];
    }

    method Reset()
      requires Valid()
      modifies this
      ensures Valid() && store == old(store) && View() == old(View()).Reset()
      ensures readerIdx == 0 && writerIdx == 0
    {
      readerIdx := 0;
      writerIdx := 0;
    }

    /** The two buffers trade arrays and indices; no byte is copied. */
    method Swap(other: Buffer)
      requires Valid() && other.Valid()
      modifies this, other
      ensures Valid() && other.Valid()
      ensures store == old(other.store) && other.store == old(store)
      ensures View() == old(other.View()) && other.View() == old(View())
    {
      store, other.store := other.store, store;
      readerIdx, other.readerIdx := other.readerIdx, readerIdx;
      writerIdx, other.writerIdx := other.writerIdx, writerIdx;
    }

    method Empty() returns (b: bool)
      requires Valid()
      ensures b == (View().unread == "")
    {
      b := readerIdx == writerIdx;
    }

    method EnsureEnoughSize(len: nat)
      requires Valid()
      modifies this
      ensures Valid() && (store == old(store) || fresh(store))
      ensures writerIdx + len <= store.Length
      ensures readerIdx == old(readerIdx) && writerIdx == old(writerIdx)
      ensures View() == old(View()).(capacity := old(View()).Grown(len))
      ensures store.Length
              == if old(writerIdx) + len <= old(store.Length) then old(store.Length)
                 else if old(store.Length) < 5242880 then 2 * old(store.Length) + len
                 else old(store.Length) + 1048576 + len
    {
      var free := WriteAbleSize();
      if len <= free {
        return;
      }
      var newSize: nat;
      if store.Length < THRESHOLD_BUFFER_SIZE {
        newSize := store.Length * 2 + len;
      } else {
        newSize := store.Length + INCREMENT_BUFFER_SIZE + len;
      }
      Resize(newSize);
    }

    /** std::vector::resize to a larger size: the old bytes stay in front. */
    method Resize(newSize: nat)
      requires Valid() && store.Length <= newSize
      modifies this
      ensures Valid() && fresh(store)
      ensures readerIdx == old(readerIdx) && writerIdx == old(writerIdx)
      ensures View() == old(View()).(capacity := newSize)
    {
      var bigger := new char[newSize](_ => 0 as char);
      forall i | 0 <= i < store.Length {
        bigger[i] := store[i];
      }
      store := bigger;
      assert store[readerIdx..writerIdx] == old(store[readerIdx..writerIdx]);
    }

    /** The precondition is the source's assertion; `Push` always meets it. */
    method MoveWriter(len: nat)
      requires Valid() && writerIdx + len <= store.Length
      modifies this`writerIdx
      ensures Valid() && writerIdx == old(writerIdx) + len
    {
      writerIdx := writerIdx + len;
    }
  }

  // ------------------------------------------------------------ memory growth

  /** One backing array with its history: the highest write index it ever had
      and how often it doubled. Swapping buffers moves the history along. */
  datatype Tracked = Tracked(view: BufferView, peak: nat, doublings: nat) {
    predicate Valid() { view.Valid() && view.Writer() <= peak }

    function Push(data: string): (r: Tracked)
      requires Valid()
      ensures r.Valid()
    {
      var v := view.Push(data);
      var doubled := |data| > view.Free() && view.capacity < THRESHOLD_BUFFER_SIZE;
      Tracked(v, if v.Writer() > peak then v.Writer() else peak,
              if doubled then doublings + 1 else doublings)
    }
  }

  /** The calls the owner of two buffers can make. */
  datatype Op = Push(first: bool, data: string) | MoveReader(first: bool, len: nat) | Reset(first: bool) | Swap

  predicate Allowed(a: Tracked, b: Tracked, op: Op) {
    op.MoveReader? ==> op.len <= |(if op.first then a else b).view.unread|
  }

  function Apply(t: Tracked, op: Op): (r: Tracked)
    requires t.Valid() && !op.Swap?
    requires op.MoveReader? ==> op.len <= |t.view.unread|
    ensures r.Valid()
  {
    match op
    case Push(_, data) => t.Push(data)
    case MoveReader(_, len) => t.(view := t.view.MoveReader(len))
    case Reset(_) => t.(view := t.view.Reset())
  }

  function ApplyPair(a: Tracked, b: Tracked, op: Op): (r: (Tracked, Tracked))
    requires a.Valid() && b.Valid() && Allowed(a, b, op)
    ensures r.0.Valid() && r.1.Valid()
  {
    if op.Swap? then (b, a)
    else if op.first then (Apply(a, op), b)
    else (a, Apply(b, op))
  }

  /** The two buffers after a list of calls; calls that are not allowed are skipped. */
  function RunOps(a: Tracked, b: Tracked, ops: seq<Op>): (r: (Tracked, Tracked))
    requires a.Valid() && b.Valid()
    ensures r.0.Valid() && r.1.Valid()
    decreases ops
  {
    if ops == [] then (a, b)
    else if Allowed(a, b, ops[0]) then
      var p := ApplyPair(a, b, ops[0]);
      RunOps(p.0, p.1, ops[1..])
    else RunOps(a, b, ops[1..])
  }

  predicate GrowthInvariant(t: Tracked) {
    && t.Valid()
    && DEFAULT_BUFFER_SIZE <= t.view.capacity
    && (t.view.capacity == DEFAULT_BUFFER_SIZE || t.view.capacity < 3 * t.peak)
    && (t.doublings >= 1 ==> 2 * MIB < t.view.capacity)
    && (t.doublings >= 2 ==> 4 * MIB < t.view.capacity)
    && (t.doublings >= 3 ==> 8 * MIB < t.view.capacity)
    && t.doublings <= 3
  }

  lemma GrowthStep(t: Tracked, op: Op)
    requires GrowthInvariant(t) && !op.Swap?
    requires op.MoveReader? ==> op.len <= |t.view.unread|
    ensures GrowthInvariant(Apply(t, op))
  {
  }

  lemma {:induction false} GrowthKept(a: Tracked, b: Tracked, ops: seq<Op>)
    requires GrowthInvariant(a) && GrowthInvariant(b)
    ensures GrowthInvariant(RunOps(a, b, ops).0) && GrowthInvariant(RunOps(a, b, ops).1)
    decreases ops
  {
    if ops != [] {
      if Allowed(a, b, ops[0]) {
        if !ops[0].Swap? {
          GrowthStep(if ops[0].first then a else b, ops[0]);
        }
        var p := ApplyPair(a, b, ops[0]);
        GrowthKept(p.0, p.1, ops[1..]);
      } else {
        GrowthKept(a, b, ops[1..]);
      }
    }
  }

  /** After any calls on two fresh buffers each array still has its first size
      or is smaller than three times the most it ever held, and it doubled at
      most three times. */
  lemma GrowthBound(ops: seq<Op>, first: bool)
    ensures var r := RunOps(Tracked(EMPTY, 0, 0), Tracked(EMPTY, 0, 0), ops);
            var t := if first then r.0 else r.1;
            && (t.view.capacity == DEFAULT_BUFFER_SIZE || t.view.capacity < 3 * t.peak)
            && t.doublings <= 3
  {
    GrowthKept(Tracked(EMPTY, 0, 0), Tracked(EMPTY, 0, 0), ops);
  }
}
