/**
 * The relay's single-producer single-consumer sample queue (`AudioRingBuffer`).
 *
 * The backing array has a power-of-two length; the read and write positions
 * are always reduced into it with the mask `capacity - 1`, and one slot is
 * kept empty so that equal positions mean "empty".  Each call is modelled as
 * one atomic step; samples are an opaque element type `T`.
 */
module RingBuffer {

  function Min(a: nat, b: nat): (m: nat)
    ensures m <= a && m <= b && (m == a || m == b)
  {
    if a <= b then a else b
  }

  // ---------------------------------------------------------------------
  // Powers of two and the bit mask used for wrap-around

  /** `x` is one of 1, 2, 4, 8, ... */
  predicate IsPowerOfTwo(x: nat)
    decreases x
  {
    x == 1 || (x >= 2 && x % 2 == 0 && IsPowerOfTwo(x / 2))
  }

  /**
   * Rust's `usize::next_power_of_two`: the least power of two that is at
   * least `n`; 0 and 1 both give 1.
   */
  function NextPowerOfTwo(n: nat): (p: nat)
    ensures IsPowerOfTwo(p) && n <= p
    ensures p == 1 || p / 2 < n
  {
    NextPowerOfTwoFrom(1, n)
  }

  /** Doubling search from the power of two `p`, which is still below the answer. */
  function NextPowerOfTwoFrom(p: nat, n: nat): (r: nat)
    requires IsPowerOfTwo(p)
    requires p == 1 || p / 2 < n
    ensures IsPowerOfTwo(r) && n <= r
    ensures r == 1 || r / 2 < n
    decreases n - p
  {
    if n <= p then p else NextPowerOfTwoFrom(2 * p, n)
  }

  /** Of two different powers of two, the smaller is at most half the larger. */
  lemma {:induction false} PowerOfTwoGap(a: nat, b: nat)
    requires IsPowerOfTwo(a) && IsPowerOfTwo(b) && a < b
    ensures a <= b / 2
    decreases b
  {
    if a != 1 {
      PowerOfTwoGap(a / 2, b / 2);
    }
  }

  /** `NextPowerOfTwo(n)` is below every other power of two that holds `n`. */
  lemma NextPowerOfTwoIsLeast(n: nat, q: nat)
    requires IsPowerOfTwo(q) && n <= q
    ensures NextPowerOfTwo(n) <= q
  {
    var p := NextPowerOfTwo(n);
    if q < p {
      PowerOfTwoGap(q, p);
    }
  }

  /** Bitwise AND of two non-negative integers, taken bit by bit from the lowest. */
  function BitAnd(a: nat, b: nat): nat
    decreases a
  {
    if a == 0 || b == 0 then 0
    else 2 * BitAnd(a / 2, b / 2) + (if a % 2 == 1 && b % 2 == 1 then 1 else 0)
  }

  /** The remainder is the only one below the divisor. */
  lemma ModUnique(x: nat, d: nat, q: nat, r: nat)
    requires 0 <= r < d && x == d * q + r
    ensures x % d == r && x / d == q
  {
    var q', r' := x / d, x % d;
    assert x == d * q' + r';
    if q' < q {
      MulStep(d, q', q);
    } else if q < q' {
      MulStep(d, q, q');
    }
  }

  lemma MulStep(d: nat, a: nat, b: nat)
    requires a < b
    ensures d * a + d <= d * b
  {
    var k := b - a - 1;
    assert b == a + 1 + k;
    assert d * b == d * a + d + d * k;
  }

  lemma HalveMod(x: nat, h: nat)
    requires h > 0
    ensures x % (2 * h) == 2 * ((x / 2) % h) + x % 2
  {
    var q, r := (x / 2) / h, (x / 2) % h;
    assert x / 2 == h * q + r;
    assert x == (2 * h) * q + (2 * r + x % 2);
    ModUnique(x, 2 * h, q, 2 * r + x % 2);
  }

  /** Masking with `c - 1` is reduction modulo `c`, for a power of two `c`. */
  lemma {:induction false} MaskIsMod(x: nat, c: nat)
    requires IsPowerOfTwo(c)
    ensures BitAnd(x, c - 1) == x % c
    decreases c
  {
    if c != 1 && x != 0 {
      var h := c / 2;
      var m := c - 1;
      assert m / 2 == h - 1 && m % 2 == 1;
      assert BitAnd(x, m) == 2 * BitAnd(x / 2, m / 2) + (if x % 2 == 1 then 1 else 0);
      MaskIsMod(x / 2, h);
      assert BitAnd(x / 2, m / 2) == (x / 2) % h;
      HalveMod(x, h);
    }
  }

  // ---------------------------------------------------------------------
  // Index arithmetic behind the positions

  /** The slot that holds the sample `j` places after position `r`, in `c` slots. */
  function Slot(r: nat, j: nat, c: nat): nat
    requires c > 0
  {
    (r + j) % c
  }

  /** Stepping `k` and then `j` slots is stepping `k + j` slots. */
  lemma SlotShift(r: nat, k: nat, j: nat, c: nat)
    requires c > 0
    ensures Slot(Slot(r, k, c), j, c) == Slot(r, k + j, c)
  {
    var a := r + k;
    var q, m := (a % c + j) / c, (a % c + j) % c;
    assert a == c * (a / c) + a % c;
    assert a + j == c * (a / c + q) + m;
    ModUnique(a + j, c, a / c + q, m);
  }

  /** Logical positions closer together than a full turn land in different slots. */
  lemma SlotsDistinct(r: nat, a: nat, b: nat, c: nat)
    requires a < c && b < c && a != b
    ensures Slot(r, a, c) != Slot(r, b, c)
  {
    if a > b {
      SlotsDistinct(r, b, a, c);
    } else {
      var x := r + a;
      var d := b - a;
      var m := x % c;
      assert x == c * (x / c) + m;
      if m + d < c {
        ModUnique(x + d, c, x / c, m + d);
      } else {
        ModUnique(x + d, c, x / c + 1, m + d - c);
      }
    }
  }

  /** The slot `b` places on is used by none of the `b` places before it. */
  lemma SlotIsFree(r: nat, b: nat, c: nat)
    requires b < c
    ensures forall a :: 0 <= a < b ==> Slot(r, a, c) != Slot(r, b, c)
  {
    forall a | 0 <= a < b
      ensures Slot(r, a, c) != Slot(r, b, c)
    {
      SlotsDistinct(r, a, b, c);
    }
  }

  /**
   * The length formula of `len()`: with the write position `len` slots after
   * the read position, the two-branch difference gives back `len`.
   */
  lemma LengthFromPositions(r: nat, len: nat, c: nat)
    requires r < c && len < c
    ensures var w := Slot(r, len, c);
      (if w >= r then w - r else c - (r - w)) == len
  {
    if r + len < c {
      ModUnique(r + len, c, 0, r + len);
    } else {
      ModUnique(r + len, c, 1, r + len - c);
    }
  }

  /** A full turn comes back to the same slot. */
  lemma SlotWraps(r: nat, j: nat, c: nat)
    requires c > 0
    ensures Slot(r, c + j, c) == Slot(r, j, c)
  {
    var x := r + j;
    assert x == c * (x / c) + x % c;
    ModUnique(x + c, c, x / c + 1, x % c);
  }

  /**
   * After the copy loop of `write`, the old samples followed by the new ones
   * sit in consecutive slots from the read position `r`.
   */
  lemma AppendLayout<T>(before: seq<T>, after: seq<T>, r: nat, w: nat, stored: seq<T>, samples: seq<T>, n: nat)
    requires Layout(before, r, w, stored)
    requires |after| == |before| && n <= |samples| && |stored| + n < |before|
    requires forall i :: 0 <= i < n ==> after[Slot(w, i, |before|)] == samples[i]
    requires forall j :: n <= j < |before| ==> after[Slot(w, j, |before|)] == before[Slot(w, j, |before|)]
    ensures Layout(after, r, Slot(r, |stored| + n, |before|), stored + samples[..n])
  {
    var c, len := |before|, |stored|;
    forall j | 0 <= j < len + n
      ensures (stored + samples[..n])[j] == after[Slot(r, j, c)]
    {
      if j < len {
        SlotShift(r, len, c - len + j, c);
        SlotWraps(r, j, c);
        assert Slot(Slot(r, len, c), c - len + j, c) == Slot(r, j, c);
      } else {
        SlotShift(r, len, j - len, c);
        assert Slot(Slot(r, len, c), j - len, c) == Slot(r, j, c);
      }
    }
  }

  /**
   * How a ring holds `contents`: oldest first from slot `r`, one slot after
   * another modulo the slot count, with `w` the slot after the newest and
   * at least one slot always free.
   */
  ghost predicate Layout<T>(slots: seq<T>, r: nat, w: nat, contents: seq<T>) {
    && r < |slots|
    && w < |slots|
    && |contents| < |slots|
    && w == Slot(r, |contents|, |slots|)
    && forall j :: 0 <= j < |contents| ==> contents[j] == slots[Slot(r, j, |slots|)]
  }

  /** After `read` takes `n` samples, the rest start `n` slots further on. */
  lemma DropLayout<T>(slots: seq<T>, r: nat, w: nat, stored: seq<T>, n: nat)
    requires Layout(slots, r, w, stored) && n <= |stored|
    ensures Layout(slots, Slot(r, n, |slots|), w, stored[n..])
  {
    var c := |slots|;
    SlotShift(r, n, |stored| - n, c);
    forall j | 0 <= j < |stored| - n
      ensures stored[n..][j] == slots[Slot(Slot(r, n, c), j, c)]
    {
      SlotShift(r, n, j, c);
    }
  }

  /**
   * The copy loop of `write`: sample `i` goes to slot `(w + i) & (c - 1)`,
   * and the slots after the last one written keep their samples, so the ring
   * holds the stored samples followed by the first `count` new ones.
   */
  method CopyIntoSlots<T>(buf: array<T>, w: nat, samples: seq<T>, count: nat, ghost r: nat, ghost stored: seq<T>)
    requires IsPowerOfTwo(buf.Length) && count <= |samples|
    requires Layout(buf[..], r, w, stored) && |stored| + count < buf.Length
    modifies buf
    ensures Layout(buf[..], r, Slot(r, |stored| + count, buf.Length), stored + samples[..count])
  {
    var c := buf.Length;
    ghost var before := buf[..];
    for i := 0 to count
      invariant forall k :: 0 <= k < i ==> buf[Slot(w, k, c)] == samples[k]
      invariant forall j :: i <= j < c ==> buf[Slot(w, j, c)] == old(buf[Slot(w, j, c)])
    {
      var idx := BitAnd(w + i, c - 1);
      MaskIsMod(w + i, c);
      assert idx == Slot(w, i, c);
      forall j | 0 <= j < c && j != i
        ensures Slot(w, j, c) != idx
      {
        SlotsDistinct(w, j, i, c);
      }
      buf[idx] := samples[i];
    }
    AppendLayout(before, buf[..], r, w, stored, samples, count);
  }

  /**
   * The copy loop of `read`: slot `(r + i) & (c - 1)` goes to `out[i]`, for
   * `i < count`, so `out` starts with the `count` oldest stored samples.
   */
  method CopyOutOfSlots<T>(buf: array<T>, r: nat, out: array<T>, count: nat, ghost w: nat, ghost stored: seq<T>)
    requires IsPowerOfTwo(buf.Length) && count <= out.Length && buf != out
    requires Layout(buf[..], r, w, stored) && count <= |stored|
    modifies out
    ensures out[..count] == stored[..count]
    ensures out[count..] == old(out[count..])
  {
    var c := buf.Length;
    for i := 0 to count
      invariant forall k :: 0 <= k < i ==> out[k] == stored[k]
      invariant forall k :: i <= k < out.Length ==> out[k] == old(out[k])
    {
      var idx := BitAnd(r + i, c - 1);
      MaskIsMod(r + i, c);
      assert buf[idx] == buf[..][Slot(r, i, c)];
      out[i] := buf[idx];
    }
  }

  // ---------------------------------------------------------------------
  // The buffer

  class AudioRingBuffer<T(0)> {
    /** Backing storage; its length is the rounded-up capacity. */
    var buffer: array<T>
    /** The power-of-two slot count (the Rust field `capacity`). */
    var capacity: nat
    var writePos: nat
    var readPos: nat
    /** The stored samples, oldest first. */
    ghost var Contents: seq<T>

    ghost predicate Valid()
      reads this, buffer
    {
      && IsPowerOfTwo(capacity)
      && buffer.Length == capacity
      && Layout(buffer[..], readPos, writePos, Contents)
    }

    /** `AudioRingBuffer::new`: an empty buffer of `requested.next_power_of_two()` slots. */
    constructor (requested: nat)
      ensures Valid() && fresh(buffer)
      ensures capacity == NextPowerOfTwo(requested)
      ensures Contents == []
    {
      var c := NextPowerOfTwo(requested);
      buffer := new T[c];
      capacity := c;
      writePos := 0;
      readPos := 0;
      Contents := [];
    }

    /** `capacity()`: the usable capacity, one less than the slot count. */
    function Capacity(): (c: nat)
      reads this, buffer
      requires Valid()
      ensures c + 1 == buffer.Length
      ensures |Contents| <= c
    {
      capacity - 1
    }

    /** `len()`: the number of stored samples, computed from the two positions. */
    function Len(): (n: nat)
      reads this, buffer
      requires Valid()
      ensures n == |Contents|
      ensures n <= Capacity()
    {
      LengthFromPositions(readPos, |Contents|, capacity);
      if writePos >= readPos then writePos - readPos else capacity - (readPos - writePos)
    }

    /** `is_empty()`. */
    function IsEmpty(): (e: bool)
      reads this, buffer
      requires Valid()
      ensures e <==> Contents == []
    {
      Len() == 0
    }

    /**
     * `write`: appends as many of `samples` as fit, in order, and returns how
     * many that was; a full buffer takes none and is left as it was.
     */
    method Write(samples: seq<T>) returns (n: nat)
      requires Valid()
      modifies this, buffer
      ensures Valid() && buffer == old(buffer) && capacity == old(capacity)
      ensures n == Min(|samples|, old(Capacity() - |Contents|))
      ensures Contents == old(Contents) + samples[..n]
      ensures readPos == old(readPos)
      ensures n == 0 ==> writePos == old(writePos)
    {
      var w, r, c := writePos, readPos, capacity;
      ghost var len, stored := |Contents|, Contents;
      LengthFromPositions(r, len, c);
      var available := if w >= r then c - (w - r) - 1 else r - w - 1;
      assert available == c - 1 - len;
      var toWrite := Min(|samples|, available);
      if toWrite == 0 {
        return 0;
      }
      var newW := BitAnd(w + toWrite, c - 1);
      MaskIsMod(w + toWrite, c);
      SlotShift(r, len, toWrite, c);
      assert newW == Slot(r, len + toWrite, c);
      CopyIntoSlots(buffer, w, samples, toWrite, r, stored);
      writePos := newW;
      Contents := stored + samples[..toWrite];
      n := toWrite;
    }

    /**
     * `read`: moves the oldest `n` stored samples into `samples[..n]`, where
     * `n` is as many as both hold; the rest of `samples` is left alone.
     */
    method Read(samples: array<T>) returns (n: nat)
      requires Valid()
      requires samples != buffer
      modifies this, samples
      ensures Valid() && buffer == old(buffer) && capacity == old(capacity)
      ensures n == Min(samples.Length, |old(Contents)|)
      ensures samples[..n] == old(Contents)[..n]
      ensures samples[n..] == old(samples[n..])
      ensures Contents == old(Contents)[n..]
      ensures writePos == old(writePos)
      ensures n == 0 ==> readPos == old(readPos) && writePos == old(writePos)
    {
      var w, r := writePos, readPos;
      ghost var len, stored := |Contents|, Contents;
      LengthFromPositions(r, len, capacity);
      var available := if w >= r then w - r else capacity - (r - w);
      var toRead := Min(samples.Length, available);
      if toRead == 0 {
        return 0;
      }
      ghost var slots := buffer[..];
      CopyOutOfSlots(buffer, r, samples, toRead, w, stored);
      assert buffer[..] == slots;
      DropLayout(slots, r, w, stored, toRead);
      MaskIsMod(r + toRead, capacity);
      readPos := BitAnd(r + toRead, capacity - 1);
      Contents := stored[toRead..];
      n := toRead;
    }

    /** `clear`: both positions back to slot 0, so the buffer is empty. */
    method Clear()
      requires Valid()
      modifies this
      ensures Valid() && buffer == old(buffer) && capacity == old(capacity)
      ensures Contents == [] && readPos == 0 && writePos == 0
    {
      readPos := 0;
      writePos := 0;
      Contents := [];
    }
  }

  // ---------------------------------------------------------------------
  // The unit tests of ring_buffer.rs, as client code of the contracts above

  /** `test_write_read`: four samples in, the same four out, buffer empty again. */
  method WriteThenReadBack() returns (written: nat, lenAfterWrite: nat, read: nat, output: seq<int>, empty: bool)
    ensures written == 4 && lenAfterWrite == 4 && read == 4
    ensures output == [1, 2, 3, 4] && empty
  {
    var rb := new AudioRingBuffer<int>(16);
    assert NextPowerOfTwoFrom(16, 16) == 16;
    written := rb.Write([1, 2, 3, 4]);
    lenAfterWrite := rb.Len();
    assert rb.Contents == [1, 2, 3, 4];
    var out := new int[4];
    read := rb.Read(out);
    assert out[..] == out[..read];
    output := out[..];
    empty := rb.IsEmpty();
  }

  /** `test_overflow`: a buffer made for 4 holds 3, so writing 5 writes 3. */
  method OverflowWritesThree() returns (written: nat)
    ensures written == 3
  {
    var rb := new AudioRingBuffer<int>(4);
    assert NextPowerOfTwoFrom(4, 4) == 4;
    written := rb.Write([1, 2, 3, 4, 5]);
  }

  /** `test_underflow`: two stored samples fill only two of four output slots. */
  method UnderflowReadsTwo() returns (read: nat)
    ensures read == 2
  {
    var rb := new AudioRingBuffer<int>(16);
    assert NextPowerOfTwoFrom(16, 16) == 16;
    var written := rb.Write([1, 2]);
    var out := new int[4];
    read := rb.Read(out);
  }
}
