/**
 The memory loops of the freestanding C library (freestanding/libc_min.cpp). Pointers are addresses in one byte heap.
 */
module Libc {
  import opened Common

  // ----- memcpy, memmove, memcmp

  predicate InHeap(p: nat, n: nat, size: nat) {
    p + n <= size
  }

  /** The destination holds what the source held; every other byte is as it was. */
  predicate Moved(heap: seq<u8>, heap': seq<u8>, d: nat, s: nat, n: nat)
    requires InHeap(d, n, |heap|) && InHeap(s, n, |heap|)
  {
    && |heap'| == |heap|
    && forall k | 0 <= k < |heap| :: heap'[k] == if d <= k < d + n then heap[s + (k - d)] else heap[k]
  }

  /** Correct for every overlap. */
  method Memmove(heap: array<u8>, d: nat, s: nat, n: nat)
    requires InHeap(d, n, heap.Length) && InHeap(s, n, heap.Length)
    modifies heap
    ensures Moved(old(heap[..]), heap[..], d, s, n)
  {
    if d < s {
      MoveForward(heap, d, s, n);
    } else {
      MoveBackward(heap, d, s, n);
    }
  }

  method MoveForward(heap: array<u8>, d: nat, s: nat, n: nat)
    requires InHeap(d, n, heap.Length) && InHeap(s, n, heap.Length) && d < s
    modifies heap
    ensures Moved(old(heap[..]), heap[..], d, s, n)
  {
    var dp, sp, left := d, s, n;
    while left > 0
      invariant dp == d + (n - left) && sp == s + (n - left) && 0 <= left <= n
      invariant forall k | d <= k < dp :: heap[k] == old(heap[s + (k - d)])
      invariant forall k | 0 <= k < heap.Length && !(d <= k < dp) :: heap[k] == old(heap[k])
    {
      left := left - 1;
      heap[dp] := heap[sp];
      dp, sp := dp + 1, sp + 1;
    }
  }

  method MoveBackward(heap: array<u8>, d: nat, s: nat, n: nat)
    requires InHeap(d, n, heap.Length) && InHeap(s, n, heap.Length) && d >= s
    modifies heap
    ensures Moved(old(heap[..]), heap[..], d, s, n)
  {
    var dp, sp, left := d + n, s + n, n;
    while left > 0
      invariant dp == d + left && sp == s + left && 0 <= left <= n
      invariant forall k | dp <= k < d + n :: heap[k] == old(heap[s + (k - d)])
      invariant forall k | 0 <= k < heap.Length && !(dp <= k < d + n) :: heap[k] == old(heap[k])
    {
      left := left - 1;
      dp, sp := dp - 1, sp - 1;
      heap[dp] := heap[sp];
    }
  }

  /** What a forward copy leaves in the heap, on any overlap: where it overtakes its own source, the first `d - s`
      bytes repeat. */
  function Copied(heap: seq<u8>, d: nat, s: nat, n: nat, k: nat): u8
    requires InHeap(d, n, |heap|) && InHeap(s, n, |heap|) && k < |heap|
  {
    if !(d <= k < d + n) then heap[k]
    else if s < d then heap[s + (k - d) % (d - s)]
    else heap[s + (k - d)]
  }

  method Memcpy(heap: array<u8>, d: nat, s: nat, n: nat)
    requires InHeap(d, n, heap.Length) && InHeap(s, n, heap.Length)
    modifies heap
    ensures forall k | 0 <= k < heap.Length :: heap[k] == Copied(old(heap[..]), d, s, n, k)
  {
    var dp, sp, left := d, s, n;
    while left > 0
      invariant dp == d + (n - left) && sp == s + (n - left) && left <= n
      invariant forall k | 0 <= k < heap.Length ::
                  heap[k] == if d <= k < dp then Copied(old(heap[..]), d, s, n, k) else old(heap[k])
    {
      left := left - 1;
      if s < d { Repeats(sp, d, s); }
      heap[dp] := heap[sp];
      dp, sp := dp + 1, sp + 1;
    }
  }

  /** The byte a forward copy reads at `sp`: an original one before `d`, a copied one from `d` on. */
  lemma Repeats(sp: nat, d: nat, s: nat)
    requires s < d && s <= sp
    ensures sp < d ==> (sp - s) % (d - s) == sp - s
    ensures sp >= d ==> (sp - d) % (d - s) == (sp - s) % (d - s)
  {
    var p := d - s;
    if sp >= d {
      ModOnce(sp - d, p);
      assert sp - d + p == sp - s;
    }
  }

  lemma ModOnce(x: nat, p: nat)
    requires p > 0
    ensures (x + p) % p == x % p
  {
    var q, q', r, r' := x / p, (x + p) / p, x % p, (x + p) % p;
    assert x == p * q + r && x + p == p * q' + r';
    assert p * (q + 1) == p * q + p;
    assert p * (q + 2) == p * (q + 1) + p;
    if q' < q + 1 {
      Times(p, q', q);
    } else if q + 1 < q' {
      Times(p, q + 2, q');
    }
  }

  /** `memcpy` may be used where it agrees with `memmove` whatever the bytes are: exactly when the destination does not
      begin inside the source. */
  lemma MemcpyIsMemmoveIff(size: nat, d: nat, s: nat, n: nat)
    requires InHeap(d, n, size) && InHeap(s, n, size)
    ensures (forall heap: seq<u8> | |heap| == size ::
               Moved(heap, seq(size, k requires 0 <= k < size => Copied(heap, d, s, n, k)), d, s, n))
       <==> !(s < d < s + n)
  {
    if s < d < s + n {
      // a heap whose bytes tell the copied from the original
      var heap: seq<u8> := seq(size, k => if k == d then 1 else 0);
      var copied := seq(size, k requires 0 <= k < size => Copied(heap, d, s, n, k));
      var k := d + (d - s);
      assert Copied(heap, d, s, n, k) == heap[s] by { ModOnce(0, d - s); }
      assert copied[k] == 0 && heap[s + (k - d)] == 1;
      assert !Moved(heap, copied, d, s, n);
    } else if s < d {
      forall heap: seq<u8> | |heap| == size
        ensures Moved(heap, seq(size, k requires 0 <= k < size => Copied(heap, d, s, n, k)), d, s, n)
      {
        forall k | d <= k < d + n ensures Copied(heap, d, s, n, k) == heap[s + (k - d)] {
          Repeats(s + (k - d), d, s);
        }
      }
    }
  }

  /** `k` is where `x` and `y` first differ, and `r` by how much. */
  predicate FirstDifference(x: seq<u8>, y: seq<u8>, k: int, r: int) {
    0 <= k < |x| && k < |y| && x[..k] == y[..k] && x[k] != y[k] && r == x[k] as int - y[k] as int
  }

  /** Zero iff the ranges are equal; otherwise the difference of the first bytes that differ. */
  method Memcmp(heap: array<u8>, a: nat, b: nat, n: nat) returns (r: int, ghost at: nat)
    requires InHeap(a, n, heap.Length) && InHeap(b, n, heap.Length)
    ensures r == 0 <==> heap[a..a + n] == heap[b..b + n]
    ensures r != 0 ==> FirstDifference(heap[a..a + n], heap[b..b + n], at, r)
  {
    var pa, pb, left := a, b, n;
    while left > 0
      invariant 0 <= left <= n && pa == a + (n - left) && pb == b + (n - left)
      invariant heap[a..pa] == heap[b..pb]
    {
      if heap[pa] != heap[pb] {
        assert heap[a..a + n][..pa - a] == heap[a..pa] && heap[b..b + n][..pa - a] == heap[b..pb];
        assert heap[a..a + n][pa - a] == heap[pa] && heap[b..b + n][pa - a] == heap[pb];
        r := heap[pa] as int - heap[pb] as int;
        at := pa - a;
        return;
      }
      left := left - 1;
      pa, pb := pa + 1, pb + 1;
    }
    return 0, n;
  }
}
