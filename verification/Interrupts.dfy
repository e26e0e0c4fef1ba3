/**
 IRQ dispatch (src/interrupt/interrupt.cpp): one architectural vector fans out to 68 sources. Sources 0..63 are the
 two banks of the legacy controller, visible to a core only through its GPU bit; sources 64..67 are the core's own
 timer lines. A handler is a token; a null one is None.
 */
module Interrupts {
  import opened Common
  import opened Words

  const LOCAL_BASE: nat := 64
  const MAX_HANDLERS: nat := 72
  const SOURCES: nat := 68
  const GPU: nat := 8

  /** What one core's dispatch looks at. */
  datatype Lines = Lines(source: Word, p1: Word, p2: Word)

  predicate IsPending(l: Lines, s: nat) {
    if s < 32 then l.source[GPU] && l.p1[s]
    else if s < 64 then l.source[GPU] && l.p2[s - 32]
    else s < SOURCES && l.source[s - LOCAL_BASE]
  }

  function Pending(l: Lines): set<nat> {
    set s: nat | 0 <= s < SOURCES && IsPending(l, s)
  }

  /** The order of service: the four timer lines, then the banks, each ascending. */
  function Rank(s: nat): nat {
    if s >= LOCAL_BASE then s - LOCAL_BASE else s + 4
  }

  ghost predicate IsFirst(s: nat, pending: set<nat>) {
    s in pending && forall x | x in pending :: Rank(s) <= Rank(x)
  }

  lemma FirstIs(l: Lines, s: nat)
    requires s < SOURCES && IsPending(l, s)
    requires forall x | 0 <= x < SOURCES && Rank(x) < Rank(s) :: !IsPending(l, x)
    ensures IsFirst(s, Pending(l)) && forall x | IsFirst(x, Pending(l)) :: x == s
  {
    assert s in Pending(l);
    forall x | IsFirst(x, Pending(l)) ensures x == s {
      assert Rank(x) <= Rank(s);
    }
  }

  // ----- The driver

  /** `n` is the lowest bit set in `w`, if one of its first `limit` bits is. */
  predicate Lowest(w: Word, n: nat, limit: nat) {
    n < limit <= 32 && w[n] && forall j | 0 <= j < n :: !w[j]
  }

  /** None of the first `limit` bits is set. */
  predicate NoneSet(w: Word, limit: nat) {
    limit <= 32 && forall j | 0 <= j < limit :: !w[j]
  }

  lemma ZeroHasNone(w: Word)
    requires !NonZero(w)
    ensures NoneSet(w, 32)
  {
    forall j | 0 <= j < 32 ensures !w[j] {
      if w[j] { SetBitIsNonZero(w, j); }
    }
  }

  lemma OddTest(v: Word)
    ensures NonZero(And(v, One())) <==> v[0]
  {
    BitTest(v, 0);
    assert Bit(0) == One();
  }

  lemma SomeBit(w: Word) returns (i: nat)
    requires NonZero(w)
    ensures i < 32 && w[i]
  {
    assert exists j :: 0 <= j < 32 && w[j] != Zero()[j];
    i :| 0 <= i < 32 && w[i] != Zero()[i];
  }

  /** Index of the lowest set bit, or -1. */
  method LowestSetBit(word: Word) returns (n: int)
    ensures n == -1 <==> !NonZero(word)
    ensures n != -1 ==> 0 <= n < 32 && word[n] && forall j | 0 <= j < n :: !word[j]
  {
    if word == Zero() {
      return -1;
    }
    var v := word;
    var k := 0;
    ghost var top := SomeBit(word);
    while !NonZero(And(v, One()))
      invariant 0 <= k <= top
      invariant forall i | 0 <= i < 32 - k :: v[i] == word[i + k]
      invariant forall j | 0 <= j < k :: !word[j]
      decreases 32 - k
    {
      OddTest(v);
      assert !word[k];
      v := Shr(v, 1);
      k := k + 1;
    }
    OddTest(v);
    n := k;
  }

  class Irq {
    const memory: array<Word>                // legacy controller, word-indexed
    const local: array<Word>                 // ARM-local block
    const handlers: array<Option<nat>>

    constructor ()
      ensures Valid() && fresh(memory) && fresh(local) && fresh(handlers)
      ensures forall i | 0 <= i < MAX_HANDLERS :: handlers[i] == None
    {
      memory := new Word[10](_ => Zero());
      local := new Word[32](_ => Zero());
      handlers := new Option<nat>[MAX_HANDLERS](_ => None);
    }

    ghost predicate Valid() {
      memory.Length == 10 && local.Length == 32 && handlers.Length == MAX_HANDLERS && memory != local
    }

    /** The view of one core: its CORE_IRQ_SOURCE and the two pending registers. */
    function View(core: nat): Lines
      requires Valid() && core < 4
      reads memory, local
    {
      Lines(local[24 + core], memory[1], memory[2])
    }

    /** `IVT::handler`: an index out of range has no handler. */
    function Handler(irq: nat): Option<nat>
      requires Valid()
      reads handlers
    {
      if irq < MAX_HANDLERS then handlers[irq] else None
    }

    /** `IVT::set_handler`: an index out of range is ignored, and has no handler. */
    method SetHandler(irq: nat, cb: Option<nat>)
      requires Valid()
      modifies handlers
      ensures forall i: nat | i < 72 :: handlers[i] == if i == irq then cb else old(handlers[i])
      ensures forall i: nat :: Handler(i) == if i < 72 then handlers[i] else None
    {
      if irq < MAX_HANDLERS {
        handlers[irq] := cb;
      }
    }

    /** What `isEnabled` reports for each of the 64 bank sources. */
    function Enabled(n: nat): bool
      requires Valid() && n < 64
      reads memory
    {
      if n < 32 then memory[4][n] else memory[5][n - 32]
    }

    method Enable(n: nat)
      requires Valid() && n < 64
      modifies memory
      ensures forall m: nat | m < 64 :: Enabled(m) == (m == n || old(Enabled(m)))
      ensures forall k, i | 0 <= k < 10 && 0 <= i < 32 ::
                memory[k][i] == (old(memory[k][i]) || (k, i) == if n < 32 then (4, n) else (5, n - 32))
    {
      if n < 32 {
        memory[4] := Or(memory[4], Bit(n));
      } else {
        memory[5] := Or(memory[5], Bit(n - 32));
      }
    }

    method IsEnabled(n: nat) returns (r: bool)
      requires Valid() && n < 64
      ensures r == if n < 32 then memory[4][n] else memory[5][n - 32]
      ensures r == Enabled(n)
    {
      var w := if n < 32 then Shr(memory[4], n) else Shr(memory[5], n - 32);
      OddTest(w);
      r := NonZero(And(w, One()));
    }

    /** What a dispatch makes of the two pending registers of the legacy controller. */
    ghost predicate FromBanks(called: Option<nat>, p1: Word, p2: Word)
      requires Valid()
      reads handlers
    {
      && (forall n: nat | Lowest(p1, n, 32) :: called == handlers[n])
      && (NoneSet(p1, 32) ==> forall n: nat | Lowest(p2, n, 32) :: called == handlers[32 + n])
      && (NoneSet(p1, 32) && NoneSet(p2, 32) ==> called == None)
    }

    /** Dispatch priority: at most one handler is invoked, and it is the one of the first pending source. On the
        registers: the core's own CORE_IRQ_SOURCE, its four timer lines first; then, if its bit 8 is set, the two
        pending registers of the legacy controller. */
    method Dispatch(core: nat) returns (called: Option<nat>)
      requires Valid() && core < 4
      ensures var source := local[24 + core];
              && (forall n: nat | Lowest(source, n, 4) :: called == handlers[64 + n])
              && (NoneSet(source, 4) && source[8] ==> FromBanks(called, memory[1], memory[2]))
              && (NoneSet(source, 4) && !source[8] ==> called == None)
      ensures Pending(View(core)) == {} ==> called == None
      ensures Pending(View(core)) != {} ==> called == Handler(FirstOf(Pending(View(core))))
    {
      ghost var l := View(core);
      var source := local[24 + core];
      for line := 0 to 4
        invariant forall j | 0 <= j < line :: !source[j]
      {
        BitTest(source, line);
        if NonZero(And(source, Bit(line))) {
          FirstIs(l, LOCAL_BASE + line);
          return Handler(LOCAL_BASE + line);
        }
      }
      BitTest(source, GPU);
      if NonZero(And(source, Bit(GPU))) {
        var bit := LowestSetBit(memory[1]);
        if bit >= 0 {
          FirstIs(l, bit);
          return Handler(bit);
        }
        ZeroHasNone(memory[1]);
        bit := LowestSetBit(memory[2]);
        if bit >= 0 {
          FirstIs(l, 32 + bit);
          return Handler(32 + bit);
        }
        ZeroHasNone(memory[2]);
      }
      return None;
    }
  }

  // ----- Repeated dispatch

  /** One core's interrupts with the handler table. */
  datatype System = System(lines: Lines, handlers: seq<Option<nat>>)

  predicate SystemOk(y: System) {
    |y.handlers| == MAX_HANDLERS && Mirrors(y.lines)
  }

  /** The GPU bit says whether any bank bit is pending. */
  predicate Mirrors(l: Lines) {
    l.source[GPU] <==> NonZero(l.p1) || NonZero(l.p2)
  }

  function WithGpu(l: Lines): Lines {
    l.(source := l.source[GPU := NonZero(l.p1) || NonZero(l.p2)])
  }

  /** The source's device is quiet again; the GPU bit follows. */
  function Quieted(l: Lines, s: nat): Lines
    requires s < SOURCES
  {
    if s < 32 then WithGpu(l.(p1 := l.p1[s := false]))
    else if s < 64 then WithGpu(l.(p2 := l.p2[s - 32 := false]))
    else l.(source := l.source[s - LOCAL_BASE := false])
  }

  lemma {:induction false} FirstExists(p: set<nat>)
    requires p != {}
    ensures exists s :: IsFirst(s, p)
    decreases p
  {
    var x :| x in p;
    if p - {x} == {} {
      assert p == {x};
      assert IsFirst(x, p);
    } else {
      FirstExists(p - {x});
      var s :| IsFirst(s, p - {x});
      var t := if Rank(x) < Rank(s) then x else s;
      assert IsFirst(t, p);
    }
  }

  ghost function FirstOf(p: set<nat>): (s: nat)
    requires p != {}
    ensures IsFirst(s, p)
  {
    FirstExists(p);
    var s :| IsFirst(s, p);
    s
  }

  lemma QuietedPending(l: Lines, s: nat)
    requires Mirrors(l) && s in Pending(l)
    ensures Mirrors(Quieted(l, s)) && Pending(Quieted(l, s)) == Pending(l) - {s}
  {
    var l' := Quieted(l, s);
    forall x | 0 <= x < SOURCES ensures IsPending(l', x) <==> IsPending(l, x) && x != s {
      if x < 32 && l'.p1[x] { SetBitIsNonZero(l'.p1, x); }
      if 32 <= x < 64 && l'.p2[x - 32] { SetBitIsNonZero(l'.p2, x - 32); }
    }
  }

  lemma SetBitIsNonZero(w: Word, i: nat)
    requires i < 32 && w[i]
    ensures NonZero(w)
  {
    assert w[i] != Zero()[i];
  }

  /** `n` dispatches in a row: the first pending source's handler, if it has one, quiets it, and so on. With the sources
      whose handlers were invoked, in order. */
  ghost function Run(y: System, n: nat): (r: (System, seq<nat>))
    requires SystemOk(y)
    decreases n
  {
    if n == 0 || Pending(y.lines) == {} || y.handlers[FirstOf(Pending(y.lines))] == None then (y, [])
    else
      var s := FirstOf(Pending(y.lines));
      QuietedPending(y.lines, s);
      var (y', served) := Run(y.(lines := Quieted(y.lines, s)), n - 1);
      (y', [s] + served)
  }

  /** Every pending source has a handler. */
  ghost predicate AllHandled(y: System)
    requires |y.handlers| == MAX_HANDLERS
  {
    forall s | s in Pending(y.lines) :: y.handlers[s] != None
  }

  /** Each source of `p` exactly once, in the order of priority. */
  ghost predicate InOrder(served: seq<nat>, p: set<nat>) {
    && |served| == |p|
    && (forall x :: x in served <==> x in p)
    && (forall i, j | 0 <= i < j < |served| :: Rank(served[i]) < Rank(served[j]))
  }

  lemma FirstThenRest(s: nat, served: seq<nat>, p: set<nat>)
    requires IsFirst(s, p) && InOrder(served, p - {s})
    requires forall x | x in p :: x < SOURCES
    ensures InOrder([s] + served, p)
  {
    var all := [s] + served;
    forall i, j | 0 <= i < j < |all| ensures Rank(all[i]) < Rank(all[j]) {
      if i == 0 { assert served[j - 1] in p - {s}; } else { assert all[i] == served[i - 1] && all[j] == served[j - 1]; }
    }
    forall x ensures x in all <==> x in p {
    }
  }

  /** Drain: if every pending source has a handler that quiets just its own source and nothing new arrives, dispatch
      serves each pending source exactly once, in the order of priority, and empties the set in exactly as many calls
      as there were sources. */
  lemma {:induction false} Drain(y: System)
    requires SystemOk(y) && AllHandled(y)
    ensures var (y', served) := Run(y, |Pending(y.lines)|);
            Pending(y'.lines) == {} && InOrder(served, Pending(y.lines))
    decreases |Pending(y.lines)|
  {
    var p := Pending(y.lines);
    if p != {} {
      var s := FirstOf(p);
      QuietedPending(y.lines, s);
      var y1 := y.(lines := Quieted(y.lines, s));
      assert |Pending(y1.lines)| == |p| - 1;
      Drain(y1);
      FirstThenRest(s, Run(y1, |p| - 1).1, p);
    }
  }

  /** A pending source without a handler stays pending for ever. */
  lemma {:induction false} UnhandledStays(y: System, s: nat, n: nat)
    requires SystemOk(y) && s in Pending(y.lines) && y.handlers[s] == None
    ensures s in Pending(Run(y, n).0.lines)
    decreases n
  {
    if n > 0 && y.handlers[FirstOf(Pending(y.lines))] != None {
      QuietedPending(y.lines, FirstOf(Pending(y.lines)));
      UnhandledStays(y.(lines := Quieted(y.lines, FirstOf(Pending(y.lines)))), s, n - 1);
    }
  }

  /** So repeated dispatch drains the sources iff each pending one has a handler. */
  lemma DrainsIffAllHandled(y: System)
    requires SystemOk(y)
    ensures (exists n :: Pending(Run(y, n).0.lines) == {}) <==> AllHandled(y)
  {
    if AllHandled(y) {
      Drain(y);
    } else {
      var s :| s in Pending(y.lines) && y.handlers[s] == None;
      forall n: nat ensures Pending(Run(y, n).0.lines) != {} {
        UnhandledStays(y, s, n);
      }
    }
  }

  /** An unhandled source blocks every source after it: dispatch never gets past it. */
  lemma {:induction false} UnhandledBlocks(y: System, s: nat, n: nat, x: nat)
    requires SystemOk(y) && s in Pending(y.lines) && y.handlers[s] == None
    requires x in Pending(y.lines) && Rank(s) <= Rank(x)
    ensures x !in Run(y, n).1
    decreases n
  {
    var p := Pending(y.lines);
    if n > 0 && y.handlers[FirstOf(p)] != None {
      var f := FirstOf(p);
      QuietedPending(y.lines, f);
      assert Rank(f) <= Rank(s) && f != s;
      UnhandledBlocks(y.(lines := Quieted(y.lines, f)), s, n - 1, x);
    }
  }
}
