/**
 Progress on the shared console: once the lock is free, a context that is waiting for it and is left to run prints its
 whole message, and a timer interrupt prints its core's next tick line and counts it.
 */
module ConsoleProgress {
  import opened Console
  import opened ConsoleRuns

  /** `n` steps of one core. */
  function Steps(c: nat, n: nat): seq<Act> {
    seq(n, _ => Go(c))
  }

  /** The first step, then the others. */
  lemma {:induction false} FirstStep(scripts: Scripts, s: System, a: Act, acts: seq<Act>)
    requires Shape(s, |scripts|)
    ensures Run(scripts, s, [a] + acts) == Run(scripts, Step(scripts, s, a), acts)
    decreases |acts|
  {
    if acts == [] {
      assert [a] + acts == [a];
      assert [a][..0] == [];
    } else {
      var before := acts[..|acts| - 1];
      FirstStep(scripts, s, a, before);
      assert ([a] + acts)[..|acts|] == [a] + before;
    }
  }

  lemma OneMoreStep(scripts: Scripts, s: System, c: nat, n: nat)
    requires Shape(s, |scripts|)
    ensures Run(scripts, s, Steps(c, n + 1)) == Run(scripts, Step(scripts, s, Go(c)), Steps(c, n))
  {
    assert Steps(c, n + 1) == [Go(c)] + Steps(c, n);
    FirstStep(scripts, s, Go(c), Steps(c, n));
  }

  /** The counter once `left` has been said. */
  function Later(left: seq<Piece>, ticks: nat): nat {
    if left == [] then ticks else Later(left[1..], if left[0].NextTick? then Bump(ticks) else ticks)
  }

  lemma {:induction false} CharsCountNothing(t: string, rest: seq<Piece>, ticks: nat)
    ensures Later(AsPieces(t) + rest, ticks) == Later(rest, ticks)
    decreases |t|
  {
    if t == "" {
      assert AsPieces(t) + rest == rest;
    } else {
      CharsCountNothing(t[1..], rest, ticks);
      assert (AsPieces(t) + rest)[1..] == AsPieces(t[1..]) + rest;
    }
  }

  /** A context that has said everything it had left to say inside the lock. */
  function Finished(s: System, w: Who, left: seq<Piece>): (r: System)
    requires Shape(s, |s.ticks|) && w.core < |s.ticks|
    ensures Shape(r, |s.ticks|)
  {
    With(s, w, Inside([])).(out := s.out + Coming(left, s.ticks[w.core]),
    ticks := s.ticks[w.core := Later(left, s.ticks[w.core])])
  }

  /** One step inside the lock says the first piece. */
  lemma SaysOne(scripts: Scripts, s: System, w: Who, left: seq<Piece>) returns (left': seq<Piece>)
    requires Shape(s, |scripts|) && w.core < |scripts| && w == Runs(s, w.core)
    requires ContextOf(s, w) == Inside(left) && left != []
    ensures var s' := Step(scripts, s, Go(w.core));
            && Shape(s', |scripts|) && w == Runs(s', w.core) && ContextOf(s', w) == Inside(left')
            && Finished(s', w, left') == Finished(s, w, left)
    ensures Uncounted(left') <= Uncounted(left)
    ensures Uncounted(left') == Uncounted(left) ==> |left'| < |left|
  {
    var n := Bump(s.ticks[w.core]);
    if left[0].Char? {
      left' := left[1..];
      Joined(s.out, [left[0].c], Coming(left', s.ticks[w.core]), Coming(left', s.ticks[w.core]));
    } else {
      left' := AsPieces(Dec(n)) + left[1..];
      CharsCome(Dec(n), left[1..], n);
      CharsCountNothing(Dec(n), left[1..], n);
    }
  }

  /** And so on, to the last. */
  lemma {:induction false} SaysAll(scripts: Scripts, s: System, w: Who, left: seq<Piece>) returns (n: nat)
    requires Shape(s, |scripts|) && w.core < |scripts| && w == Runs(s, w.core) && ContextOf(s, w) == Inside(left)
    ensures Run(scripts, s, Steps(w.core, n)) == Finished(s, w, left)
    decreases Uncounted(left), |left|
  {
    if left == [] {
      n := 0;
      assert Steps(w.core, 0) == [];
    } else {
      var left' := SaysOne(scripts, s, w, left);
      var m := SaysAll(scripts, Step(scripts, s, Go(w.core)), w, left');
      n := m + 1;
      OneMoreStep(scripts, s, w.core, m);
    }
  }

  lemma LastStep(scripts: Scripts, s: System, c: nat, n: nat)
    requires Shape(s, |scripts|)
    ensures Run(scripts, s, Steps(c, n + 1)) == Step(scripts, Run(scripts, s, Steps(c, n)), Go(c))
  {
    assert Steps(c, n + 1)[..n] == Steps(c, n);
  }

  /** From the free lock: in, everything said, and out again. */
  function Served(s: System, w: Who, body: seq<Piece>): System
    requires Shape(s, |s.ticks|) && w.core < |s.ticks|
  {
    Unlock(Finished(s, w, body), w)
  }

  lemma GetsServed(scripts: Scripts, s: System, w: Who) returns (n: nat)
    requires Shape(s, |scripts|) && w.core < |scripts| && w == Runs(s, w.core)
    requires ContextOf(s, w).Spinning? && s.lock == 0
    ensures Run(scripts, s, Steps(w.core, n)) == Served(s, w, Body(scripts, s, w))
  {
    var body := Body(scripts, s, w);
    var inside := Step(scripts, s, Go(w.core));
    var m := SaysAll(scripts, inside, w, body);
    OneMoreStep(scripts, s, w.core, m);
    LastStep(scripts, s, w.core, m + 1);
    n := m + 2;
    Leaves(scripts, s, inside, w, body);
  }

  lemma Leaves(scripts: Scripts, s: System, inside: System, w: Who, body: seq<Piece>)
    requires Shape(s, |scripts|) && w.core < |scripts| && w == Runs(s, w.core)
    requires inside == With(s, w, Inside(body)).(lock := 1)
    ensures Shape(inside, |scripts|)
    ensures Step(scripts, Finished(inside, w, body), Go(w.core)) == Served(s, w, body)
  {
  }

  lemma TickLater(c: nat, ticks: nat)
    ensures Later(TickPieces(c), ticks) == Bump(ticks)
    ensures Coming(TickPieces(c), ticks) == TickHead(c) + (Dec(Bump(ticks)) + NEWLINE)
  {
    LineComes(TickHead(c), NEWLINE, ticks, Bump(ticks));
    CharsCountNothing(TickHead(c), [NextTick] + AsPieces(NEWLINE), ticks);
    CharsCountNothing(NEWLINE, [], Bump(ticks));
    assert AsPieces(NEWLINE) + [] == AsPieces(NEWLINE);
    assert ([NextTick] + AsPieces(NEWLINE))[1..] == AsPieces(NEWLINE);
  }

  /** A timer interrupt, when the lock is free: enough steps of that core print the line for its next tick and count it,
      and leave everything else as it was, the lock free. */
  lemma TickIsServed(scripts: Scripts, s: System, c: nat) returns (n: nat)
    requires Shape(s, |scripts|) && c < |scripts| && s.lock == 0 && s.isrs[c].Off?
    ensures var next := Bump(s.ticks[c]);
            Run(scripts, s, [Interrupt(c)] + Steps(c, n)) ==
            s.(out := s.out + (TickHead(c) + (Dec(next) + NEWLINE)), ticks := s.ticks[c := next])
  {
    var s1 := With(s, Isr(c), Spinning);
    n := GetsServed(scripts, s1, Isr(c));
    FirstStep(scripts, s, Interrupt(c), Steps(c, n));
    ServedTick(s, s1, c, Bump(s.ticks[c]), TickPieces(c));
  }

  lemma ServedTick(s: System, s1: System, c: nat, next: nat, body: seq<Piece>)
    requires Shape(s, |s.ticks|) && c < |s.ticks| && s.lock == 0 && s.isrs[c].Off?
    requires s1 == With(s, Isr(c), Spinning) && next == Bump(s.ticks[c]) && body == TickPieces(c)
    ensures Served(s1, Isr(c), body) ==
            s.(out := s.out + (TickHead(c) + (Dec(next) + NEWLINE)), ticks := s.ticks[c := next])
  {
    TickLater(c, s.ticks[c]);
    ServedIsr(s, s1, c, body, TickHead(c) + (Dec(next) + NEWLINE), next);
  }

  lemma ServedIsr(s: System, s1: System, c: nat, body: seq<Piece>, text: string, next: nat)
    requires Shape(s, |s.ticks|) && c < |s.ticks| && s.lock == 0 && s.isrs[c].Off?
    requires s1 == With(s, Isr(c), Spinning)
    requires text == Coming(body, s.ticks[c]) && next == Later(body, s.ticks[c])
    ensures Served(s1, Isr(c), body) == s.(out := s.out + text, ticks := s.ticks[c := next])
  {
    assert s1.isrs[c := Inside([])][c := Off] == s.isrs;
  }

  /** A thread that waits for the free lock, uninterrupted, prints its next message. */
  lemma ThreadIsServed(scripts: Scripts, s: System, c: nat) returns (n: nat)
    requires Shape(s, |scripts|) && c < |scripts| && s.lock == 0 && s.isrs[c].Off? && s.threads[c].Spinning?
    requires s.said[c] < |scripts[c]|
    ensures Run(scripts, s, Steps(c, n)) ==
            s.(out := s.out + scripts[c][s.said[c]], threads := s.threads[c := Off],
            said := s.said[c := s.said[c] + 1])
  {
    var m := scripts[c][s.said[c]];
    n := GetsServed(scripts, s, Thread(c));
    AllCome(m, s.ticks[c]);
    CharsCountNothing(m, [], s.ticks[c]);
    assert AsPieces(m) + [] == AsPieces(m);
    ServedThread(s, c, AsPieces(m), m);
  }

  lemma ServedThread(s: System, c: nat, body: seq<Piece>, text: string)
    requires Shape(s, |s.ticks|) && c < |s.ticks| && s.lock == 0 && s.threads[c].Spinning?
    requires text == Coming(body, s.ticks[c]) && Later(body, s.ticks[c]) == s.ticks[c]
    ensures Served(s, Thread(c), body) ==
            s.(out := s.out + text, threads := s.threads[c := Off], said := s.said[c := s.said[c] + 1])
  {
    assert s.threads[c := Inside([])][c := Off] == s.threads[c := Off];
    assert s.ticks[c := s.ticks[c]] == s.ticks;
  }

  /** In every run: whenever the lock is free, an interrupt of core `c` leads to its next tick line in the order of its
      ticks, `lines` being the whole lines so far. */
  lemma NextTickComes(scripts: Scripts, boot: string, acts: seq<Act>, s: System, c: nat)
    returns (lines: seq<Who>, k: nat, n: nat)
    requires s == Run(scripts, Start(scripts, boot), acts) && c < |scripts| && s.lock == 0 && s.isrs[c].Off?
    ensures s.out == boot + Text(scripts, lines) && k == Count(lines, Isr(c))
    ensures Run(scripts, s, [Interrupt(c)] + Steps(c, n)).out == s.out + TickLine(c, k + 1)
  {
    lines, k := FreeLines(scripts, boot, acts, s, c);
    n := TickLineIsServed(scripts, s, c, k);
  }

  /** What is on the console while the lock is free. */
  lemma FreeLines(scripts: Scripts, boot: string, acts: seq<Act>, s: System, c: nat)
    returns (lines: seq<Who>, k: nat)
    requires s == Run(scripts, Start(scripts, boot), acts) && c < |scripts| && s.lock == 0 && s.isrs[c].Off?
    ensures s.out == boot + Text(scripts, lines) && k == Count(lines, Isr(c)) && s.ticks[c] == Counted(k)
  {
    var h := Recorded(scripts, Start(scripts, boot), acts);
    RunKeepsInv(scripts, boot, acts);
    CoreShows(scripts, boot, s, h, c);
    lines, k := h.lines, Count(h.lines, Isr(c));
    assert s.out == boot + Text(scripts, lines) + "";
  }

  lemma TickLineIsServed(scripts: Scripts, s: System, c: nat, k: nat) returns (n: nat)
    requires Shape(s, |scripts|) && c < |scripts| && s.lock == 0 && s.isrs[c].Off? && s.ticks[c] == Counted(k)
    ensures Run(scripts, s, [Interrupt(c)] + Steps(c, n)).out == s.out + TickLine(c, k + 1)
  {
    n := TickIsServed(scripts, s, c);
    NextLine(c, k, s.ticks[c]);
  }

  lemma NextLine(c: nat, k: nat, ticks: nat)
    requires ticks == Counted(k)
    ensures TickHead(c) + (Dec(Bump(ticks)) + NEWLINE) == TickLine(c, k + 1)
  {
  }
}
