/** What the console's invariant says about every run, whatever the interleaving. */
module ConsoleRuns {
  import opened Console

  lemma {:induction false} RunKeepsInv(scripts: Scripts, boot: string, acts: seq<Act>)
    ensures Inv(scripts, boot, Run(scripts, Start(scripts, boot), acts), Recorded(scripts, Start(scripts, boot), acts))
    decreases |acts|
  {
    if acts == [] {
      StartInv(scripts, boot);
    } else {
      var before := acts[..|acts| - 1];
      var s0 := Start(scripts, boot);
      RunKeepsInv(scripts, boot, before);
      StepKeepsInv(scripts, boot, Run(scripts, s0, before), Recorded(scripts, s0, before), acts[|acts| - 1]);
    }
  }

  /** Only the cores there are print lines. */
  lemma {:induction false} LinesInRange(scripts: Scripts, s: System, acts: seq<Act>)
    requires Shape(s, |scripts|)
    ensures forall k | 0 <= k < |Recorded(scripts, s, acts).lines| ::
              Recorded(scripts, s, acts).lines[k].core < |scripts|
    decreases |acts|
  {
    if acts != [] { LinesInRange(scripts, s, acts[..|acts| - 1]); }
  }

  // ----- Over every run

  /** At most one context is inside the lock, and the lock word is 1 exactly when one is. */
  lemma MutualExclusion(scripts: Scripts, boot: string, acts: seq<Act>, s: System)
    requires s == Run(scripts, Start(scripts, boot), acts)
    ensures s.lock == 0 || s.lock == 1
    ensures forall v: Who, w: Who | v.core < |scripts| && w.core < |scripts| ::
              ContextOf(s, v).Inside? && ContextOf(s, w).Inside? ==> v == w
    ensures s.lock == 1 <==> exists w: Who :: w.core < |scripts| && ContextOf(s, w).Inside?
  {
    RunKeepsInv(scripts, boot, acts);
    LockMeans(s, Recorded(scripts, Start(scripts, boot), acts));
  }

  lemma LockMeans(s: System, h: History)
    requires Shape(s, |s.ticks|) && LockInv(s, h)
    ensures s.lock == 0 || s.lock == 1
    ensures forall v: Who, w: Who | v.core < |s.ticks| && w.core < |s.ticks| ::
              ContextOf(s, v).Inside? && ContextOf(s, w).Inside? ==> v == w
    ensures s.lock == 1 <==> exists w: Who :: w.core < |s.ticks| && ContextOf(s, w).Inside?
  {
    if h.holder.Some? { assert ContextOf(s, h.holder.value).Inside?; }
  }

  /** `b` is how far a message `m` has got. */
  predicate Prefix(b: string, m: string) {
    |b| <= |m| && b == m[..|b|]
  }

  /** g_ticks[c] when core `c` has printed `n` whole tick lines: its handler may have counted one more. */
  function TicksWith(x: Context, n: nat): nat {
    if Begun(x) then Counted(n + 1) else Counted(n)
  }

  /** What the history says about one core, and about whoever is inside. */
  lemma CoreShows(scripts: Scripts, boot: string, s: System, h: History, c: nat)
    requires Inv(scripts, boot, s, h) && c < |scripts|
    ensures Count(h.lines, Thread(c)) <= |scripts[c]|
    ensures s.ticks[c] == TicksWith(s.isrs[c], Count(h.lines, Isr(c)))
  {
    assert SaidOf(scripts, s, h, c) && TicksOf(s, h, c);
  }

  lemma HolderShows(scripts: Scripts, boot: string, s: System, h: History, w: Who)
    requires Inv(scripts, boot, s, h) && w.core < |scripts| && ContextOf(s, w).Inside?
    ensures Prefix(h.partial, Message(scripts, w, Count(h.lines, w)))
  {
    Insider(scripts, boot, s, h, w, ContextOf(s, w).left);
  }

  /**
   The console shows what was there at boot, then whole messages, then part of the message of whoever is inside the
   lock: nothing when no one is. By `Text`, the messages of one thread come in its own order and no more often than
   it has them, and the n-th line of core c's timer reads tick n; g_ticks[c] is the number of core c's whole tick lines,
   and one more while its handler is between counting a tick and freeing the lock.
   */
  lemma WholeLines(scripts: Scripts, boot: string, acts: seq<Act>, s: System) returns (lines: seq<Who>, partial: string)
    requires s == Run(scripts, Start(scripts, boot), acts)
    ensures forall k | 0 <= k < |lines| :: lines[k].core < |scripts|
    ensures s.out == boot + Text(scripts, lines) + partial
    ensures s.lock == 0 ==> partial == ""
    ensures forall w: Who | w.core < |scripts| && ContextOf(s, w).Inside? ::
              Prefix(partial, Message(scripts, w, Count(lines, w)))
    ensures forall c: nat | c < |scripts| :: Count(lines, Thread(c)) <= |scripts[c]|
    ensures forall c: nat | c < |scripts| :: s.ticks[c] == TicksWith(s.isrs[c], Count(lines, Isr(c)))
  {
    RunKeepsInv(scripts, boot, acts);
    var h := Recorded(scripts, Start(scripts, boot), acts);
    lines, partial := h.lines, h.partial;
    LinesInRange(scripts, Start(scripts, boot), acts);
    forall w: Who | w.core < |scripts| && ContextOf(s, w).Inside?
      ensures Prefix(partial, Message(scripts, w, Count(lines, w)))
    {
      HolderShows(scripts, boot, s, h, w);
    }
    forall c: nat | c < |scripts|
      ensures Count(lines, Thread(c)) <= |scripts[c]|
      ensures s.ticks[c] == TicksWith(s.isrs[c], Count(lines, Isr(c)))
    {
      CoreShows(scripts, boot, s, h, c);
    }
  }

  /** What the cores of the demonstration run: kmain and ksecondary each say once that their core is online. */
  function Demo(cores: nat): Scripts {
    seq(cores, c requires 0 <= c < cores => [Online(c)])
  }

  lemma {:induction false} CountGrows(lines: seq<Who>, k: nat, who: Who)
    requires k < |lines| && lines[k] == who
    ensures Count(lines[..k], who) < Count(lines, who)
    decreases |lines|
  {
    var before := lines[..|lines| - 1];
    if k < |before| {
      CountGrows(before, k, who);
      assert before[..k] == lines[..k];
    } else {
      assert before == lines[..k];
    }
  }

  /** The message of a whole line, from the lines before it. */
  function DemoLine(before: seq<Who>, w: Who): string {
    match w
    case Thread(c) => Online(c)
    case Isr(c) => TickLine(c, Count(before, w) + 1)
  }

  lemma DemoMessage(cores: nat, before: seq<Who>, w: Who)
    requires w.core < cores && (w.Thread? ==> Count(before, w) == 0)
    ensures Message(Demo(cores), w, Count(before, w)) == DemoLine(before, w)
  {
  }

  /** The demonstration: every whole line is "[core c] online", at most once per core, or tick n of core c, where n
      counts that core's tick lines so far. */
  lemma DemoLines(cores: nat, boot: string, acts: seq<Act>, s: System) returns (lines: seq<Who>, partial: string)
    requires s == Run(Demo(cores), Start(Demo(cores), boot), acts)
    ensures s.out == boot + Text(Demo(cores), lines) + partial
    ensures forall c: nat | c < cores :: Count(lines, Thread(c)) <= 1
    ensures forall k | 0 <= k < |lines| ::
              Message(Demo(cores), lines[k], Count(lines[..k], lines[k])) == DemoLine(lines[..k], lines[k])
  {
    lines, partial := WholeLines(Demo(cores), boot, acts, s);
    forall c: nat | c < cores ensures Count(lines, Thread(c)) <= 1 {
      assert |Demo(cores)[c]| == 1;
    }
    forall k | 0 <= k < |lines|
      ensures Message(Demo(cores), lines[k], Count(lines[..k], lines[k])) == DemoLine(lines[..k], lines[k])
    {
      CountGrows(lines, k, lines[k]);
      DemoMessage(cores, lines[..k], lines[k]);
    }
  }
}
