/**
 The shared console of the multi-core demonstration: freestanding/uart.cpp's test-and-set lock and the two
 programs that take it, timer_isr and ksecondary (freestanding/smp.cpp). Every core runs its thread, which its
 own timer interrupt may suspend between any two steps. One step is one atomic exchange, one character written,
 one increment of a tick counter or one store that frees the lock; steps of different cores interleave freely.
 */
module Console {
  import opened Common
  import opened Printing

  // ----- Messages

  function Dec(n: nat): string {
    Numeral(n, 10, false)
  }

  const CORE: string := "[core "
  const ONLINE: string := "] online\n"
  const TICK: string := "] timer tick #"
  const NEWLINE: string := "\n"

  function Online(core: nat): string {
    Puts(CORE) + Dec(core) + Puts(ONLINE)
  }

  function TickHead(core: nat): string {
    Puts(CORE) + Dec(core) + Puts(TICK)
  }

  /** The `n`-th tick line of a core. */
  function TickLine(core: nat, n: nat): string {
    TickHead(core) + (Dec(Counted(n)) + NEWLINE)
  }

  /** `++` on an unsigned 64-bit counter. */
  function Bump(n: nat): nat {
    if n >= 0xFFFF_FFFF_FFFF_FFFF then 0 else n + 1
  }

  /** g_ticks after `n` increments. */
  function Counted(n: nat): nat {
    if n == 0 then 0 else Bump(Counted(n - 1))
  }

  lemma {:induction false} CountedIs(n: nat)
    ensures Counted(n) == n % 0x1_0000_0000_0000_0000
    decreases n
  {
    if n > 0 { CountedIs(n - 1); }
  }

  // ----- What the lines say

  /** What a line of the console reports, read off its characters. */
  datatype Report = IsOnline(core: nat) | Ticked(core: nat, n: nat) | Unreadable

  function ReadLine(s: string): Report {
    if |s| < 7 || s[..6] != "[core " || !('0' <= s[6] <= '9') then Unreadable
    else
      var core, rest := s[6] as int - '0' as int, s[7..];
      if rest == "] online\r\n" then IsOnline(core)
      else if |rest| > 15 && rest[..14] == "] timer tick #" && rest[|rest| - 1] == '\n'
              && IsDecimal(rest[14..|rest| - 1])
      then Ticked(core, Parsed(rest[14..|rest| - 1], 10))
      else Unreadable
  }

  /** A single digit for the core, then the rest. */
  lemma ReadsCore(head: string, c: nat, rest: string)
    requires c < 10 && head == "[core "
    ensures var s := head + [('0' as int + c) as char] + rest;
            && |s| == 7 + |rest| && s[..6] == "[core " && s[7..] == rest
            && '0' <= s[6] <= '9' && s[6] as int - '0' as int == c
  {
  }

  lemma CoreIs()
    ensures Puts(CORE) == "[core "
  {
    PutsPlain(CORE);
  }

  lemma TickTail()
    ensures Puts(TICK) == "] timer tick #"
  {
    PutsPlain(TICK);
  }

  /** The head of a tick line, in characters. */
  lemma TickHeadIs(c: nat)
    requires c < 10
    ensures TickHead(c) == "[core " + [('0' as int + c) as char] + "] timer tick #"
  {
    CoreIs();
    TickTail();
    OneDigit(c);
  }

  lemma OnlineTail()
    ensures Puts(ONLINE) == "] online\r\n"
  {
    var said, tail := "] online", "\r\n";
    PutsLine(said);
    assert ONLINE == said + "\n";
    assert said + tail == "] online\r\n";
  }

  lemma OnlineIs(c: nat)
    requires c < 10
    ensures Online(c) == "[core " + [('0' as int + c) as char] + "] online\r\n"
  {
    CoreIs();
    OnlineTail();
    OneDigit(c);
  }

  lemma ReadsTick(c: nat, number: string, s: string)
    requires c < 10 && IsDecimal(number)
    requires s == ("[core " + [('0' as int + c) as char] + "] timer tick #") + (number + "\n")
    ensures ReadLine(s) == Ticked(c, Parsed(number, 10))
  {
    var rest := "] timer tick #" + (number + "\n");
    ReadsCore("[core ", c, rest);
    assert s == "[core " + [('0' as int + c) as char] + rest;
    assert rest[..14] == "] timer tick #" && rest[14..|rest| - 1] == number;
  }

  /** The line the handler prints when its counter comes to `v`. */
  lemma CountLineReads(c: nat, v: nat)
    requires c < 10
    ensures ReadLine(TickHead(c) + (Dec(v) + NEWLINE)) == Ticked(c, v)
  {
    TickHeadIs(c);
    DecimalIs(v);
    ReadsTick(c, Dec(v), TickHead(c) + (Dec(v) + NEWLINE));
  }

  /** The `n`-th tick line of a core reads back as that, the number modulo 2^64. */
  lemma TickLineReads(c: nat, n: nat)
    requires c < 10
    ensures ReadLine(TickLine(c, n)) == Ticked(c, n % 0x1_0000_0000_0000_0000)
  {
    CountedIs(n);
    CountLineReads(c, Counted(n));
  }

  lemma OnlineReads(c: nat)
    requires c < 10
    ensures ReadLine(Online(c)) == IsOnline(c)
  {
    OnlineIs(c);
    ReadsCore("[core ", c, "] online\r\n");
  }

  /** So the lines tell the cores, the counts and the two kinds of message apart. */
  lemma TicksDiffer(c: nat, n: nat, d: nat, m: nat)
    requires c < 10 && d < 10 && TickLine(c, n) == TickLine(d, m)
    ensures c == d && n % 0x1_0000_0000_0000_0000 == m % 0x1_0000_0000_0000_0000
  {
    TickLineReads(c, n);
    TickLineReads(d, m);
  }

  lemma OnlineDiffers(c: nat, d: nat, n: nat)
    requires c < 10 && d < 10
    ensures Online(c) == Online(d) ==> c == d
    ensures Online(c) != TickLine(d, n)
  {
    OnlineReads(c);
    OnlineReads(d);
    TickLineReads(d, n);
  }

  lemma TickedParts(s: string, c: nat, v: nat) returns (number: string)
    requires ReadLine(s) == Ticked(c, v)
    ensures |s| > 22 && s[..6] == "[core " && c < 10 && s[6] as int == '0' as int + c
    ensures s[7..][..14] == "] timer tick #" && number == s[7..][14..|s| - 8] && s[|s| - 1] == '\n'
    ensures IsDecimal(number) && v == Parsed(number, 10)
  {
    number := s[7..][14..|s| - 8];
  }

  lemma InParts(s: string, x: int, y: int)
    requires 7 + x + y + 1 == |s| && x >= 0 && y >= 0
    ensures s == s[..6] + [s[6]] + s[7..][..x] + s[7..][x..x + y] + [s[|s| - 1]]
  {
  }

  /** Nothing else reads as a tick: a line that reads so is the core's line for that count, character by character. */
  lemma TickedIs(s: string, c: nat, v: nat)
    requires ReadLine(s) == Ticked(c, v)
    ensures c < 10 && s == "[core " + [('0' as int + c) as char] + "] timer tick #" + Dec(v) + "\n"
  {
    var number := TickedParts(s, c, v);
    InParts(s, 14, |s| - 22);
    DecimalIsNumeral(number);
  }

  lemma Joined(a: string, b: string, c: string, d: string)
    requires c == d
    ensures (a + b) + c == a + (b + d)
  {
  }

  /** The body of `timer_isr` on its own: the next tick line, and no other core's counter. */
  method TimerIsr(uart: Uart, ticks: array<u64>, c: nat)
    requires c < ticks.Length <= 4
    modifies uart, ticks
    ensures ticks[c] == Bump(old(ticks[c]))
    ensures forall d | 0 <= d < ticks.Length && d != c :: ticks[d] == old(ticks[d])
    ensures uart.out == old(uart.out) + (TickHead(c) + (Dec(Bump(old(ticks[c]))) + NEWLINE))
  {
    PutHead(uart, c);
    ghost var head := uart.out;
    ticks[c] := Bump(ticks[c]);
    ghost var n := ticks[c];
    uart.Dec(ticks[c]);
    uart.Putc('\n');
    Joined(head, Dec(n), NEWLINE, "\n");
    Joined(old(uart.out), TickHead(c), Dec(n) + NEWLINE, Dec(n) + NEWLINE);
  }

  method PutHead(uart: Uart, c: nat)
    requires c < 4
    modifies uart
    ensures uart.out == old(uart.out) + TickHead(c)
  {
    uart.PutString(CORE);
    uart.Dec(c);
    uart.PutString(TICK);
    Joined(old(uart.out), Puts(CORE), Dec(c), Dec(c));
    Joined(old(uart.out), Puts(CORE) + Dec(c), Puts(TICK), Puts(TICK));
  }

  // ----- The machine

  /** What a context has left to do inside the lock: write a character, or count a tick and write the count. */
  datatype Piece = Char(c: char) | NextTick

  datatype Context = Off | Spinning | Inside(left: seq<Piece>)

  /** A core's thread, or the timer interrupt handler that suspends it. */
  datatype Who = Thread(core: nat) | Isr(core: nat)

  /** The lock word, what was written, and for each core both contexts, the messages its thread has printed and
      g_ticks. */
  datatype System = System(
    lock: nat,
    out: string,
    threads: seq<Context>,
    isrs: seq<Context>,
    said: seq<nat>,
    ticks: seq<nat>)

  /** The messages each core's thread prints, each inside the lock. */
  type Scripts = seq<seq<string>>

  datatype Act =
    | Interrupt(core: nat)
    | Go(core: nat)

  ghost predicate Shape(s: System, n: nat) {
    |s.threads| == |s.isrs| == |s.said| == |s.ticks| == n
  }

  function AsPieces(s: string): seq<Piece> {
    if s == "" then [] else [Char(s[0])] + AsPieces(s[1..])
  }

  function TickPieces(core: nat): seq<Piece> {
    AsPieces(TickHead(core)) + ([NextTick] + AsPieces(NEWLINE))
  }

  function Start(scripts: Scripts, boot: string): System {
    var n := |scripts|;
    System(0, boot, seq(n, _ => Off), seq(n, _ => Off), seq(n, _ => 0), seq(n, _ => 0))
  }

  function ContextOf(s: System, w: Who): Context
    requires Shape(s, |s.ticks|) && w.core < |s.ticks|
  {
    if w.Isr? then s.isrs[w.core] else s.threads[w.core]
  }

  function With(s: System, w: Who, x: Context): (r: System)
    requires Shape(s, |s.ticks|) && w.core < |s.ticks|
    ensures Shape(r, |s.ticks|)
  {
    if w.Isr? then s.(isrs := s.isrs[w.core := x]) else s.(threads := s.threads[w.core := x])
  }

  /** What a context does with the lock once it has it. */
  function Body(scripts: Scripts, s: System, w: Who): seq<Piece>
    requires Shape(s, |scripts|) && w.core < |scripts|
  {
    if w.Isr? then TickPieces(w.core)
    else if s.said[w.core] < |scripts[w.core]| then AsPieces(scripts[w.core][s.said[w.core]])
    else []
  }

  /** `__atomic_exchange_n(&g_lock, 1)`, and the loop around it. */
  function Exchange(s: System, w: Who, body: seq<Piece>): (r: System)
    requires Shape(s, |s.ticks|) && w.core < |s.ticks|
    ensures Shape(r, |s.ticks|)
  {
    (if s.lock == 0 then With(s, w, Inside(body)) else s).(lock := 1)
  }

  /** One step inside the lock. */
  function Say(s: System, w: Who, left: seq<Piece>): (r: System)
    requires Shape(s, |s.ticks|) && w.core < |s.ticks| && left != []
    ensures Shape(r, |s.ticks|)
  {
    match left[0]
    case Char(ch) => With(s, w, Inside(left[1..])).(out := s.out + [ch])
    case NextTick =>
      var n := Bump(s.ticks[w.core]);
      With(s, w, Inside(AsPieces(Dec(n)) + left[1..])).(ticks := s.ticks[w.core := n])
  }

  /** `__atomic_store_n(&g_lock, 0)`, and the return from the handler or to the thread's next message. */
  function Unlock(s: System, w: Who): (r: System)
    requires Shape(s, |s.ticks|) && w.core < |s.ticks|
    ensures Shape(r, |s.ticks|)
  {
    var s' := With(s, w, Off).(lock := 0);
    if w.Isr? then s' else s'.(said := s.said[w.core := s.said[w.core] + 1])
  }

  /** The context that runs on a core: its interrupt handler, if there is one. */
  function Runs(s: System, c: nat): Who
    requires Shape(s, |s.ticks|) && c < |s.ticks|
  {
    if s.isrs[c].Off? then Thread(c) else Isr(c)
  }

  function Step(scripts: Scripts, s: System, a: Act): (r: System)
    requires Shape(s, |scripts|)
    ensures Shape(r, |scripts|)
  {
    if a.core >= |scripts| then s
    else if a.Interrupt? then
      if s.isrs[a.core].Off? then With(s, Isr(a.core), Spinning) else s
    else
      var w := Runs(s, a.core);
      match ContextOf(s, w)
      case Off => if s.said[a.core] < |scripts[a.core]| then With(s, w, Spinning) else s
      case Spinning => Exchange(s, w, Body(scripts, s, w))
      case Inside(left) => if left == [] then Unlock(s, w) else Say(s, w, left)
  }

  function Run(scripts: Scripts, s: System, acts: seq<Act>): (r: System)
    requires Shape(s, |scripts|)
    ensures Shape(r, |scripts|)
    decreases |acts|
  {
    if acts == [] then s else Step(scripts, Run(scripts, s, acts[..|acts| - 1]), acts[|acts| - 1])
  }

  // ----- The history of a run

  /** Who has finished a message, in order; who is inside the lock; and what that one has written so far. */
  datatype History = History(lines: seq<Who>, holder: Option<Who>, partial: string)

  /** What a step adds to the history, seen from the state before it. */
  function Record(s: System, h: History, a: Act): History
    requires Shape(s, |s.ticks|)
  {
    if a.Interrupt? || a.core >= |s.ticks| then h
    else
      var w := Runs(s, a.core);
      match ContextOf(s, w)
      case Off => h
      case Spinning => if s.lock == 0 then h.(holder := Some(w), partial := "") else h
      case Inside(left) =>
        if left == [] then History(h.lines + [w], None, "")
        else if left[0].Char? then h.(partial := h.partial + [left[0].c])
        else h
  }

  function Recorded(scripts: Scripts, s: System, acts: seq<Act>): History
    requires Shape(s, |scripts|)
    decreases |acts|
  {
    if acts == [] then History([], None, "")
    else
      var before := acts[..|acts| - 1];
      Record(Run(scripts, s, before), Recorded(scripts, s, before), acts[|acts| - 1])
  }

  function Count(lines: seq<Who>, who: Who): nat {
    if lines == [] then 0
    else Count(lines[..|lines| - 1], who) + if lines[|lines| - 1] == who then 1 else 0
  }

  /** The `n`-th message (from 0) of a context. */
  function Message(scripts: Scripts, w: Who, n: nat): string {
    match w
    case Isr(c) => TickLine(c, n + 1)
    case Thread(c) => if c < |scripts| && n < |scripts[c]| then scripts[c][n] else ""
  }

  /** Whole messages, one after the other, each context's in its own order. */
  function Text(scripts: Scripts, lines: seq<Who>): string {
    if lines == [] then ""
    else
      var before, w := lines[..|lines| - 1], lines[|lines| - 1];
      Text(scripts, before) + Message(scripts, w, Count(before, w))
  }

  // ----- What every step keeps

  /** The text still to come, when the counter stands at `ticks`. */
  function Coming(left: seq<Piece>, ticks: nat): string {
    if left == [] then ""
    else if left[0].Char? then [left[0].c] + Coming(left[1..], ticks)
    else Dec(Bump(ticks)) + Coming(left[1..], Bump(ticks))
  }

  /** Ticks still to be counted. */
  function Uncounted(left: seq<Piece>): nat {
    if left == [] then 0 else (if left[0].NextTick? then 1 else 0) + Uncounted(left[1..])
  }

  /** Has the handler inside counted its tick? */
  predicate Begun(x: Context) {
    x.Inside? && Uncounted(x.left) == 0
  }

  /** The lock word is 1 exactly while someone is inside, and only the holder is. */
  ghost predicate LockInv(s: System, h: History)
    requires Shape(s, |s.ticks|)
  {
    && s.lock == (if h.holder.Some? then 1 else 0)
    && (h.holder.Some? ==> h.holder.value.core < |s.ticks|)
    && (forall c: nat | c < |s.ticks| :: s.threads[c].Inside? <==> h.holder == Some(Thread(c)))
    && (forall c: nat | c < |s.ticks| :: s.isrs[c].Inside? <==> h.holder == Some(Isr(c)))
  }

  ghost predicate TicksOf(s: System, h: History, c: nat)
    requires Shape(s, |s.ticks|) && c < |s.ticks|
  {
    && (Begun(s.isrs[c]) ==> s.ticks[c] == Counted(Count(h.lines, Isr(c)) + 1))
    && (!Begun(s.isrs[c]) ==> s.ticks[c] == Counted(Count(h.lines, Isr(c))))
    && (s.isrs[c].Inside? ==> Uncounted(s.isrs[c].left) <= 1)
  }

  ghost predicate SaidOf(scripts: Scripts, s: System, h: History, c: nat)
    requires Shape(s, |scripts|) && c < |scripts|
  {
    && s.said[c] == Count(h.lines, Thread(c))
    && s.said[c] <= |scripts[c]|
    && (!s.threads[c].Off? ==> s.said[c] < |scripts[c]|)
    && (s.threads[c].Inside? ==> Uncounted(s.threads[c].left) == 0)
  }

  ghost predicate CountsInv(scripts: Scripts, s: System, h: History)
    requires Shape(s, |scripts|)
  {
    && (forall c: nat | c < |scripts| :: TicksOf(s, h, c))
    && (forall c: nat | c < |scripts| :: SaidOf(scripts, s, h, c))
  }

  /** The holder's text so far and to come make up its message. */
  ghost predicate TextInv(scripts: Scripts, boot: string, s: System, h: History)
    requires Shape(s, |scripts|)
  {
    && s.out == boot + Text(scripts, h.lines) + h.partial
    && match h.holder
       case None => h.partial == ""
       case Some(w) =>
         w.core < |scripts| && ContextOf(s, w).Inside? ==>
           h.partial + Coming(ContextOf(s, w).left, s.ticks[w.core]) == Message(scripts, w, Count(h.lines, w))
  }

  ghost predicate Inv(scripts: Scripts, boot: string, s: System, h: History) {
    && Shape(s, |scripts|)
    && LockInv(s, h)
    && CountsInv(scripts, s, h)
    && TextInv(scripts, boot, s, h)
  }

  lemma {:induction false} StartInv(scripts: Scripts, boot: string)
    ensures Inv(scripts, boot, Start(scripts, boot), History([], None, ""))
  {
  }

  lemma CharComes(c: char, rest: seq<Piece>, ticks: nat)
    ensures Coming([Char(c)] + rest, ticks) == [c] + Coming(rest, ticks)
    ensures Uncounted([Char(c)] + rest) == Uncounted(rest)
  {
    assert ([Char(c)] + rest)[1..] == rest;
  }

  lemma TickComes(rest: seq<Piece>, ticks: nat)
    ensures Coming([NextTick] + rest, ticks) == Dec(Bump(ticks)) + Coming(rest, Bump(ticks))
    ensures Uncounted([NextTick] + rest) == 1 + Uncounted(rest)
  {
    assert ([NextTick] + rest)[1..] == rest;
  }

  lemma {:induction false} CharsCome(t: string, rest: seq<Piece>, ticks: nat)
    ensures Coming(AsPieces(t) + rest, ticks) == t + Coming(rest, ticks)
    ensures Uncounted(AsPieces(t) + rest) == Uncounted(rest)
    decreases |t|
  {
    if t == "" {
      assert AsPieces(t) + rest == rest;
    } else {
      var more := AsPieces(t[1..]) + rest;
      CharsCome(t[1..], rest, ticks);
      CharComes(t[0], more, ticks);
      assert AsPieces(t) + rest == [Char(t[0])] + more;
      Joined([t[0]], t[1..], Coming(rest, ticks), Coming(rest, ticks));
      assert t == [t[0]] + t[1..];
    }
  }

  lemma AllCome(t: string, ticks: nat)
    ensures Coming(AsPieces(t), ticks) == t && Uncounted(AsPieces(t)) == 0
  {
    CharsCome(t, [], ticks);
    assert AsPieces(t) + [] == AsPieces(t);
  }

  lemma LineComes(head: string, tail: string, ticks: nat, next: nat)
    requires next == Bump(ticks)
    ensures Coming(AsPieces(head) + ([NextTick] + AsPieces(tail)), ticks) == head + (Dec(next) + tail)
    ensures Uncounted(AsPieces(head) + ([NextTick] + AsPieces(tail))) == 1
  {
    AllCome(tail, next);
    TickComes(AsPieces(tail), ticks);
    CharsCome(head, [NextTick] + AsPieces(tail), ticks);
  }

  lemma TickLineComes(c: nat, n: nat)
    ensures Coming(TickPieces(c), Counted(n)) == TickLine(c, n + 1) && Uncounted(TickPieces(c)) == 1
  {
    LineComes(TickHead(c), NEWLINE, Counted(n), Counted(n + 1));
  }

  lemma IsrBody(scripts: Scripts, s: System, h: History, c: nat)
    requires Shape(s, |scripts|) && c < |scripts| && TicksOf(s, h, c) && s.isrs[c].Spinning?
    ensures Coming(Body(scripts, s, Isr(c)), s.ticks[c]) == Message(scripts, Isr(c), Count(h.lines, Isr(c)))
    ensures Uncounted(Body(scripts, s, Isr(c))) == 1
  {
    var n := Count(h.lines, Isr(c));
    assert s.ticks[c] == Counted(n);
    assert Body(scripts, s, Isr(c)) == TickPieces(c);
    assert Message(scripts, Isr(c), n) == TickLine(c, n + 1);
    TickLineComes(c, n);
  }

  lemma ThreadBody(scripts: Scripts, s: System, h: History, c: nat)
    requires Shape(s, |scripts|) && c < |scripts| && SaidOf(scripts, s, h, c) && s.threads[c].Spinning?
    ensures Coming(Body(scripts, s, Thread(c)), s.ticks[c]) == Message(scripts, Thread(c), Count(h.lines, Thread(c)))
    ensures Uncounted(Body(scripts, s, Thread(c))) == 0
  {
    AllCome(scripts[c][s.said[c]], s.ticks[c]);
  }

  /** A message taken up inside the lock is the one that is due. */
  lemma BodyComes(scripts: Scripts, s: System, h: History, w: Who, body: seq<Piece>)
    requires Shape(s, |scripts|) && w.core < |scripts| && CountsInv(scripts, s, h)
    requires ContextOf(s, w).Spinning? && body == Body(scripts, s, w)
    ensures Coming(body, s.ticks[w.core]) == Message(scripts, w, Count(h.lines, w))
    ensures Uncounted(body) == if w.Isr? then 1 else 0
  {
    if w.Isr? {
      IsrBody(scripts, s, h, w.core);
    } else {
      ThreadBody(scripts, s, h, w.core);
    }
  }

  lemma {:induction false} CountSnoc(lines: seq<Who>, w: Who, who: Who)
    ensures Count(lines + [w], who) == Count(lines, who) + if w == who then 1 else 0
  {
    assert (lines + [w])[..|lines|] == lines;
  }

  lemma TextSnoc(scripts: Scripts, lines: seq<Who>, w: Who)
    ensures Text(scripts, lines + [w]) == Text(scripts, lines) + Message(scripts, w, Count(lines, w))
  {
    assert (lines + [w])[..|lines|] == lines;
  }

  // ----- Each kind of step

  lemma LockKeeps(s: System, h: History, s': System, h': History, w: Who, x: Context)
    requires Shape(s, |s.ticks|) && w.core < |s.ticks| && LockInv(s, h)
    requires Shape(s', |s.ticks|)
    requires s'.threads == With(s, w, x).threads && s'.isrs == With(s, w, x).isrs
    requires h.holder == None || h.holder == Some(w)
    requires h'.holder == if x.Inside? then Some(w) else None
    requires s'.lock == if x.Inside? then 1 else 0
    ensures LockInv(s', h')
  {
  }

  /** An interrupt arrives, or a thread comes to its next message: no one enters or leaves. */
  lemma QuietCounts(scripts: Scripts, s: System, h: History, w: Who)
    requires Shape(s, |scripts|) && w.core < |scripts| && CountsInv(scripts, s, h) && ContextOf(s, w).Off?
    requires w.Isr? || s.said[w.core] < |scripts[w.core]|
    ensures CountsInv(scripts, With(s, w, Spinning), h)
  {
    var s' := With(s, w, Spinning);
    forall c: nat | c < |scripts| ensures TicksOf(s', h, c) {
      assert TicksOf(s, h, c);
    }
    forall c: nat | c < |scripts| ensures SaidOf(scripts, s', h, c) {
      assert SaidOf(scripts, s, h, c);
    }
  }

  lemma QuietLock(s: System, h: History, w: Who)
    requires Shape(s, |s.ticks|) && w.core < |s.ticks| && LockInv(s, h) && ContextOf(s, w).Off?
    ensures LockInv(With(s, w, Spinning), h)
    ensures h.holder.Some? ==>
              && h.holder != Some(w)
              && ContextOf(With(s, w, Spinning), h.holder.value) == ContextOf(s, h.holder.value)
  {
  }

  lemma QuietStep(scripts: Scripts, boot: string, s: System, h: History, w: Who)
    requires Inv(scripts, boot, s, h) && w.core < |scripts| && ContextOf(s, w).Off?
    requires w.Isr? || s.said[w.core] < |scripts[w.core]|
    ensures Inv(scripts, boot, With(s, w, Spinning), h)
  {
    QuietCounts(scripts, s, h, w);
    QuietLock(s, h, w);
  }

  lemma SpinStep(s: System, w: Who, body: seq<Piece>)
    requires Shape(s, |s.ticks|) && w.core < |s.ticks| && s.lock == 1
    ensures Exchange(s, w, body) == s
  {
  }

  lemma EnterCounts(scripts: Scripts, s: System, h: History, h': History, w: Who, body: seq<Piece>)
    requires Shape(s, |scripts|) && w.core < |scripts| && CountsInv(scripts, s, h)
    requires ContextOf(s, w).Spinning? && s.lock == 0 && h'.lines == h.lines
    requires Uncounted(body) == if w.Isr? then 1 else 0
    ensures CountsInv(scripts, Exchange(s, w, body), h')
  {
    var s' := Exchange(s, w, body);
    forall c: nat | c < |scripts| ensures TicksOf(s', h', c) {
      assert TicksOf(s, h, c);
    }
    forall c: nat | c < |scripts| ensures SaidOf(scripts, s', h', c) {
      assert SaidOf(scripts, s, h, c);
    }
  }

  lemma EnterStep(scripts: Scripts, boot: string, s: System, h: History, w: Who, body: seq<Piece>)
    requires Inv(scripts, boot, s, h) && w.core < |scripts| && ContextOf(s, w).Spinning? && s.lock == 0
    requires Uncounted(body) == if w.Isr? then 1 else 0
    requires Coming(body, s.ticks[w.core]) == Message(scripts, w, Count(h.lines, w))
    ensures Inv(scripts, boot, Exchange(s, w, body), h.(holder := Some(w), partial := ""))
  {
    var s', h' := Exchange(s, w, body), h.(holder := Some(w), partial := "");
    EnterCounts(scripts, s, h, h', w, body);
    LockKeeps(s, h, s', h', w, Inside(body));
  }

  /** Whoever is inside holds the lock, and its message is the partial text and what is still to come. */
  lemma Insider(scripts: Scripts, boot: string, s: System, h: History, w: Who, left: seq<Piece>)
    requires Inv(scripts, boot, s, h) && w.core < |scripts| && ContextOf(s, w) == Inside(left)
    ensures h.holder == Some(w) && s.lock == 1
    ensures h.partial + Coming(left, s.ticks[w.core]) == Message(scripts, w, Count(h.lines, w))
  {
  }

  /** One step of `w` inside the lock, seen from the books of all cores. */
  lemma SayCounts(scripts: Scripts, s: System, h: History, h': History, w: Who, left: seq<Piece>)
    requires Shape(s, |scripts|) && w.core < |scripts| && CountsInv(scripts, s, h)
    requires ContextOf(s, w) == Inside(left) && left != [] && h'.lines == h.lines
    ensures CountsInv(scripts, Say(s, w, left), h')
  {
    var s' := Say(s, w, left);
    var n := Bump(s.ticks[w.core]);
    CharsCome(Dec(n), left[1..], n);
    forall c: nat | c < |scripts| ensures TicksOf(s', h', c) {
      assert TicksOf(s, h, c);
      assert SaidOf(scripts, s, h, c);
    }
    forall c: nat | c < |scripts| ensures SaidOf(scripts, s', h', c) {
      assert SaidOf(scripts, s, h, c);
    }
  }

  lemma CharStep(scripts: Scripts, boot: string, s: System, h: History, w: Who, left: seq<Piece>)
    requires Inv(scripts, boot, s, h) && w.core < |scripts| && ContextOf(s, w) == Inside(left)
    requires left != [] && left[0].Char?
    ensures Inv(scripts, boot, Say(s, w, left), h.(partial := h.partial + [left[0].c]))
  {
    var s', h' := Say(s, w, left), h.(partial := h.partial + [left[0].c]);
    Insider(scripts, boot, s, h, w, left);
    SayCounts(scripts, s, h, h', w, left);
    LockKeeps(s, h, s', h', w, Inside(left[1..]));
    Joined(h.partial, [left[0].c], Coming(left[1..], s.ticks[w.core]), Coming(left[1..], s.ticks[w.core]));
    Joined(boot + Text(scripts, h.lines), h.partial, [left[0].c], [left[0].c]);
  }

  lemma TickStep(scripts: Scripts, boot: string, s: System, h: History, w: Who, left: seq<Piece>)
    requires Inv(scripts, boot, s, h) && w.core < |scripts| && ContextOf(s, w) == Inside(left)
    requires left != [] && left[0].NextTick?
    ensures Inv(scripts, boot, Say(s, w, left), h)
  {
    var n := Bump(s.ticks[w.core]);
    var s' := Say(s, w, left);
    Insider(scripts, boot, s, h, w, left);
    SayCounts(scripts, s, h, h, w, left);
    LockKeeps(s, h, s', h, w, Inside(AsPieces(Dec(n)) + left[1..]));
    CharsCome(Dec(n), left[1..], n);
  }

  lemma UnlockCounts(scripts: Scripts, s: System, h: History, h': History, w: Who)
    requires Shape(s, |scripts|) && w.core < |scripts| && CountsInv(scripts, s, h)
    requires ContextOf(s, w) == Inside([]) && h'.lines == h.lines + [w]
    ensures CountsInv(scripts, Unlock(s, w), h')
  {
    var s' := Unlock(s, w);
    forall c: nat | c < |scripts| ensures TicksOf(s', h', c) {
      assert TicksOf(s, h, c);
      CountSnoc(h.lines, w, Isr(c));
    }
    forall c: nat | c < |scripts| ensures SaidOf(scripts, s', h', c) {
      assert SaidOf(scripts, s, h, c);
      CountSnoc(h.lines, w, Thread(c));
    }
  }

  lemma LineEnds(scripts: Scripts, boot: string, out: string, h: History, w: Who)
    requires out == boot + Text(scripts, h.lines) + h.partial
    requires h.partial + "" == Message(scripts, w, Count(h.lines, w))
    ensures out == boot + Text(scripts, h.lines + [w]) + ""
  {
    TextSnoc(scripts, h.lines, w);
    Joined(boot, Text(scripts, h.lines), h.partial, h.partial + "");
  }

  lemma UnlockStep(scripts: Scripts, boot: string, s: System, h: History, w: Who)
    requires Inv(scripts, boot, s, h) && w.core < |scripts| && ContextOf(s, w) == Inside([])
    ensures Inv(scripts, boot, Unlock(s, w), History(h.lines + [w], None, ""))
  {
    var s', h' := Unlock(s, w), History(h.lines + [w], None, "");
    Insider(scripts, boot, s, h, w, []);
    UnlockCounts(scripts, s, h, h', w);
    LockKeeps(s, h, s', h', w, Off);
    LineEnds(scripts, boot, s.out, h, w);
  }

  /** A step inside the lock, and what it adds to the history. */
  lemma InsideIs(scripts: Scripts, s: System, h: History, w: Who, left: seq<Piece>)
    requires Shape(s, |scripts|) && w.core < |scripts| && ContextOf(s, w) == Inside(left) && w == Runs(s, w.core)
    ensures Step(scripts, s, Go(w.core)) == if left == [] then Unlock(s, w) else Say(s, w, left)
    ensures Record(s, h, Go(w.core)) ==
            if left == [] then History(h.lines + [w], None, "")
            else if left[0].Char? then h.(partial := h.partial + [left[0].c])
            else h
  {
  }

  lemma InsideStep(scripts: Scripts, boot: string, s: System, h: History, w: Who, left: seq<Piece>, s': System,
                   h': History)
    requires Inv(scripts, boot, s, h) && w.core < |scripts| && ContextOf(s, w) == Inside(left)
    requires w == Runs(s, w.core) && s' == Step(scripts, s, Go(w.core)) && h' == Record(s, h, Go(w.core))
    ensures Inv(scripts, boot, s', h')
  {
    InsideIs(scripts, s, h, w, left);
    if left == [] {
      UnlockStep(scripts, boot, s, h, w);
    } else if left[0].Char? {
      CharStep(scripts, boot, s, h, w, left);
    } else {
      TickStep(scripts, boot, s, h, w, left);
    }
  }

  lemma OutsideStep(scripts: Scripts, boot: string, s: System, h: History, w: Who)
    requires Inv(scripts, boot, s, h) && w.core < |scripts| && !ContextOf(s, w).Inside?
    requires w == Runs(s, w.core)
    ensures Inv(scripts, boot, Step(scripts, s, Go(w.core)), Record(s, h, Go(w.core)))
  {
    if ContextOf(s, w).Off? {
      if s.said[w.core] < |scripts[w.core]| { QuietStep(scripts, boot, s, h, w); }
    } else {
      var body := Body(scripts, s, w);
      if s.lock == 0 {
        BodyComes(scripts, s, h, w, body);
        EnterStep(scripts, boot, s, h, w, body);
      } else {
        SpinStep(s, w, body);
      }
    }
  }

  /** Every step keeps the invariant. */
  lemma StepKeepsInv(scripts: Scripts, boot: string, s: System, h: History, a: Act)
    requires Inv(scripts, boot, s, h)
    ensures Inv(scripts, boot, Step(scripts, s, a), Record(s, h, a))
  {
    if a.core < |scripts| {
      if a.Interrupt? {
        if s.isrs[a.core].Off? { QuietStep(scripts, boot, s, h, Isr(a.core)); }
      } else {
        var w := Runs(s, a.core);
        match ContextOf(s, w)
        case Inside(left) => InsideStep(scripts, boot, s, h, w, left, Step(scripts, s, a), Record(s, h, a));
        case _ => OutsideStep(scripts, boot, s, h, w);
      }
    }
  }
}
