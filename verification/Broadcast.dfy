/** The ring-buffer broadcast of SP_HW10: one producer writes numbered messages into a circular
    buffer in shared memory and signals every consumer; consumers copy a slot, compare it with
    the number the signal carried and count matches in a shared counter. program_enhanced.c
    guards each copy by a compare-and-swap spin lock, program.c does not (`locked` is false).

    strcpy and sprintf move one byte per step. Signals are delivered at any moment and may be
    dropped when sent; those that arrive, arrive in the order sent. */
module Broadcast {
  import opened CStrings

  const SLOT_SIZE := 80
  const COUNTER_AT := 40
  const LOCK_AT := 44
  const MSG_SIZE := 40
  const SPLIT_SIZE := 30
  const INT_MAX := 0x7fff_ffff

  /** A byte of a message, or the first or a later byte of an `int`. */
  datatype Cell = Ch(c: char) | Word(w: int) | WordRest

  /** The command line, which program runs, and the text `msg` that starts every message. */
  datatype Config = Config(dataNum: nat, consumers: nat, slots: nat, locked: bool, msg: string)

  predicate Usable(cfg: Config) {
    cfg.slots >= 1 && cfg.dataNum <= INT_MAX && |cfg.msg| == 16 && '\0' !in cfg.msg
  }

  function Base(slot: nat): nat { SLOT_SIZE * slot }

  function CounterAddress(cfg: Config): nat
    requires Usable(cfg)
  {
    Base(cfg.slots - 1) + COUNTER_AT
  }

  function LockAddress(cfg: Config): nat
    requires Usable(cfg)
  {
    Base(cfg.slots - 1) + LOCK_AT
  }

  /** The slot of message or iteration `n`: the remainder of `n` by the number of slots, given
      step by step so that proofs about it need no division. */
  function Slot(n: nat, cfg: Config): (slot: nat)
    requires Usable(cfg)
    ensures slot < cfg.slots
  {
    if n == 0 then 0
    else
      var before := Slot(n - 1, cfg);
      if before == cfg.slots - 1 then 0 else before + 1
  }

  lemma {:induction false} SlotIsRemainder(n: nat, cfg: Config)
    requires Usable(cfg)
    ensures Slot(n, cfg) == n % cfg.slots
  {
    var k := cfg.slots;
    if n == 0 {
      ModOf(0, 0, 0, k);
    } else {
      SlotIsRemainder(n - 1, cfg);
      var q, r := (n - 1) / k, (n - 1) % k;
      assert n - 1 == q * k + r;
      if r == k - 1 {
        ModOf(n, q + 1, 0, k);
      } else {
        ModOf(n, q, r + 1, k);
      }
    }
  }

  lemma ModOf(n: nat, q: nat, r: nat, k: nat)
    requires k > 0 && r < k && n == q * k + r
    ensures n % k == r
  {
    var q', r' := n / k, n % k;
    assert (q - q') * k == r' - r;
    AtLeastOnce(q - q', k);
  }

  lemma AtLeastOnce(x: int, k: nat)
    ensures x >= 1 ==> x * k >= k
    ensures x <= -1 ==> x * k + k <= 0
  {
  }

  /** `ptr += 80`, and back to the start after the last slot. */
  function NextSlot(slot: nat, n: nat, cfg: Config): nat
    requires Usable(cfg)
  {
    if n % cfg.slots == cfg.slots - 1 then 0 else slot + 1
  }

  /** The moving pointer is always at the slot of the loop counter. */
  lemma NextSlotIsSlot(n: nat, cfg: Config)
    requires Usable(cfg)
    ensures NextSlot(Slot(n, cfg), n, cfg) == Slot(n + 1, cfg)
  {
    SlotIsRemainder(n, cfg);
  }

  // ----- messages

  const PREFIX := "This is message "

  function Message(cfg: Config, n: nat): string { cfg.msg + Decimal(n) }

  /** What a slot holds when `m` is the last message written to it; -1 if none was. */
  function Content(cfg: Config, m: int): string { if m < 0 then "" else Message(cfg, m) }

  /** A printed int makes a message of at most 26 characters. */
  lemma MessageFits(cfg: Config, n: nat)
    requires Usable(cfg) && n <= INT_MAX
    ensures |Message(cfg, n)| <= 26 < MSG_SIZE
  {
    assert Pow10(10) == 10 * Pow10(9) == 100 * Pow10(8) == 1000 * Pow10(7) == 10000 * Pow10(6);
    assert Pow10(6) == 10 * Pow10(5) == 100 * Pow10(4) == 1000 * Pow10(3) == 10000 * Pow10(2);
    DecimalLength(n, 10);
  }

  /** `seqcmp`: the first non-zero number among the first four words; `tooMany` if there are
      more words, and no defined result if the words run out. */
  function SeqCmp(text: string, tooMany: int): Option<int> {
    SeqCmpFrom(Tokens(text, " \t"), 1, tooMany)
  }

  function SeqCmpFrom(words: seq<string>, i: nat, tooMany: int): Option<int> {
    if words == [] then None
    else if i > 4 then Some(tooMany)
    else if Atoi(words[0]) != 0 then Some(Atoi(words[0]))
    else SeqCmpFrom(words[1..], i + 1, tooMany)
  }

  /** The index of the first word that is a number other than 0, or how many words there are. */
  function FirstNumber(words: seq<string>): (j: nat)
    ensures j <= |words| && (j < |words| ==> Atoi(words[j]) != 0)
    ensures forall i :: 0 <= i < j ==> Atoi(words[i]) == 0
  {
    if words == [] || Atoi(words[0]) != 0 then 0 else 1 + FirstNumber(words[1..])
  }

  lemma {:induction false} SeqCmpFromIs(words: seq<string>, i: nat, tooMany: int)
    requires 1 <= i <= 5
    ensures var j := FirstNumber(words);
      SeqCmpFrom(words, i, tooMany)
      == if i + j <= 4 && j < |words| then Some(Atoi(words[j]))
         else if i + |words| > 5 then Some(tooMany) else None
  {
    if words != [] && i <= 4 && Atoi(words[0]) == 0 {
      SeqCmpFromIs(words[1..], i + 1, tooMany);
    }
  }

  /** The first number among the first four words counts; without one, a fifth word means
      `tooMany`, and with no fifth word there is no result. */
  lemma SeqCmpMeaning(text: string, tooMany: int)
    ensures var words := Tokens(text, " \t");
      var j := FirstNumber(words);
      SeqCmp(text, tooMany)
      == if j < 4 && j < |words| then Some(Atoi(words[j]))
         else if |words| > 4 then Some(tooMany) else None
  {
    SeqCmpFromIs(Tokens(text, " \t"), 1, tooMany);
  }

  /** The loop of `seqcmp`, with the words strtok hands out. */
  method ScanNumber(text: string, tooMany: int) returns (seq': Option<int>)
    ensures seq' == SeqCmp(text, tooMany)
  {
    var words := Tokens(text, " \t");
    var i := 1;
    while words != []
      invariant SeqCmpFrom(words, i, tooMany) == SeqCmp(text, tooMany)
      decreases |words|
    {
      if i > 4 {
        return Some(tooMany);
      }
      var number := Atoi(words[0]);
      if number != 0 {
        return Some(number);
      }
      words, i := words[1..], i + 1;
    }
    return None;
  }

  lemma WordThenBlank(w: string, rest: string)
    requires IsWord(w, " \t")
    ensures Tokens(w + (" " + rest), " \t") == [w] + Tokens(rest, " \t")
  {
    TokensOfWord(w, " " + rest, " \t");
    TokensOfBlank(" ", rest, " \t");
  }

  lemma FourWords(a: string, b: string, c: string, d: string)
    requires IsWord(a, " \t") && IsWord(b, " \t") && IsWord(c, " \t") && IsWord(d, " \t")
    ensures Tokens(a + (" " + (b + (" " + (c + (" " + d))))), " \t") == [a, b, c, d]
  {
    TokensOfWord(d, "", " \t");
    assert d + "" == d;
    WordThenBlank(c, d);
    WordThenBlank(b, c + (" " + d));
    WordThenBlank(a, b + (" " + (c + (" " + d))));
  }

  lemma FourthNumber(a: string, b: string, c: string, d: string, tooMany: int)
    requires Atoi(a) == 0 && Atoi(b) == 0 && Atoi(c) == 0
    ensures SeqCmpFrom([a, b, c, d], 1, tooMany) == if Atoi(d) == 0 then None else Some(Atoi(d))
  {
    assert [a, b, c, d][1..] == [b, c, d] && [b, c, d][1..] == [c, d] && [c, d][1..] == [d] && [d][1..] == [];
    assert SeqCmpFrom([d], 4, tooMany) == if Atoi(d) == 0 then SeqCmpFrom([], 5, tooMany) else Some(Atoi(d));
    assert SeqCmpFrom([c, d], 3, tooMany) == SeqCmpFrom([d], 4, tooMany);
    assert SeqCmpFrom([b, c, d], 2, tooMany) == SeqCmpFrom([c, d], 3, tooMany);
  }

  lemma PrefixWords(x: string)
    ensures PREFIX + x == "This" + (" " + ("is" + (" " + ("message" + (" " + x)))))
  {
  }

  lemma NotANumber(w: string)
    requires w != [] && !IsSpace(w[0]) && !IsDigit(w[0]) && w[0] != '-' && w[0] != '+'
    ensures Atoi(w) == 0
  {
  }

  lemma NumberLine(m: nat)
    ensures IsWord(Decimal(m) + "\n", " \t") && Atoi(Decimal(m) + "\n") == m
  {
    DecimalIsDigits(m);
    AtoiOfDecimal(m, "\n");
  }

  /** A whole copy of message `m` yields `m`, except that message 0 yields nothing. */
  lemma SeqCmpOfMessage(cfg: Config, m: nat, tooMany: int)
    requires cfg.msg == PREFIX
    ensures SeqCmp(Message(cfg, m) + "\n", tooMany) == if m == 0 then None else Some(m)
  {
    var a, b, c, d := "This", "is", "message", Decimal(m) + "\n";
    assert Message(cfg, m) + "\n" == a + (" " + (b + (" " + (c + (" " + d))))) by {
      PrefixWords(d);
      assert Message(cfg, m) + "\n" == PREFIX + d;
    }
    NotANumber(a);
    NotANumber(b);
    NotANumber(c);
    NumberLine(m);
    FourWords(a, b, c, d);
    FourthNumber(a, b, c, d, tooMany);
  }

  // ----- the state

  datatype ProducerPc =
    | PSpin     // the compare-and-swap loop
    | PCopy     // strcpy(ptr, seq_msg), byte by byte
    | PRelease  // *p1 = 0
    | PSend     // sigqueue(pid[i1], SIGUSR1, val)
    | PAdvance  // ptr += 80, wrap, n++
    | PDone

  datatype ConsumerPc =
    | CFirstPause  // pause() before the loop
    | COpen        // shm_open and mmap, which may fail
    | CSpin        // the compare-and-swap loop
    | CCopy        // sprintf(split, "%s\n", ptr), byte by byte
    | CRelease     // *p1 = 0
    | CCompare     // recv_seq == seqcmp(split)
    | CAdd         // __sync_fetch_and_add(p, 1)
    | CAdvance     // ptr += 80, wrap, b++, exit test
    | CPause       // pause() at the end of the iteration
    | CDone

  /** History: one comparison. `message` is the number last written to the slot when its copy
      began. */
  datatype Receipt = Receipt(recv: int, text: string, message: int, counted: bool)

  datatype Producer = Producer(pc: ProducerPc, n: nat, slot: nat, i: nat, k: nat)

  datatype Consumer = Consumer(
    pc: ConsumerPc, b: nat, slot: nat, split: string, recv: int, pending: seq<int>,
    seen: int, log: seq<Receipt>)  // the last two are history

  datatype State = State(mem: seq<Cell>, p: Producer, cs: seq<Consumer>,
                         last: seq<int>)  // history: the last message written to each slot

  datatype Action =
    | Produce(delivered: bool)          // one producer step; whether a sigqueue got through
    | Consume(c: nat, undefined: int)   // one step of consumer c; what a seqcmp without result yields
    | Signal(c: nat)                    // the handler of consumer c runs
    | OpenFails(c: nat)

  function InitMemory(cfg: Config): seq<Cell>
    requires Usable(cfg)
  {
    seq(SLOT_SIZE * cfg.slots, (a: nat) =>
      if a == CounterAddress(cfg) || a == LockAddress(cfg) then Word(0)
      else if CounterAddress(cfg) < a < LockAddress(cfg) + 4 then WordRest
      else Ch('\0'))
  }

  function Init(cfg: Config): State
    requires Usable(cfg)
  {
    State(InitMemory(cfg),
          Producer(if cfg.dataNum == 0 then PDone else PSpin, 0, 0, 0, 0),
          seq(cfg.consumers, _ => Consumer(CFirstPause, 0, 0, "", 0, [], -1, [])),
          seq(cfg.slots, _ => -1))
  }

  /** Sizes and cell kinds, which every step needs to be defined. */
  predicate Shape(cfg: Config, s: State) {
    && Usable(cfg)
    && |s.mem| == SLOT_SIZE * cfg.slots && |s.cs| == cfg.consumers && |s.last| == cfg.slots
    && s.mem[LockAddress(cfg)].Word? && s.mem[CounterAddress(cfg)].Word?
    && s.p.slot < cfg.slots && s.p.i < MSG_SIZE
    && forall c :: 0 <= c < |s.cs| ==> CellInSlot(s.cs[c], cfg)
  }

  predicate CellInSlot(c: Consumer, cfg: Config) { c.slot < cfg.slots && |c.split| < SPLIT_SIZE }

  function Lock(cfg: Config, s: State): int
    requires Shape(cfg, s)
  {
    s.mem[LockAddress(cfg)].w
  }

  function SetLock(cfg: Config, s: State, v: int): State
    requires Shape(cfg, s)
  {
    if cfg.locked then s.(mem := s.mem[LockAddress(cfg) := Word(v)]) else s
  }

  predicate Enabled(cfg: Config, s: State, a: Action) {
    && Shape(cfg, s)
    && match a
       case Produce(_) =>
         (match s.p.pc
          case PSpin => !cfg.locked || Lock(cfg, s) == 0
          case PCopy => s.p.i <= |Message(cfg, s.p.n)|
          case PSend => s.p.k < cfg.consumers
          case PDone => false
          case _ => true)
       case Consume(c, _) =>
         c < |s.cs| &&
         (match s.cs[c].pc
          case CSpin => !cfg.locked || Lock(cfg, s) == 0
          case CCopy => s.mem[Base(s.cs[c].slot) + |s.cs[c].split|].Ch?
          case CFirstPause => false
          case CPause => false
          case CDone => false
          case _ => true)
       case Signal(c) => c < |s.cs| && s.cs[c].pending != [] && s.cs[c].pc != CDone
       case OpenFails(c) => c < |s.cs| && s.cs[c].pc == COpen
  }

  function ProducerStep(cfg: Config, s: State, delivered: bool): State
    requires Enabled(cfg, s, Produce(delivered))
  {
    var p := s.p;
    match p.pc
    case PSpin => SetLock(cfg, s, 1).(p := p.(pc := PCopy, i := 0))
    case PCopy =>
      var text := Message(cfg, p.n);
      if p.i < |text| then
        s.(mem := s.mem[Base(p.slot) + p.i := Ch(text[p.i])], p := p.(i := p.i + 1))
      else
        s.(mem := s.mem[Base(p.slot) + p.i := Ch('\0')], p := p.(pc := PRelease), last := s.last[p.slot := p.n])
    case PRelease => SetLock(cfg, s, 0).(p := p.(pc := if cfg.consumers == 0 then PAdvance else PSend, k := 0))
    case PSend =>
      var t := s.(p := p.(k := p.k + 1, pc := if p.k + 1 < cfg.consumers then PSend else PAdvance));
      if delivered then
        t.(cs := s.cs[p.k := s.cs[p.k].(pending := s.cs[p.k].pending + [p.n])])
      else t
    case PAdvance =>
      s.(p := p.(slot := NextSlot(p.slot, p.n, cfg), n := p.n + 1,
                 pc := if p.n + 1 < cfg.dataNum then PSpin else PDone))
  }

  /** sprintf("%s\n") takes one more byte, and ends the copy at the NUL. */
  function Copied(me: Consumer, ch: char): Consumer {
    if ch == '\0' then me.(pc := CRelease, split := me.split + "\n") else me.(split := me.split + [ch])
  }

  /** recv_seq is compared with seqcmp(split); seqcmp may have no defined result. */
  function Compared(cfg: Config, me: Consumer, undefined: int): Consumer {
    var result := SeqCmp(me.split, if cfg.locked then -1 else 0);
    var counted := me.recv == (match result case Some(v) => v case None => undefined);
    Noted(me, Receipt(me.recv, me.split, me.seen, counted))
  }

  function Noted(me: Consumer, r: Receipt): Consumer {
    me.(pc := if r.counted then CAdd else CAdvance, log := me.log + [r])
  }

  function Advanced(cfg: Config, me: Consumer): Consumer
    requires Usable(cfg)
  {
    me.(slot := NextSlot(me.slot, me.b, cfg), b := me.b + 1, pc := if me.b + 1 >= cfg.dataNum then CDone else CPause)
  }

  /** The handler stores the number it was sent, and ends the pause if there is one. */
  function Woken(me: Consumer): Consumer
    requires me.pending != []
  {
    me.(recv := me.pending[0], pending := me.pending[1..],
        pc := if me.pc == CFirstPause then COpen else if me.pc == CPause then CSpin else me.pc)
  }

  function ConsumerStep(cfg: Config, s: State, c: nat, undefined: int): State
    requires Enabled(cfg, s, Consume(c, undefined))
  {
    var me := s.cs[c];
    match me.pc
    case COpen => s.(cs := s.cs[c := me.(pc := CSpin)])
    case CSpin => SetLock(cfg, s, 1).(cs := s.cs[c := me.(pc := CCopy, split := "", seen := s.last[me.slot])])
    case CCopy =>
      s.(cs := s.cs[c := Copied(me, s.mem[Base(me.slot) + |me.split|].c)])
    case CRelease => SetLock(cfg, s, 0).(cs := s.cs[c := me.(pc := CCompare)])
    case CCompare => s.(cs := s.cs[c := Compared(cfg, me, undefined)])
    case CAdd =>
      s.(mem := s.mem[CounterAddress(cfg) := Word(s.mem[CounterAddress(cfg)].w + 1)],
         cs := s.cs[c := me.(pc := CAdvance)])
    case CAdvance => s.(cs := s.cs[c := Advanced(cfg, me)])
  }

  function SignalStep(cfg: Config, s: State, c: nat): State
    requires Enabled(cfg, s, Signal(c))
  {
    s.(cs := s.cs[c := Woken(s.cs[c])])
  }

  function Step(cfg: Config, s: State, a: Action): State
    requires Enabled(cfg, s, a)
  {
    match a
    case Produce(delivered) => ProducerStep(cfg, s, delivered)
    case Consume(c, undefined) => ConsumerStep(cfg, s, c, undefined)
    case Signal(c) => SignalStep(cfg, s, c)
    case OpenFails(c) => s.(cs := s.cs[c := s.cs[c].(pc := CDone)])
  }

  predicate IsRun(cfg: Config, s: State, run: seq<Action>)
    decreases run
  {
    run == [] || (Enabled(cfg, s, run[0]) && IsRun(cfg, Step(cfg, s, run[0]), run[1..]))
  }

  function After(cfg: Config, s: State, run: seq<Action>): State
    requires IsRun(cfg, s, run)
    decreases run
  {
    if run == [] then s else After(cfg, Step(cfg, s, run[0]), run[1..])
  }
}
