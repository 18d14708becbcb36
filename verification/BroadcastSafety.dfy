/** What holds in every run of the broadcast of SP_HW10, for any number of consumers and any
    pattern of dropped signals. */
module BroadcastSafety {
  import opened Broadcast

  // ----- memory

  /** The cell at offset `o` of slot `slot`. */
  function At(mem: seq<Cell>, slot: nat, o: nat): Cell
    requires Base(slot) + o < |mem|
  {
    mem[Base(slot) + o]
  }

  predicate Fits(cfg: Config, mem: seq<Cell>) { Usable(cfg) && |mem| == SLOT_SIZE * cfg.slots }

  /** The first 40 bytes of every slot are message bytes, and from byte 27 on they are NUL. */
  predicate MessageArea(cfg: Config, mem: seq<Cell>)
    requires Fits(cfg, mem)
  {
    forall s, o :: 0 <= s < cfg.slots && 0 <= o < MSG_SIZE ==>
      At(mem, s, o).Ch? && (o >= 27 ==> At(mem, s, o) == Ch('\0'))
  }

  function TextCell(text: string, o: nat): Cell { if o < |text| then Ch(text[o]) else Ch('\0') }

  /** Slot `slot` starts with `text` and its NUL. */
  predicate SlotHolds(cfg: Config, mem: seq<Cell>, slot: nat, text: string)
    requires Fits(cfg, mem) && slot < cfg.slots && |text| < MSG_SIZE
  {
    forall o :: 0 <= o <= |text| ==> At(mem, slot, o) == TextCell(text, o)
  }

  lemma MessageWrite(cfg: Config, mem: seq<Cell>, slot: nat, i: nat, c: char)
    requires Fits(cfg, mem) && slot < cfg.slots && i < MSG_SIZE
    ensures var m := mem[Base(slot) + i := Ch(c)];
            && (forall s, o :: 0 <= s < cfg.slots && 0 <= o < MSG_SIZE ==>
                  At(m, s, o) == if s == slot && o == i then Ch(c) else At(mem, s, o))
            && m[LockAddress(cfg)] == mem[LockAddress(cfg)]
            && m[CounterAddress(cfg)] == mem[CounterAddress(cfg)]
  {
  }

  lemma WordWrite(cfg: Config, mem: seq<Cell>, a: nat, v: int)
    requires Fits(cfg, mem) && (a == LockAddress(cfg) || a == CounterAddress(cfg))
    ensures var m := mem[a := Word(v)];
            forall s, o :: 0 <= s < cfg.slots && 0 <= o < MSG_SIZE ==> At(m, s, o) == At(mem, s, o)
  {
  }

  // ----- the producer and its signals

  /** How many messages are completely written. */
  function Written(p: Producer): nat {
    if p.pc == PRelease || p.pc == PSend || p.pc == PAdvance then p.n + 1 else p.n
  }

  /** How many messages have been signalled to consumer `c`. */
  function Signalled(p: Producer, c: nat): nat {
    if (p.pc == PSend && c < p.k) || p.pc == PAdvance then p.n + 1 else p.n
  }

  predicate ProducerOk(cfg: Config, p: Producer)
    requires Usable(cfg)
  {
    && p.slot == Slot(p.n, cfg)
    && (if p.pc == PDone then p.n == cfg.dataNum else p.n < cfg.dataNum)
    && (p.pc == PCopy ==> p.i <= |Message(cfg, p.n)|)
    && (p.pc == PSend ==> p.k < cfg.consumers)
  }

  /** Slot `slot` was last written with a message that belongs there, or not at all. */
  predicate InItsSlot(cfg: Config, last: seq<int>, slot: nat, written: nat)
    requires Usable(cfg) && slot < |last|
  {
    -1 <= last[slot] < written && (last[slot] >= 0 ==> Slot(last[slot], cfg) == slot)
  }

  /** The slot of message `v` holds `v` or a later message. */
  predicate Overtaken(cfg: Config, last: seq<int>, v: nat)
    requires Usable(cfg) && |last| == cfg.slots
  {
    last[Slot(v, cfg)] >= v
  }

  predicate LastOk(cfg: Config, written: nat, last: seq<int>)
    requires Usable(cfg)
  {
    && |last| == cfg.slots
    && (forall s :: 0 <= s < |last| ==> InItsSlot(cfg, last, s, written))
    && (forall v :: 0 <= v < written ==> Overtaken(cfg, last, v))
  }

  // ----- one consumer

  predicate Increasing(values: seq<int>) {
    forall i, j :: 0 <= i < j < |values| ==> values[i] < values[j]
  }

  predicate LogIncreasing(log: seq<Receipt>) {
    && (forall i, j :: 0 <= i < j < |log| ==> log[i].recv < log[j].recv)
    && (forall i :: 0 <= i < |log| ==> log[i].recv >= i)
  }

  predicate Looping(c: Consumer) {
    c.pc != CFirstPause && c.pc != CPause && c.pc != CDone
  }

  /** Between waking up and comparing. */
  predicate Awake(c: Consumer) {
    c.pc == COpen || c.pc == CSpin || c.pc == CCopy || c.pc == CRelease || c.pc == CCompare
  }

  /** Where the consumer is: iteration, slot and copy. */
  predicate LoopOk(cfg: Config, c: Consumer)
    requires Usable(cfg)
  {
    && (c.pc != CDone ==> c.slot == Slot(c.b, cfg))
    && (Looping(c) || c.pc == CPause ==> c.b < cfg.dataNum)
    && (c.pc == CDone ==> |c.log| <= cfg.dataNum)
    && (c.pc != CDone ==> |c.log| == c.b + (if c.pc == CAdd || c.pc == CAdvance then 1 else 0))
    && (c.pc == CFirstPause ==> c.b == 0)
    && (c.pc == CAdd ==> c.log[|c.log| - 1].counted)
    && (c.pc == CCopy ==> |c.split| <= 27)
    && |c.split| <= 28
  }

  /** The numbers it received: those compared so far, then recv_seq, then those still pending. */
  predicate OrderOk(c: Consumer, signalled: nat) {
    && LogIncreasing(c.log) && Increasing(c.pending)
    && (forall i :: 0 <= i < |c.pending| ==> 0 <= c.pending[i] < signalled)
    && (c.pc != CFirstPause ==> c.recv < signalled && forall i :: 0 <= i < |c.pending| ==> c.recv < c.pending[i])
    && (c.log != [] ==> c.pc != CFirstPause && c.log[|c.log| - 1].recv <= c.recv)
    && (Awake(c) ==> c.recv >= c.b && (c.log != [] ==> c.log[|c.log| - 1].recv < c.recv))
  }

  predicate ConsumerOk(cfg: Config, c: Consumer, signalled: nat)
    requires Usable(cfg)
  {
    LoopOk(cfg, c) && OrderOk(c, signalled) && signalled <= cfg.dataNum
  }

  // ----- the counter

  function Counted(log: seq<Receipt>): nat {
    if log == [] then 0 else Counted(log[..|log| - 1]) + (if log[|log| - 1].counted then 1 else 0)
  }

  /** The matches of one consumer that have reached the counter. */
  function Added(c: Consumer): int { Counted(c.log) - (if c.pc == CAdd then 1 else 0) }

  function TotalAdded(cs: seq<Consumer>): int {
    if cs == [] then 0 else TotalAdded(cs[..|cs| - 1]) + Added(cs[|cs| - 1])
  }

  lemma {:induction false} TotalAddedUpdate(cs: seq<Consumer>, c: nat, me: Consumer)
    requires c < |cs|
    ensures TotalAdded(cs[c := me]) == TotalAdded(cs) - Added(cs[c]) + Added(me)
  {
    var n := |cs| - 1;
    if c == n {
      assert cs[c := me][..n] == cs[..n];
    } else {
      TotalAddedUpdate(cs[..n], c, me);
      assert cs[c := me][..n] == cs[..n][c := me];
    }
  }

  /** The part of the invariant that needs no lock. */
  predicate Inv(cfg: Config, s: State) {
    && Shape(cfg, s)
    && MessageArea(cfg, s.mem)
    && ProducerOk(cfg, s.p)
    && LastOk(cfg, Written(s.p), s.last)
    && (forall c :: 0 <= c < |s.cs| ==> ConsumerOk(cfg, s.cs[c], Signalled(s.p, c)))
    && s.mem[CounterAddress(cfg)].w == TotalAdded(s.cs)
  }

  // ----- each step keeps it

  /** A step that changes only consumer `c`, its view of the memory and the two words. */
  lemma ConsumerChange(cfg: Config, s: State, t: State, c: nat, me: Consumer)
    requires Inv(cfg, s) && c < |s.cs|
    requires t.p == s.p && t.last == s.last && t.cs == s.cs[c := me]
    requires |t.mem| == |s.mem| && t.mem[LockAddress(cfg)].Word? && t.mem[CounterAddress(cfg)].Word?
    requires forall s', o :: 0 <= s' < cfg.slots && 0 <= o < MSG_SIZE ==> At(t.mem, s', o) == At(s.mem, s', o)
    requires ConsumerOk(cfg, me, Signalled(s.p, c)) && CellInSlot(me, cfg)
    requires t.mem[CounterAddress(cfg)].w - s.mem[CounterAddress(cfg)].w == Added(me) - Added(s.cs[c])
    ensures Inv(cfg, t)
  {
    TotalAddedUpdate(s.cs, c, me);
  }

  /** A step that changes only consumer `c`. */
  lemma ConsumerOnly(cfg: Config, s: State, c: nat, me: Consumer)
    requires Inv(cfg, s) && c < |s.cs|
    requires ConsumerOk(cfg, me, Signalled(s.p, c)) && CellInSlot(me, cfg) && Added(me) == Added(s.cs[c])
    ensures Inv(cfg, s.(cs := s.cs[c := me]))
  {
    ConsumerChange(cfg, s, s.(cs := s.cs[c := me]), c, me);
  }

  lemma LockKeepsArea(cfg: Config, s: State, v: int)
    requires Shape(cfg, s)
    ensures var t := SetLock(cfg, s, v);
            && Shape(cfg, t) && t.p == s.p && t.cs == s.cs && t.last == s.last
            && t.mem[CounterAddress(cfg)] == s.mem[CounterAddress(cfg)]
            && (forall s', o :: 0 <= s' < cfg.slots && 0 <= o < MSG_SIZE ==> At(t.mem, s', o) == At(s.mem, s', o))
  {
    WordWrite(cfg, s.mem, LockAddress(cfg), v);
  }

  lemma CountedAppend(log: seq<Receipt>, r: Receipt)
    ensures Counted(log + [r]) == Counted(log) + (if r.counted then 1 else 0)
  {
    assert (log + [r])[..|log|] == log;
  }

  lemma NotedOk(cfg: Config, me: Consumer, r: Receipt, signalled: nat)
    requires Usable(cfg) && ConsumerOk(cfg, me, signalled) && me.pc == CCompare && r.recv == me.recv
    ensures ConsumerOk(cfg, Noted(me, r), signalled)
    ensures Added(Noted(me, r)) == Added(me)
  {
    CountedAppend(me.log, r);
    var log := Noted(me, r).log;
    assert LogIncreasing(log) by {
      forall i | 0 <= i < |me.log| ensures me.log[i].recv < r.recv {
        assert me.log[|me.log| - 1].recv < me.recv;
      }
    }
  }

  lemma ComparedOk(cfg: Config, me: Consumer, signalled: nat, undefined: int)
    requires Usable(cfg) && ConsumerOk(cfg, me, signalled) && me.pc == CCompare
    ensures ConsumerOk(cfg, Compared(cfg, me, undefined), signalled)
    ensures Added(Compared(cfg, me, undefined)) == Added(me)
  {
    NotedOk(cfg, me, Compared(cfg, me, undefined).log[|me.log|], signalled);
  }

  lemma CopiedOk(cfg: Config, me: Consumer, ch: char, signalled: nat)
    requires Usable(cfg) && ConsumerOk(cfg, me, signalled) && me.pc == CCopy
    requires |me.split| == 27 ==> ch == '\0'
    ensures ConsumerOk(cfg, Copied(me, ch), signalled) && Added(Copied(me, ch)) == Added(me)
    ensures |Copied(me, ch).split| <= 28
  {
    var me' := Copied(me, ch);
    MovedOk(cfg, me, me'.pc, me'.split, me'.seen, signalled);
  }

  lemma AdvancedOk(cfg: Config, me: Consumer, signalled: nat)
    requires Usable(cfg) && ConsumerOk(cfg, me, signalled) && me.pc == CAdvance
    ensures ConsumerOk(cfg, Advanced(cfg, me), signalled) && Added(Advanced(cfg, me)) == Added(me)
    ensures Advanced(cfg, me).slot < cfg.slots
  {
    NextSlotIsSlot(me.b, cfg);
  }

  lemma WokenOk(cfg: Config, me: Consumer, signalled: nat)
    requires Usable(cfg) && ConsumerOk(cfg, me, signalled) && me.pending != [] && me.pc != CDone
    ensures ConsumerOk(cfg, Woken(me), signalled) && Added(Woken(me)) == Added(me)
  {
    if me.log != [] {
      assert me.log[|me.log| - 1].recv >= |me.log| - 1;
    }
    assert me.pending[0] < signalled;
  }

  /** Moving on without comparing, receiving or ending the iteration. */
  lemma MovedOk(cfg: Config, me: Consumer, pc: ConsumerPc, split: string, seen: int, signalled: nat)
    requires Usable(cfg) && ConsumerOk(cfg, me, signalled)
    requires if me.pc == CAdd then pc == CAdvance
             else Awake(me) && (pc == CSpin || pc == CCopy || pc == CRelease || pc == CCompare)
    requires |split| <= (if pc == CCopy then 27 else 28)
    ensures ConsumerOk(cfg, me.(pc := pc, split := split, seen := seen), signalled)
    ensures Added(me.(pc := pc, split := split, seen := seen)) == Added(me) + (if me.pc == CAdd then 1 else 0)
  {
  }

  lemma SpinKeepsInv(cfg: Config, s: State, c: nat, undefined: int)
    requires Inv(cfg, s) && Enabled(cfg, s, Consume(c, undefined))
    requires s.cs[c].pc == CSpin || s.cs[c].pc == CRelease
    ensures Inv(cfg, ConsumerStep(cfg, s, c, undefined))
  {
    var me, me' := s.cs[c], ConsumerStep(cfg, s, c, undefined).cs[c];
    MovedOk(cfg, me, me'.pc, me'.split, me'.seen, Signalled(s.p, c));
    LockKeepsArea(cfg, s, if me.pc == CSpin then 1 else 0);
    ConsumerChange(cfg, s, ConsumerStep(cfg, s, c, undefined), c, me');
  }

  lemma ByteInArea(cfg: Config, mem: seq<Cell>, slot: nat, o: nat)
    requires Fits(cfg, mem) && MessageArea(cfg, mem) && slot < cfg.slots && o < MSG_SIZE
    ensures mem[Base(slot) + o].Ch? && (o >= 27 ==> mem[Base(slot) + o] == Ch('\0'))
  {
    assert At(mem, slot, o) == mem[Base(slot) + o];
  }

  /** One byte taken by consumer `c`. */
  lemma CopyStep(cfg: Config, t: State, c: nat, undefined: int, ch: char)
    requires Shape(cfg, t) && c < |t.cs| && t.cs[c].pc == CCopy
    requires Base(t.cs[c].slot) + |t.cs[c].split| < |t.mem|
    requires t.mem[Base(t.cs[c].slot) + |t.cs[c].split|] == Ch(ch)
    ensures Enabled(cfg, t, Consume(c, undefined))
    ensures Step(cfg, t, Consume(c, undefined)) == t.(cs := t.cs[c := Copied(t.cs[c], ch)])
  {
  }

  lemma CopyByteKeepsInv(cfg: Config, s: State, c: nat)
    requires Inv(cfg, s) && c < |s.cs| && s.cs[c].pc == CCopy
    ensures var cell := s.mem[Base(s.cs[c].slot) + |s.cs[c].split|];
            cell.Ch? && Inv(cfg, s.(cs := s.cs[c := Copied(s.cs[c], cell.c)]))
  {
    var me := s.cs[c];
    assert ConsumerOk(cfg, me, Signalled(s.p, c)) && CellInSlot(me, cfg);
    ByteInArea(cfg, s.mem, me.slot, |me.split|);
    var ch := s.mem[Base(me.slot) + |me.split|].c;
    CopiedOk(cfg, me, ch, Signalled(s.p, c));
    ConsumerOnly(cfg, s, c, Copied(me, ch));
  }

  lemma AddKeepsInv(cfg: Config, s: State, c: nat, undefined: int)
    requires Inv(cfg, s) && Enabled(cfg, s, Consume(c, undefined)) && s.cs[c].pc == CAdd
    ensures Inv(cfg, ConsumerStep(cfg, s, c, undefined))
  {
    var me := s.cs[c];
    MovedOk(cfg, me, CAdvance, me.split, me.seen, Signalled(s.p, c));
    WordWrite(cfg, s.mem, CounterAddress(cfg), s.mem[CounterAddress(cfg)].w + 1);
    ConsumerChange(cfg, s, ConsumerStep(cfg, s, c, undefined), c, me.(pc := CAdvance));
  }

  lemma ConsumerKeepsInv(cfg: Config, s: State, c: nat, undefined: int)
    requires Inv(cfg, s) && Enabled(cfg, s, Consume(c, undefined))
    ensures Inv(cfg, ConsumerStep(cfg, s, c, undefined))
  {
    var me, k := s.cs[c], Signalled(s.p, c);
    assert ConsumerOk(cfg, me, k) && CellInSlot(me, cfg);
    match me.pc
    case COpen =>
      MovedOk(cfg, me, CSpin, me.split, me.seen, k);
      ConsumerOnly(cfg, s, c, me.(pc := CSpin));
    case CSpin => SpinKeepsInv(cfg, s, c, undefined);
    case CCopy => CopyByteKeepsInv(cfg, s, c);
    case CRelease => SpinKeepsInv(cfg, s, c, undefined);
    case CCompare =>
      ComparedOk(cfg, me, k, undefined);
      ConsumerOnly(cfg, s, c, Compared(cfg, me, undefined));
    case CAdd => AddKeepsInv(cfg, s, c, undefined);
    case CAdvance =>
      AdvancedOk(cfg, me, k);
      ConsumerOnly(cfg, s, c, Advanced(cfg, me));
  }

  lemma SignalKeepsInv(cfg: Config, s: State, c: nat)
    requires Inv(cfg, s) && Enabled(cfg, s, Signal(c))
    ensures Inv(cfg, SignalStep(cfg, s, c))
  {
    var me, k := s.cs[c], Signalled(s.p, c);
    assert ConsumerOk(cfg, me, k) && CellInSlot(me, cfg);
    WokenOk(cfg, me, k);
    ConsumerOnly(cfg, s, c, Woken(me));
  }

  lemma OpenFailureKeepsInv(cfg: Config, s: State, c: nat)
    requires Inv(cfg, s) && Enabled(cfg, s, OpenFails(c))
    ensures Inv(cfg, Step(cfg, s, OpenFails(c)))
  {
    var me := s.cs[c];
    assert ConsumerOk(cfg, me, Signalled(s.p, c)) && CellInSlot(me, cfg);
    ConsumerOnly(cfg, s, c, me.(pc := CDone));
  }

  /** A step that changes only the producer and the memory. */
  lemma ProducerChange(cfg: Config, s: State, t: State)
    requires Inv(cfg, s) && t.cs == s.cs
    requires |t.mem| == |s.mem| && MessageArea(cfg, t.mem)
    requires t.mem[LockAddress(cfg)].Word? && t.mem[CounterAddress(cfg)] == s.mem[CounterAddress(cfg)]
    requires ProducerOk(cfg, t.p) && t.p.i < MSG_SIZE && LastOk(cfg, Written(t.p), t.last)
    requires forall c :: 0 <= c < |s.cs| ==> Signalled(s.p, c) <= Signalled(t.p, c)
    ensures Inv(cfg, t)
  {
    forall c | 0 <= c < |t.cs| ensures ConsumerOk(cfg, t.cs[c], Signalled(t.p, c)) {
      assert ConsumerOk(cfg, s.cs[c], Signalled(s.p, c));
    }
  }

  lemma CopyKeepsArea(cfg: Config, mem: seq<Cell>, p: Producer)
    requires Fits(cfg, mem) && MessageArea(cfg, mem) && p.slot < cfg.slots && p.n <= INT_MAX
    requires p.i <= |Message(cfg, p.n)|
    ensures p.i + 1 < MSG_SIZE
    ensures var m := mem[Base(p.slot) + p.i := TextCell(Message(cfg, p.n), p.i)];
            && MessageArea(cfg, m)
            && m[LockAddress(cfg)] == mem[LockAddress(cfg)]
            && m[CounterAddress(cfg)] == mem[CounterAddress(cfg)]
  {
    MessageFits(cfg, p.n);
    MessageWrite(cfg, mem, p.slot, p.i, TextCell(Message(cfg, p.n), p.i).c);
  }

  lemma LastKept(cfg: Config, n: nat, slot: nat, last: seq<int>)
    requires Usable(cfg) && LastOk(cfg, n, last) && slot == Slot(n, cfg)
    ensures LastOk(cfg, n + 1, last[slot := n])
  {
    var last', written := last[slot := n], n + 1;
    forall s | 0 <= s < |last'| ensures InItsSlot(cfg, last', s, written) {
      assert InItsSlot(cfg, last, s, n);
    }
    forall v | 0 <= v < written ensures Overtaken(cfg, last', v) {
      assert v < n ==> Overtaken(cfg, last, v);
    }
  }

  lemma CopyCharKeepsInv(cfg: Config, s: State)
    requires Inv(cfg, s) && s.p.pc == PCopy && s.p.i < |Message(cfg, s.p.n)|
    ensures var m := s.mem[Base(s.p.slot) + s.p.i := Ch(Message(cfg, s.p.n)[s.p.i])];
            Inv(cfg, s.(mem := m, p := s.p.(i := s.p.i + 1)))
  {
    var m := s.mem[Base(s.p.slot) + s.p.i := Ch(Message(cfg, s.p.n)[s.p.i])];
    CopyKeepsArea(cfg, s.mem, s.p);
    ProducerChange(cfg, s, s.(mem := m, p := s.p.(i := s.p.i + 1)));
  }

  lemma CopyNulKeepsInv(cfg: Config, s: State)
    requires Inv(cfg, s) && s.p.pc == PCopy && s.p.i == |Message(cfg, s.p.n)|
    ensures var m := s.mem[Base(s.p.slot) + s.p.i := Ch('\0')];
            Inv(cfg, s.(mem := m, p := s.p.(pc := PRelease), last := s.last[s.p.slot := s.p.n]))
  {
    var m := s.mem[Base(s.p.slot) + s.p.i := Ch('\0')];
    CopyKeepsArea(cfg, s.mem, s.p);
    LastKept(cfg, s.p.n, s.p.slot, s.last);
    ProducerChange(cfg, s, s.(mem := m, p := s.p.(pc := PRelease), last := s.last[s.p.slot := s.p.n]));
  }

  lemma CopyKeepsInv(cfg: Config, s: State, delivered: bool)
    requires Inv(cfg, s) && Enabled(cfg, s, Produce(delivered)) && s.p.pc == PCopy
    ensures Inv(cfg, ProducerStep(cfg, s, delivered))
  {
    if s.p.i < |Message(cfg, s.p.n)| {
      CopyCharKeepsInv(cfg, s);
    } else {
      CopyNulKeepsInv(cfg, s);
    }
  }

  lemma SendKeepsInv(cfg: Config, s: State, delivered: bool)
    requires Inv(cfg, s) && Enabled(cfg, s, Produce(delivered)) && s.p.pc == PSend
    ensures Inv(cfg, ProducerStep(cfg, s, delivered))
  {
    var t := ProducerStep(cfg, s, delivered);
    var u := s.(p := t.p);
    ProducerChange(cfg, s, u);
    if delivered {
      var k := s.p.k;
      assert ConsumerOk(cfg, s.cs[k], Signalled(s.p, k)) && CellInSlot(s.cs[k], cfg);
      PendingOk(cfg, s.cs[k], Signalled(s.p, k));
      ConsumerOnly(cfg, u, k, t.cs[k]);
    }
  }

  lemma PendingOk(cfg: Config, me: Consumer, n: nat)
    requires Usable(cfg) && ConsumerOk(cfg, me, n) && n < cfg.dataNum
    ensures var me' := me.(pending := me.pending + [n]); ConsumerOk(cfg, me', n + 1) && Added(me') == Added(me)
  {
  }

  lemma ProducerLockKeepsInv(cfg: Config, s: State, delivered: bool)
    requires Inv(cfg, s) && Enabled(cfg, s, Produce(delivered)) && (s.p.pc == PSpin || s.p.pc == PRelease)
    ensures Inv(cfg, ProducerStep(cfg, s, delivered))
  {
    LockKeepsArea(cfg, s, if s.p.pc == PSpin then 1 else 0);
    ProducerChange(cfg, s, ProducerStep(cfg, s, delivered));
  }

  lemma AdvanceKeepsInv(cfg: Config, s: State, delivered: bool)
    requires Inv(cfg, s) && Enabled(cfg, s, Produce(delivered)) && s.p.pc == PAdvance
    ensures Inv(cfg, ProducerStep(cfg, s, delivered))
  {
    NextSlotIsSlot(s.p.n, cfg);
    ProducerChange(cfg, s, ProducerStep(cfg, s, delivered));
  }

  lemma ProducerKeepsInv(cfg: Config, s: State, delivered: bool)
    requires Inv(cfg, s) && Enabled(cfg, s, Produce(delivered))
    ensures Inv(cfg, ProducerStep(cfg, s, delivered))
  {
    match s.p.pc
    case PSpin => ProducerLockKeepsInv(cfg, s, delivered);
    case PCopy => CopyKeepsInv(cfg, s, delivered);
    case PRelease => ProducerLockKeepsInv(cfg, s, delivered);
    case PSend => SendKeepsInv(cfg, s, delivered);
    case PAdvance => AdvanceKeepsInv(cfg, s, delivered);
  }

  lemma StepKeepsInv(cfg: Config, s: State, a: Action)
    requires Inv(cfg, s) && Enabled(cfg, s, a)
    ensures Inv(cfg, Step(cfg, s, a))
  {
    match a
    case Produce(delivered) => ProducerKeepsInv(cfg, s, delivered);
    case Consume(c, undefined) => ConsumerKeepsInv(cfg, s, c, undefined);
    case Signal(c) => SignalKeepsInv(cfg, s, c);
    case OpenFails(c) => OpenFailureKeepsInv(cfg, s, c);
  }

  lemma {:induction false} RunKeepsInv(cfg: Config, s: State, run: seq<Action>)
    requires Inv(cfg, s) && IsRun(cfg, s, run)
    ensures Inv(cfg, After(cfg, s, run))
    decreases run
  {
    if run != [] {
      StepKeepsInv(cfg, s, run[0]);
      RunKeepsInv(cfg, Step(cfg, s, run[0]), run[1..]);
    }
  }

  lemma {:induction false} NoneAdded(cs: seq<Consumer>)
    requires forall c :: 0 <= c < |cs| ==> cs[c].log == [] && cs[c].pc == CFirstPause
    ensures TotalAdded(cs) == 0
  {
    if cs != [] {
      NoneAdded(cs[..|cs| - 1]);
    }
  }

  lemma InitInv(cfg: Config)
    requires Usable(cfg)
    ensures Inv(cfg, Init(cfg))
  {
    var s := Init(cfg);
    NoneAdded(s.cs);
    assert Slot(0, cfg) == 0;
  }
}
