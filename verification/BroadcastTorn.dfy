/** How bad a copy can get without the lock of SP_HW10/program_enhanced.c: in program.c it may mix
    several messages, but only messages of its own slot, each character at its own place. */
module BroadcastTorn {
  import opened Broadcast
  import opened BroadcastSafety

  /** Some message of slot `slot` has `ch` at place `o`. */
  ghost predicate FromSlot(cfg: Config, slot: nat, o: nat, ch: char)
    requires Usable(cfg)
  {
    exists m: nat :: m < cfg.dataNum && Slot(m, cfg) == slot && o < |Message(cfg, m)| && Message(cfg, m)[o] == ch
  }

  ghost predicate CellFrom(cfg: Config, slot: nat, o: nat, cell: Cell)
    requires Usable(cfg)
  {
    cell == Ch('\0') || (cell.Ch? && FromSlot(cfg, slot, o, cell.c))
  }

  ghost predicate CellsFrom(cfg: Config, mem: seq<Cell>)
    requires Fits(cfg, mem)
  {
    forall s, o :: 0 <= s < cfg.slots && 0 <= o < MSG_SIZE ==> CellFrom(cfg, s, o, At(mem, s, o))
  }

  ghost predicate TextFrom(cfg: Config, slot: nat, text: string)
    requires Usable(cfg)
  {
    forall i :: 0 <= i < |text| ==> FromSlot(cfg, slot, i, text[i])
  }

  /** The text and the newline that sprintf puts behind it. */
  ghost predicate LineFrom(cfg: Config, slot: nat, line: string)
    requires Usable(cfg)
  {
    line != [] && line[|line| - 1] == '\n' && TextFrom(cfg, slot, line[..|line| - 1])
  }

  ghost predicate LogFrom(cfg: Config, log: seq<Receipt>)
    requires Usable(cfg)
  {
    forall j :: 0 <= j < |log| ==> LineFrom(cfg, Slot(j, cfg), log[j].text)
  }

  ghost predicate CopyFrom(cfg: Config, c: Consumer)
    requires Usable(cfg)
  {
    && (c.pc == CCopy ==> TextFrom(cfg, c.slot, c.split))
    && (c.pc == CRelease || c.pc == CCompare ==> LineFrom(cfg, c.slot, c.split))
    && LogFrom(cfg, c.log)
  }

  ghost predicate Unmixed(cfg: Config, s: State)
    requires Fits(cfg, s.mem)
  {
    CellsFrom(cfg, s.mem) && forall c :: 0 <= c < |s.cs| ==> CopyFrom(cfg, s.cs[c])
  }

  // ----- each step keeps it

  lemma CopiedFrom(cfg: Config, me: Consumer, ch: char)
    requires Usable(cfg) && me.pc == CCopy && CopyFrom(cfg, me)
    requires ch == '\0' || FromSlot(cfg, me.slot, |me.split|, ch)
    ensures CopyFrom(cfg, Copied(me, ch))
  {
    assert (me.split + "\n")[..|me.split|] == me.split;
  }

  lemma NotedFrom(cfg: Config, me: Consumer, r: Receipt)
    requires Usable(cfg) && me.pc == CCompare && CopyFrom(cfg, me) && r.text == me.split
    requires me.slot == Slot(me.b, cfg) && |me.log| == me.b
    ensures CopyFrom(cfg, Noted(me, r))
  {
    var log := Noted(me, r).log;
    forall j | 0 <= j < |log| ensures LineFrom(cfg, Slot(j, cfg), log[j].text) {
      assert j < |me.log| ==> log[j] == me.log[j];
    }
  }

  lemma AreaKeepsCells(cfg: Config, a: seq<Cell>, b: seq<Cell>)
    requires Fits(cfg, a) && Fits(cfg, b) && CellsFrom(cfg, a)
    requires forall s, o :: 0 <= s < cfg.slots && 0 <= o < MSG_SIZE ==> At(b, s, o) == At(a, s, o)
    ensures CellsFrom(cfg, b)
  {
    forall s, o | 0 <= s < cfg.slots && 0 <= o < MSG_SIZE ensures CellFrom(cfg, s, o, At(b, s, o)) {
      assert CellFrom(cfg, s, o, At(a, s, o));
    }
  }

  lemma ByteFrom(cfg: Config, mem: seq<Cell>, slot: nat, o: nat)
    requires Fits(cfg, mem) && CellsFrom(cfg, mem) && slot < cfg.slots && o < MSG_SIZE
    ensures CellFrom(cfg, slot, o, mem[Base(slot) + o])
  {
    assert CellFrom(cfg, slot, o, At(mem, slot, o));
  }

  lemma CopyByteFrom(cfg: Config, s: State, c: nat, undefined: int)
    requires Inv(cfg, s) && Unmixed(cfg, s) && Enabled(cfg, s, Consume(c, undefined)) && s.cs[c].pc == CCopy
    ensures var t := ConsumerStep(cfg, s, c, undefined);
      t.cs == s.cs[c := t.cs[c]] && CopyFrom(cfg, t.cs[c])
  {
    var me := s.cs[c];
    assert ConsumerOk(cfg, me, Signalled(s.p, c)) && CopyFrom(cfg, me);
    ByteInArea(cfg, s.mem, me.slot, |me.split|);
    ByteFrom(cfg, s.mem, me.slot, |me.split|);
    var ch := s.mem[Base(me.slot) + |me.split|].c;
    CopyStep(cfg, s, c, undefined, ch);
    CopiedFrom(cfg, me, ch);
  }

  lemma CompareFrom(cfg: Config, s: State, c: nat, undefined: int)
    requires Inv(cfg, s) && Enabled(cfg, s, Consume(c, undefined)) && s.cs[c].pc == CCompare && CopyFrom(cfg, s.cs[c])
    ensures CopyFrom(cfg, Compared(cfg, s.cs[c], undefined))
  {
    var me := s.cs[c];
    assert ConsumerOk(cfg, me, Signalled(s.p, c));
    NotedFrom(cfg, me, Compared(cfg, me, undefined).log[|me.log|]);
  }

  /** What a consumer step does to the consumer itself. */
  lemma ConsumerFrom(cfg: Config, s: State, c: nat, undefined: int)
    requires Inv(cfg, s) && Unmixed(cfg, s) && Enabled(cfg, s, Consume(c, undefined))
    ensures var t := ConsumerStep(cfg, s, c, undefined);
      t.cs == s.cs[c := t.cs[c]] && CopyFrom(cfg, t.cs[c])
  {
    assert CopyFrom(cfg, s.cs[c]);
    match s.cs[c].pc
    case CCopy => CopyByteFrom(cfg, s, c, undefined);
    case CCompare => CompareFrom(cfg, s, c, undefined);
    case _ =>
  }

  /** And to the memory. */
  lemma ConsumerCells(cfg: Config, s: State, c: nat, undefined: int)
    requires Inv(cfg, s) && CellsFrom(cfg, s.mem) && Enabled(cfg, s, Consume(c, undefined))
    ensures var t := ConsumerStep(cfg, s, c, undefined); Fits(cfg, t.mem) && CellsFrom(cfg, t.mem)
  {
    LockKeepsArea(cfg, s, 0);
    LockKeepsArea(cfg, s, 1);
    WordWrite(cfg, s.mem, CounterAddress(cfg), s.mem[CounterAddress(cfg)].w + 1);
    AreaKeepsCells(cfg, s.mem, ConsumerStep(cfg, s, c, undefined).mem);
  }

  lemma StrcpyCells(cfg: Config, s: State, delivered: bool)
    requires Inv(cfg, s) && CellsFrom(cfg, s.mem) && Enabled(cfg, s, Produce(delivered)) && s.p.pc == PCopy
    ensures var t := ProducerStep(cfg, s, delivered); Fits(cfg, t.mem) && CellsFrom(cfg, t.mem)
  {
    var p, t := s.p, ProducerStep(cfg, s, delivered);
    var cell := TextCell(Message(cfg, p.n), p.i);
    MessageWrite(cfg, s.mem, p.slot, p.i, cell.c);
    if p.i < |Message(cfg, p.n)| {
      assert FromSlot(cfg, p.slot, p.i, cell.c);
    }
    forall s', o | 0 <= s' < cfg.slots && 0 <= o < MSG_SIZE ensures CellFrom(cfg, s', o, At(t.mem, s', o)) {
      assert CellFrom(cfg, s', o, At(s.mem, s', o));
    }
  }

  lemma ProducerCells(cfg: Config, s: State, delivered: bool)
    requires Inv(cfg, s) && CellsFrom(cfg, s.mem) && Enabled(cfg, s, Produce(delivered))
    ensures var t := ProducerStep(cfg, s, delivered); Fits(cfg, t.mem) && CellsFrom(cfg, t.mem)
  {
    if s.p.pc == PCopy {
      StrcpyCells(cfg, s, delivered);
    } else {
      LockKeepsArea(cfg, s, 0);
      LockKeepsArea(cfg, s, 1);
      AreaKeepsCells(cfg, s.mem, ProducerStep(cfg, s, delivered).mem);
    }
  }

  lemma ProducerLeavesCopies(cfg: Config, s: State, delivered: bool)
    requires Usable(cfg) && Enabled(cfg, s, Produce(delivered))
    requires forall c :: 0 <= c < |s.cs| ==> CopyFrom(cfg, s.cs[c])
    ensures var t := ProducerStep(cfg, s, delivered);
      |t.cs| == |s.cs| && forall c :: 0 <= c < |t.cs| ==> CopyFrom(cfg, t.cs[c])
  {
    var t := ProducerStep(cfg, s, delivered);
    forall c | 0 <= c < |s.cs| ensures CopyFrom(cfg, t.cs[c]) {
      assert CopyFrom(cfg, s.cs[c]);
    }
  }

  /** A step that leaves the memory alone and takes consumer `c` to `me`. */
  lemma OneMoves(cfg: Config, s: State, c: nat, me: Consumer)
    requires Fits(cfg, s.mem) && Unmixed(cfg, s) && c < |s.cs| && CopyFrom(cfg, me)
    ensures Unmixed(cfg, s.(cs := s.cs[c := me]))
  {
  }

  lemma StepKeepsUnmixed(cfg: Config, s: State, a: Action)
    requires Inv(cfg, s) && Unmixed(cfg, s) && Enabled(cfg, s, a)
    ensures Fits(cfg, Step(cfg, s, a).mem) && Unmixed(cfg, Step(cfg, s, a))
  {
    match a
    case Produce(delivered) =>
      ProducerCells(cfg, s, delivered);
      ProducerLeavesCopies(cfg, s, delivered);
    case Consume(c, undefined) =>
      ConsumerFrom(cfg, s, c, undefined);
      ConsumerCells(cfg, s, c, undefined);
    case Signal(c) =>
      assert CopyFrom(cfg, s.cs[c]);
      OneMoves(cfg, s, c, Woken(s.cs[c]));
    case OpenFails(c) =>
      assert CopyFrom(cfg, s.cs[c]);
      OneMoves(cfg, s, c, s.cs[c].(pc := CDone));
  }

  lemma {:induction false} RunKeepsUnmixed(cfg: Config, s: State, run: seq<Action>)
    requires Inv(cfg, s) && Unmixed(cfg, s) && IsRun(cfg, s, run)
    ensures Fits(cfg, After(cfg, s, run).mem) && Unmixed(cfg, After(cfg, s, run))
    decreases run
  {
    if run != [] {
      StepKeepsUnmixed(cfg, s, run[0]);
      StepKeepsInv(cfg, s, run[0]);
      RunKeepsUnmixed(cfg, Step(cfg, s, run[0]), run[1..]);
    }
  }

  lemma InitUnmixed(cfg: Config)
    requires Usable(cfg)
    ensures Inv(cfg, Init(cfg)) && Unmixed(cfg, Init(cfg))
  {
    InitInv(cfg);
    var s := Init(cfg);
    forall s', o | 0 <= s' < cfg.slots && 0 <= o < MSG_SIZE ensures CellFrom(cfg, s', o, At(s.mem, s', o)) {
      assert At(s.mem, s', o) == Ch('\0');
    }
  }

  /** In every run of either program, each character of the copy compared in iteration `j` stands
      at the same place in some message m congruent to `j` modulo the number of slots; and the
      copy ends in a newline. */
  lemma CopiesMixOneSlot(cfg: Config, run: seq<Action>, c: nat, j: nat, i: nat)
    requires Usable(cfg) && IsRun(cfg, Init(cfg), run)
    requires c < |After(cfg, Init(cfg), run).cs| && j < |After(cfg, Init(cfg), run).cs[c].log|
    ensures var text := After(cfg, Init(cfg), run).cs[c].log[j].text;
      && text != [] && text[|text| - 1] == '\n'
      && (i < |text| - 1 ==>
            exists m: nat ::
              && m < cfg.dataNum && m % cfg.slots == j % cfg.slots
              && i < |Message(cfg, m)| && Message(cfg, m)[i] == text[i])
  {
    InitUnmixed(cfg);
    RunKeepsUnmixed(cfg, Init(cfg), run);
    var s := After(cfg, Init(cfg), run);
    assert CopyFrom(cfg, s.cs[c]);
    var text := s.cs[c].log[j].text;
    assert LineFrom(cfg, Slot(j, cfg), text);
    if i < |text| - 1 {
      assert text[..|text| - 1][i] == text[i];
      FromSlotMeans(cfg, j, i, text[i]);
    }
  }

  lemma FromSlotMeans(cfg: Config, j: nat, i: nat, ch: char)
    requires Usable(cfg) && FromSlot(cfg, Slot(j, cfg), i, ch)
    ensures exists m: nat ::
      && m < cfg.dataNum && m % cfg.slots == j % cfg.slots
      && i < |Message(cfg, m)| && Message(cfg, m)[i] == ch
  {
    var m: nat :| m < cfg.dataNum && Slot(m, cfg) == Slot(j, cfg) && i < |Message(cfg, m)| && Message(cfg, m)[i] == ch;
    SlotIsRemainder(m, cfg);
    SlotIsRemainder(j, cfg);
  }
}
