/** What the spin lock of program_enhanced.c adds to the invariant: mutual exclusion and untorn
    copies. */
module BroadcastLocked {
  import opened CStrings
  import opened Broadcast
  import opened BroadcastSafety

  // ----- with the lock

  predicate InSection(c: Consumer) { c.pc == CCopy || c.pc == CRelease }

  predicate ProducerInSection(p: Producer) { p.pc == PCopy || p.pc == PRelease }

  function Inside(cs: seq<Consumer>): nat {
    if cs == [] then 0 else Inside(cs[..|cs| - 1]) + (if InSection(cs[|cs| - 1]) then 1 else 0)
  }

  lemma {:induction false} InsideUpdate(cs: seq<Consumer>, c: nat, me: Consumer)
    requires c < |cs|
    ensures Inside(cs[c := me])
            == Inside(cs) - (if InSection(cs[c]) then 1 else 0) + (if InSection(me) then 1 else 0)
  {
    var n := |cs| - 1;
    if c == n {
      assert cs[c := me][..n] == cs[..n];
    } else {
      InsideUpdate(cs[..n], c, me);
      assert cs[c := me][..n] == cs[..n][c := me];
    }
  }

  lemma {:induction false} InsideAtLeast(cs: seq<Consumer>, c: nat)
    requires c < |cs| && InSection(cs[c])
    ensures Inside(cs) >= 1
    ensures forall d :: 0 <= d < |cs| && d != c && InSection(cs[d]) ==> Inside(cs) >= 2
  {
    var n := |cs| - 1;
    if c < n {
      InsideAtLeast(cs[..n], c);
    } else if exists d :: 0 <= d < n && InSection(cs[d]) {
      var d :| 0 <= d < n && InSection(cs[d]);
      InsideAtLeast(cs[..n], d);
    }
  }

  lemma {:induction false} InsideNone(cs: seq<Consumer>)
    requires forall c :: 0 <= c < |cs| ==> !InSection(cs[c])
    ensures Inside(cs) == 0
  {
    if cs != [] {
      InsideNone(cs[..|cs| - 1]);
    }
  }

  /** The lock word counts the processes between their CAS and their release: none or one. */
  predicate Mutex(cfg: Config, s: State)
    requires Shape(cfg, s)
  {
    && Lock(cfg, s) == Inside(s.cs) + (if ProducerInSection(s.p) then 1 else 0)
    && Lock(cfg, s) <= 1
  }

  predicate Holds(cfg: Config, mem: seq<Cell>, slot: nat, m: int)
    requires Fits(cfg, mem) && slot < cfg.slots
  {
    |Content(cfg, m)| < MSG_SIZE && SlotHolds(cfg, mem, slot, Content(cfg, m))
  }

  /** Every slot holds its last message whole, except the one being written, which holds the
      beginning of the new one. */
  predicate Contents(cfg: Config, mem: seq<Cell>, p: Producer, last: seq<int>)
    requires Fits(cfg, mem) && |last| == cfg.slots && p.slot < cfg.slots && p.i < MSG_SIZE
  {
    && (forall slot :: 0 <= slot < cfg.slots && !(p.pc == PCopy && slot == p.slot) ==>
          Holds(cfg, mem, slot, last[slot]))
    && (p.pc == PCopy ==> forall o :: 0 <= o < p.i ==> At(mem, p.slot, o) == TextCell(Message(cfg, p.n), o))
  }

  /** A comparison made with an untorn copy of a message that belongs to iteration `j`. */
  predicate ReceiptOk(cfg: Config, r: Receipt, j: nat)
    requires Usable(cfg)
  {
    && r.message >= j && Slot(r.message, cfg) == Slot(j, cfg)
    && r.text == Message(cfg, r.message) + "\n" && |r.text| < SPLIT_SIZE
    && (SeqCmp(r.text, -1).Some? ==> (r.counted <==> r.recv == SeqCmp(r.text, -1).value))
  }

  predicate CopyOk(cfg: Config, c: Consumer, last: seq<int>)
    requires Usable(cfg) && |last| == cfg.slots
  {
    && (c.pc == CCopy ==>
          && c.slot < cfg.slots && c.seen == last[c.slot]
          && |c.split| <= |Content(cfg, c.seen)|
          && c.split == Content(cfg, c.seen)[..|c.split|])
    && (c.pc == CRelease || c.pc == CCompare ==> c.split == Content(cfg, c.seen) + "\n")
    && (c.pc == CCopy || c.pc == CRelease || c.pc == CCompare ==>
          c.seen >= c.b && Slot(c.seen, cfg) == Slot(c.b, cfg))
  }

  predicate LogOk(cfg: Config, log: seq<Receipt>)
    requires Usable(cfg)
  {
    forall j :: 0 <= j < |log| ==> ReceiptOk(cfg, log[j], j)
  }

  predicate SnapshotsOk(cfg: Config, c: Consumer, last: seq<int>)
    requires Usable(cfg) && |last| == cfg.slots
  {
    CopyOk(cfg, c, last) && LogOk(cfg, c.log)
  }

  predicate Guarded(cfg: Config, s: State)
    requires Shape(cfg, s)
  {
    && cfg.locked
    && Mutex(cfg, s)
    && Contents(cfg, s.mem, s.p, s.last)
    && (forall c :: 0 <= c < |s.cs| ==> SnapshotsOk(cfg, s.cs[c], s.last))
  }

  lemma InitGuarded(cfg: Config)
    requires Usable(cfg) && cfg.locked
    ensures Inv(cfg, Init(cfg)) && Guarded(cfg, Init(cfg))
  {
    InitInv(cfg);
    var s := Init(cfg);
    InsideNone(s.cs);
    forall slot | 0 <= slot < cfg.slots ensures Holds(cfg, s.mem, slot, s.last[slot]) {
      assert At(s.mem, slot, 0) == Ch('\0');
    }
  }

  predicate SameArea(cfg: Config, a: seq<Cell>, b: seq<Cell>)
    requires Fits(cfg, a) && Fits(cfg, b)
  {
    forall s, o :: 0 <= s < cfg.slots && 0 <= o < MSG_SIZE ==> At(a, s, o) == At(b, s, o)
  }

  lemma SameAreaKeepsContents(cfg: Config, a: seq<Cell>, b: seq<Cell>, p: Producer, last: seq<int>)
    requires Fits(cfg, a) && Fits(cfg, b) && SameArea(cfg, a, b)
    requires |last| == cfg.slots && p.slot < cfg.slots && p.i < MSG_SIZE && Contents(cfg, a, p, last)
    ensures Contents(cfg, b, p, last)
  {
    forall slot | 0 <= slot < cfg.slots && !(p.pc == PCopy && slot == p.slot) ensures Holds(cfg, b, slot, last[slot]) {
      assert Holds(cfg, a, slot, last[slot]);
    }
  }

  /** A step of consumer `c` that leaves the message bytes, the producer and `last` alone. */
  lemma ConsumerStaysGuarded(cfg: Config, s: State, t: State, c: nat, me: Consumer)
    requires Shape(cfg, s) && Shape(cfg, t) && Guarded(cfg, s) && c < |s.cs|
    requires t.p == s.p && t.last == s.last && t.cs == s.cs[c := me] && SameArea(cfg, s.mem, t.mem)
    requires SnapshotsOk(cfg, me, s.last)
    requires Lock(cfg, t) - Lock(cfg, s)
             == (if InSection(me) then 1 else 0) - (if InSection(s.cs[c]) then 1 else 0)
    requires Lock(cfg, t) <= 1
    ensures Guarded(cfg, t)
  {
    InsideUpdate(s.cs, c, me);
    SameAreaKeepsContents(cfg, s.mem, t.mem, s.p, s.last);
  }

  // ----- consumer steps

  lemma ContentHasNoNul(cfg: Config, m: int)
    requires Usable(cfg)
    ensures '\0' !in Content(cfg, m)
  {
    if m >= 0 {
      DecimalIsDigits(m);
      assert forall i :: 0 <= i < |Decimal(m)| ==> Decimal(m)[i] != '\0';
    }
  }

  /** One byte of a copy made inside the section: it extends the prefix, or ends at the NUL. */
  lemma CopiedSnapshot(cfg: Config, mem: seq<Cell>, me: Consumer, last: seq<int>)
    requires Fits(cfg, mem) && |last| == cfg.slots && me.pc == CCopy && SnapshotsOk(cfg, me, last)
    requires me.slot < cfg.slots && Holds(cfg, mem, me.slot, last[me.slot])
    ensures At(mem, me.slot, |me.split|).Ch?
    ensures SnapshotsOk(cfg, Copied(me, At(mem, me.slot, |me.split|).c), last)
  {
    var text := Content(cfg, me.seen);
    ContentHasNoNul(cfg, me.seen);
    assert At(mem, me.slot, |me.split|) == TextCell(text, |me.split|);
    if |me.split| < |text| {
      assert text[..|me.split| + 1] == text[..|me.split|] + [text[|me.split|]];
    } else {
      assert text[..|me.split|] == text;
    }
  }

  lemma CopyStaysGuarded(cfg: Config, s: State, t: State, c: nat)
    requires Shape(cfg, s) && Shape(cfg, t) && Guarded(cfg, s) && c < |s.cs| && s.cs[c].pc == CCopy
    requires At(s.mem, s.cs[c].slot, |s.cs[c].split|).Ch?
    requires t == s.(cs := s.cs[c := Copied(s.cs[c], At(s.mem, s.cs[c].slot, |s.cs[c].split|).c)])
    ensures Guarded(cfg, t)
  {
    var me := s.cs[c];
    assert SnapshotsOk(cfg, me, s.last);
    InsideAtLeast(s.cs, c);
    assert Holds(cfg, s.mem, me.slot, s.last[me.slot]);
    CopiedSnapshot(cfg, s.mem, me, s.last);
    ConsumerStaysGuarded(cfg, s, t, c, t.cs[c]);
  }

  /** What iteration `b` finds in its slot is at least as new as message `b`. */
  lemma SlotIsReached(cfg: Config, s: State, c: nat)
    requires Inv(cfg, s) && c < |s.cs| && Awake(s.cs[c])
    ensures var me := s.cs[c];
            && me.slot == Slot(me.b, cfg)
            && s.last[me.slot] >= me.b && Slot(s.last[me.slot], cfg) == me.slot
  {
    var me := s.cs[c];
    assert ConsumerOk(cfg, me, Signalled(s.p, c));
    assert Overtaken(cfg, s.last, me.b);
    assert InItsSlot(cfg, s.last, me.slot, Written(s.p));
  }

  lemma EnteredSnapshot(cfg: Config, me: Consumer, last: seq<int>)
    requires Usable(cfg) && |last| == cfg.slots && SnapshotsOk(cfg, me, last) && me.slot < cfg.slots
    requires me.slot == Slot(me.b, cfg) && last[me.slot] >= me.b && Slot(last[me.slot], cfg) == me.slot
    ensures SnapshotsOk(cfg, me.(pc := CCopy, split := "", seen := last[me.slot]), last)
  {
  }

  lemma ComparedSnapshot(cfg: Config, me: Consumer, last: seq<int>, undefined: int)
    requires Usable(cfg) && cfg.locked && |last| == cfg.slots
    requires me.pc == CCompare && SnapshotsOk(cfg, me, last) && LoopOk(cfg, me) && |me.split| < SPLIT_SIZE
    ensures SnapshotsOk(cfg, Compared(cfg, me, undefined), last)
  {
    var me' := Compared(cfg, me, undefined);
    assert ReceiptOk(cfg, me'.log[|me.log|], |me.log|);
    forall j | 0 <= j < |me'.log| ensures ReceiptOk(cfg, me'.log[j], j) {
      assert j < |me.log| ==> ReceiptOk(cfg, me.log[j], j);
    }
  }

  lemma ConsumerKeepsGuarded(cfg: Config, s: State, c: nat, undefined: int)
    requires Inv(cfg, s) && Guarded(cfg, s) && Enabled(cfg, s, Consume(c, undefined))
    requires Shape(cfg, ConsumerStep(cfg, s, c, undefined))
    ensures Guarded(cfg, ConsumerStep(cfg, s, c, undefined))
  {
    var me, t := s.cs[c], ConsumerStep(cfg, s, c, undefined);
    assert SnapshotsOk(cfg, me, s.last);
    if me.pc == CCopy {
      assert At(s.mem, me.slot, |me.split|) == s.mem[Base(me.slot) + |me.split|];
      CopyStaysGuarded(cfg, s, t, c);
    } else {
      ConsumerMemory(cfg, s, c, undefined);
      ConsumerSnapshot(cfg, s, c, undefined);
      ConsumerStaysGuarded(cfg, s, t, c, t.cs[c]);
    }
  }

  /** What a consumer step other than a byte copied does to the memory and the lock. */
  lemma ConsumerMemory(cfg: Config, s: State, c: nat, undefined: int)
    requires Shape(cfg, s) && Guarded(cfg, s) && Enabled(cfg, s, Consume(c, undefined)) && s.cs[c].pc != CCopy
    requires Shape(cfg, ConsumerStep(cfg, s, c, undefined))
    ensures var t := ConsumerStep(cfg, s, c, undefined);
            && t.p == s.p && t.last == s.last && t.cs == s.cs[c := t.cs[c]] && SameArea(cfg, s.mem, t.mem)
            && Lock(cfg, t) - Lock(cfg, s)
               == (if InSection(t.cs[c]) then 1 else 0) - (if InSection(s.cs[c]) then 1 else 0)
            && Lock(cfg, t) <= 1
  {
    LockKeepsArea(cfg, s, 0);
    LockKeepsArea(cfg, s, 1);
    WordWrite(cfg, s.mem, CounterAddress(cfg), s.mem[CounterAddress(cfg)].w + 1);
    if InSection(s.cs[c]) {
      InsideAtLeast(s.cs, c);
    }
  }

  lemma ConsumerSnapshot(cfg: Config, s: State, c: nat, undefined: int)
    requires Inv(cfg, s) && Guarded(cfg, s) && Enabled(cfg, s, Consume(c, undefined)) && s.cs[c].pc != CCopy
    ensures SnapshotsOk(cfg, ConsumerStep(cfg, s, c, undefined).cs[c], s.last)
  {
    var me := s.cs[c];
    assert SnapshotsOk(cfg, me, s.last) && ConsumerOk(cfg, me, Signalled(s.p, c)) && CellInSlot(me, cfg);
    if me.pc == CSpin {
      SlotIsReached(cfg, s, c);
      EnteredSnapshot(cfg, me, s.last);
    } else if me.pc == CCompare {
      ComparedSnapshot(cfg, me, s.last, undefined);
    }
  }

  lemma SignalKeepsGuarded(cfg: Config, s: State, c: nat)
    requires Shape(cfg, s) && Guarded(cfg, s) && Enabled(cfg, s, Signal(c)) && Shape(cfg, SignalStep(cfg, s, c))
    ensures Guarded(cfg, SignalStep(cfg, s, c))
  {
    var me' := Woken(s.cs[c]);
    assert SnapshotsOk(cfg, s.cs[c], s.last) && SnapshotsOk(cfg, me', s.last);
    ConsumerStaysGuarded(cfg, s, SignalStep(cfg, s, c), c, me');
  }

  lemma OpenFailureKeepsGuarded(cfg: Config, s: State, c: nat)
    requires Shape(cfg, s) && Guarded(cfg, s) && Enabled(cfg, s, OpenFails(c)) && Shape(cfg, Step(cfg, s, OpenFails(c)))
    ensures Guarded(cfg, Step(cfg, s, OpenFails(c)))
  {
    var me' := s.cs[c].(pc := CDone);
    assert SnapshotsOk(cfg, s.cs[c], s.last) && SnapshotsOk(cfg, me', s.last);
    ConsumerStaysGuarded(cfg, s, Step(cfg, s, OpenFails(c)), c, me');
  }

  // ----- producer steps

  lemma CopiedContents(cfg: Config, mem: seq<Cell>, p: Producer, last: seq<int>, c: char)
    requires Fits(cfg, mem) && |last| == cfg.slots && p.slot < cfg.slots && p.i < MSG_SIZE && p.pc == PCopy
    requires Contents(cfg, mem, p, last) && p.n <= INT_MAX && p.i <= |Message(cfg, p.n)|
    requires Ch(c) == TextCell(Message(cfg, p.n), p.i)
    ensures var m := mem[Base(p.slot) + p.i := Ch(c)];
            && (p.i + 1 < MSG_SIZE ==> Contents(cfg, m, p.(i := p.i + 1), last))
            && (p.i == |Message(cfg, p.n)| ==> Contents(cfg, m, p.(pc := PRelease), last[p.slot := p.n]))
  {
    var m := mem[Base(p.slot) + p.i := Ch(c)];
    MessageWrite(cfg, mem, p.slot, p.i, c);
    MessageFits(cfg, p.n);
    forall slot | 0 <= slot < cfg.slots && slot != p.slot ensures Holds(cfg, m, slot, last[slot]) {
      assert Holds(cfg, mem, slot, last[slot]);
    }
  }

  lemma ProducerOutsideKeepsGuarded(cfg: Config, s: State, delivered: bool)
    requires Shape(cfg, s) && Guarded(cfg, s) && Enabled(cfg, s, Produce(delivered))
    requires s.p.pc == PSpin || s.p.pc == PRelease || s.p.pc == PAdvance
    requires Shape(cfg, ProducerStep(cfg, s, delivered))
    ensures Guarded(cfg, ProducerStep(cfg, s, delivered))
  {
    var t := ProducerStep(cfg, s, delivered);
    LockKeepsArea(cfg, s, if s.p.pc == PSpin then 1 else 0);
    SameAreaKeepsContents(cfg, s.mem, t.mem, s.p, s.last);
    forall slot | 0 <= slot < cfg.slots ensures Holds(cfg, t.mem, slot, t.last[slot]) {}
  }

  lemma SendKeepsGuarded(cfg: Config, s: State, delivered: bool)
    requires Shape(cfg, s) && Guarded(cfg, s) && Enabled(cfg, s, Produce(delivered)) && s.p.pc == PSend
    requires Shape(cfg, ProducerStep(cfg, s, delivered))
    ensures Guarded(cfg, ProducerStep(cfg, s, delivered))
  {
    var t, k := ProducerStep(cfg, s, delivered), s.p.k;
    assert SnapshotsOk(cfg, s.cs[k], s.last) && SnapshotsOk(cfg, t.cs[k], s.last);
    var u := s.(cs := t.cs);
    assert t.cs == s.cs[k := t.cs[k]];
    ConsumerStaysGuarded(cfg, s, u, k, t.cs[k]);
    forall slot | 0 <= slot < cfg.slots ensures Holds(cfg, t.mem, slot, t.last[slot]) {}
  }

  lemma StrcpyKeepsGuarded(cfg: Config, s: State, delivered: bool)
    requires Shape(cfg, s) && Guarded(cfg, s) && Enabled(cfg, s, Produce(delivered)) && s.p.pc == PCopy
    requires s.p.n <= INT_MAX && Shape(cfg, ProducerStep(cfg, s, delivered))
    ensures Guarded(cfg, ProducerStep(cfg, s, delivered))
  {
    var t := ProducerStep(cfg, s, delivered);
    var c := TextCell(Message(cfg, s.p.n), s.p.i).c;
    MessageWrite(cfg, s.mem, s.p.slot, s.p.i, c);
    CopiedContents(cfg, s.mem, s.p, s.last, c);
    forall d | 0 <= d < |t.cs| ensures SnapshotsOk(cfg, t.cs[d], t.last) {
      NotCopying(cfg, s, d);
    }
  }

  /** While the producer copies, no consumer does, so the copies so far do not depend on `last`. */
  lemma NotCopying(cfg: Config, s: State, d: nat)
    requires Shape(cfg, s) && Guarded(cfg, s) && ProducerInSection(s.p) && d < |s.cs|
    ensures forall last :: |last| == cfg.slots ==> SnapshotsOk(cfg, s.cs[d], last)
  {
    assert SnapshotsOk(cfg, s.cs[d], s.last);
    if InSection(s.cs[d]) {
      InsideAtLeast(s.cs, d);
    }
  }

  lemma ProducerKeepsGuarded(cfg: Config, s: State, delivered: bool)
    requires Inv(cfg, s) && Guarded(cfg, s) && Enabled(cfg, s, Produce(delivered))
    requires Shape(cfg, ProducerStep(cfg, s, delivered))
    ensures Guarded(cfg, ProducerStep(cfg, s, delivered))
  {
    match s.p.pc
    case PCopy => StrcpyKeepsGuarded(cfg, s, delivered);
    case PSend => SendKeepsGuarded(cfg, s, delivered);
    case _ => ProducerOutsideKeepsGuarded(cfg, s, delivered);
  }

  lemma StepKeepsGuarded(cfg: Config, s: State, a: Action)
    requires Inv(cfg, s) && Guarded(cfg, s) && Enabled(cfg, s, a)
    ensures Inv(cfg, Step(cfg, s, a)) && Guarded(cfg, Step(cfg, s, a))
  {
    StepKeepsInv(cfg, s, a);
    match a
    case Produce(delivered) => ProducerKeepsGuarded(cfg, s, delivered);
    case Consume(c, undefined) => ConsumerKeepsGuarded(cfg, s, c, undefined);
    case Signal(c) => SignalKeepsGuarded(cfg, s, c);
    case OpenFails(c) => OpenFailureKeepsGuarded(cfg, s, c);
  }

  lemma {:induction false} RunKeepsGuarded(cfg: Config, s: State, run: seq<Action>)
    requires Inv(cfg, s) && Guarded(cfg, s) && IsRun(cfg, s, run)
    ensures Inv(cfg, After(cfg, s, run)) && Guarded(cfg, After(cfg, s, run))
    decreases run
  {
    if run != [] {
      StepKeepsGuarded(cfg, s, run[0]);
      RunKeepsGuarded(cfg, Step(cfg, s, run[0]), run[1..]);
    }
  }
}
