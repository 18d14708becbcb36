/** Two extremes among the runs of the broadcast of SP_HW10: one in which every consumer matches
    in every iteration, and one in which every signal is dropped and the consumers wait for ever. */
module BroadcastSchedules {
  import opened CStrings
  import opened Broadcast
  import opened BroadcastSafety
  import opened BroadcastResults

  // ----- runs step by step

  lemma {:induction false} RunSnoc(cfg: Config, s: State, run: seq<Action>, a: Action)
    requires IsRun(cfg, s, run) && Enabled(cfg, After(cfg, s, run), a)
    ensures IsRun(cfg, s, run + [a]) && After(cfg, s, run + [a]) == Step(cfg, After(cfg, s, run), a)
    decreases run
  {
    if run == [] {
      assert [a][1..] == [];
    } else {
      assert (run + [a])[1..] == run[1..] + [a];
      RunSnoc(cfg, Step(cfg, s, run[0]), run[1..], a);
    }
  }

  lemma {:induction false} RunConcat(cfg: Config, s: State, run: seq<Action>, more: seq<Action>)
    requires IsRun(cfg, s, run) && IsRun(cfg, After(cfg, s, run), more)
    ensures IsRun(cfg, s, run + more) && After(cfg, s, run + more) == After(cfg, After(cfg, s, run), more)
    decreases run
  {
    if run == [] {
      assert run + more == more;
    } else {
      assert (run + more)[1..] == run[1..] + more;
      RunConcat(cfg, Step(cfg, s, run[0]), run[1..], more);
    }
  }

  /** `run` leads from `s` to `t`, and no open fails in it. */
  predicate Leads(cfg: Config, s: State, run: seq<Action>, t: State) {
    IsRun(cfg, s, run) && After(cfg, s, run) == t && forall i :: 0 <= i < |run| ==> !run[i].OpenFails?
  }

  lemma LeadsOn(cfg: Config, s: State, run: seq<Action>, t: State, a: Action)
    requires Leads(cfg, s, run, t) && Enabled(cfg, t, a) && !a.OpenFails?
    ensures Leads(cfg, s, run + [a], Step(cfg, t, a))
  {
    RunSnoc(cfg, s, run, a);
  }

  lemma LeadsAlong(cfg: Config, s: State, run: seq<Action>, t: State, more: seq<Action>, u: State)
    requires Leads(cfg, s, run, t) && Leads(cfg, t, more, u)
    ensures Leads(cfg, s, run + more, u)
  {
    RunConcat(cfg, s, run, more);
  }

  // ----- the producer

  predicate Free(cfg: Config, s: State)
    requires Shape(cfg, s)
  {
    cfg.locked ==> Lock(cfg, s) == 0
  }

  /** The producer is about to send message `n`, which its slot holds. */
  predicate Sending(cfg: Config, s: State, n: nat, k: nat) {
    && Inv(cfg, s) && Free(cfg, s) && n < cfg.dataNum && |Message(cfg, n)| < MSG_SIZE
    && s.p.n == n && s.p.pc == (if k < cfg.consumers then PSend else PAdvance) && (k < cfg.consumers ==> s.p.k == k)
    && SlotHolds(cfg, s.mem, Slot(n, cfg), Message(cfg, n))
  }

  lemma CopyByte(cfg: Config, s: State, i: nat)
    requires Inv(cfg, s) && s.p.pc == PCopy && s.p.i == i < |Message(cfg, s.p.n)| < MSG_SIZE
    requires forall o :: 0 <= o < i ==> At(s.mem, s.p.slot, o) == TextCell(Message(cfg, s.p.n), o)
    ensures Enabled(cfg, s, Produce(true))
    ensures var t := Step(cfg, s, Produce(true));
      && Inv(cfg, t) && t.cs == s.cs && t.p == s.p.(i := i + 1)
      && t.mem[LockAddress(cfg)] == s.mem[LockAddress(cfg)]
      && forall o :: 0 <= o < i + 1 ==> At(t.mem, t.p.slot, o) == TextCell(Message(cfg, t.p.n), o)
  {
    StepKeepsInv(cfg, s, Produce(true));
    MessageWrite(cfg, s.mem, s.p.slot, i, Message(cfg, s.p.n)[i]);
  }

  lemma {:induction false} CopyText(cfg: Config, s: State, i: nat) returns (run: seq<Action>, t: State)
    requires Inv(cfg, s) && s.p.pc == PCopy && s.p.i == i <= |Message(cfg, s.p.n)| < MSG_SIZE
    requires forall o :: 0 <= o < i ==> At(s.mem, s.p.slot, o) == TextCell(Message(cfg, s.p.n), o)
    ensures Leads(cfg, s, run, t) && Inv(cfg, t) && t.cs == s.cs
    ensures t.p == s.p.(i := |Message(cfg, s.p.n)|) && t.mem[LockAddress(cfg)] == s.mem[LockAddress(cfg)]
    ensures forall o :: 0 <= o < |Message(cfg, s.p.n)| ==>
      At(t.mem, s.p.slot, o) == TextCell(Message(cfg, s.p.n), o)
    decreases |Message(cfg, s.p.n)| - i
  {
    run, t := [], s;
    if i < |Message(cfg, s.p.n)| {
      CopyByte(cfg, s, i);
      LeadsOn(cfg, s, [], s, Produce(true));
      var u := Step(cfg, s, Produce(true));
      var more, v := CopyText(cfg, u, i + 1);
      LeadsAlong(cfg, s, [Produce(true)], u, more, v);
      assert [] + [Produce(true)] == [Produce(true)];
      run, t := [Produce(true)] + more, v;
    }
  }

  lemma TakeLock(cfg: Config, s: State)
    requires Inv(cfg, s) && Free(cfg, s) && s.p.pc == PSpin
    ensures Enabled(cfg, s, Produce(true))
    ensures var t := Step(cfg, s, Produce(true));
      Inv(cfg, t) && t.cs == s.cs && t.p == s.p.(pc := PCopy, i := 0)
  {
    StepKeepsInv(cfg, s, Produce(true));
  }

  lemma EndText(cfg: Config, s: State)
    requires Inv(cfg, s) && s.p.pc == PCopy && s.p.i == |Message(cfg, s.p.n)| < MSG_SIZE
    requires forall o :: 0 <= o < s.p.i ==> At(s.mem, s.p.slot, o) == TextCell(Message(cfg, s.p.n), o)
    ensures Enabled(cfg, s, Produce(true))
    ensures var t := Step(cfg, s, Produce(true));
      && Inv(cfg, t) && t.cs == s.cs && t.p == s.p.(pc := PRelease)
      && SlotHolds(cfg, t.mem, s.p.slot, Message(cfg, s.p.n))
  {
    StepKeepsInv(cfg, s, Produce(true));
    MessageWrite(cfg, s.mem, s.p.slot, s.p.i, '\0');
  }

  lemma GiveLock(cfg: Config, s: State)
    requires Inv(cfg, s) && s.p.pc == PRelease && |Message(cfg, s.p.n)| < MSG_SIZE
    requires SlotHolds(cfg, s.mem, s.p.slot, Message(cfg, s.p.n))
    ensures Enabled(cfg, s, Produce(true))
    ensures var t := Step(cfg, s, Produce(true)); Sending(cfg, t, s.p.n, 0) && t.cs == s.cs
  {
    StepKeepsInv(cfg, s, Produce(true));
    LockKeepsArea(cfg, s, 0);
  }

  /** From the spin to the first signal. */
  lemma WriteMessage(cfg: Config, s: State) returns (run: seq<Action>, t: State)
    requires Inv(cfg, s) && Free(cfg, s) && s.p.pc == PSpin
    ensures Leads(cfg, s, run, t) && Sending(cfg, t, s.p.n, 0) && t.cs == s.cs
  {
    MessageFits(cfg, s.p.n);
    var go := Produce(true);
    TakeLock(cfg, s);
    LeadsOn(cfg, s, [], s, go);
    var u := Step(cfg, s, go);
    var copy, v := CopyText(cfg, u, 0);
    LeadsAlong(cfg, s, [] + [go], u, copy, v);
    EndText(cfg, v);
    LeadsOn(cfg, s, [] + [go] + copy, v, go);
    var w := Step(cfg, v, go);
    GiveLock(cfg, w);
    LeadsOn(cfg, s, [] + [go] + copy + [go], w, go);
    run, t := [] + [go] + copy + [go] + [go], Step(cfg, w, go);
  }

  /** The signals of message `n` that were delivered to consumers below `k`. */
  predicate Told(before: seq<Consumer>, after: seq<Consumer>, n: nat, k: nat, delivered: bool) {
    && |after| == |before|
    && forall c :: 0 <= c < |after| ==>
         after[c] == if delivered && c < k then before[c].(pending := before[c].pending + [n]) else before[c]
  }

  lemma SendOne(cfg: Config, before: seq<Consumer>, s: State, n: nat, k: nat, delivered: bool)
    requires Sending(cfg, s, n, k) && k < cfg.consumers && Told(before, s.cs, n, k, delivered)
    ensures Enabled(cfg, s, Produce(delivered))
    ensures var t := Step(cfg, s, Produce(delivered));
      Sending(cfg, t, n, k + 1) && Told(before, t.cs, n, k + 1, delivered) && t.mem == s.mem
  {
    StepKeepsInv(cfg, s, Produce(delivered));
  }

  lemma {:induction false} SendAll(cfg: Config, before: seq<Consumer>, s: State, n: nat, k: nat, delivered: bool)
    returns (run: seq<Action>, t: State)
    requires Sending(cfg, s, n, k) && k <= cfg.consumers && Told(before, s.cs, n, k, delivered)
    ensures Leads(cfg, s, run, t) && Sending(cfg, t, n, cfg.consumers)
    ensures Told(before, t.cs, n, cfg.consumers, delivered)
    decreases cfg.consumers - k
  {
    run, t := [], s;
    if k < cfg.consumers {
      SendOne(cfg, before, s, n, k, delivered);
      LeadsOn(cfg, s, [], s, Produce(delivered));
      var u := Step(cfg, s, Produce(delivered));
      var more, v := SendAll(cfg, before, u, n, k + 1, delivered);
      LeadsAlong(cfg, s, [] + [Produce(delivered)], u, more, v);
      run, t := [] + [Produce(delivered)] + more, v;
    }
  }

  lemma NextMessage(cfg: Config, s: State, n: nat)
    requires Sending(cfg, s, n, cfg.consumers)
    ensures Enabled(cfg, s, Produce(true))
    ensures var t := Step(cfg, s, Produce(true));
      && Inv(cfg, t) && Free(cfg, t) && t.cs == s.cs && t.p.n == n + 1
      && t.p.pc == if n + 1 < cfg.dataNum then PSpin else PDone
  {
    StepKeepsInv(cfg, s, Produce(true));
  }

  // ----- one consumer in one iteration

  /** Message `n` is in its slot, and since `s` only consumer `c` has moved, which is at `me`. */
  predicate Serving(cfg: Config, s: State, t: State, n: nat, c: nat, me: Consumer, held: bool) {
    && Inv(cfg, t) && n < cfg.dataNum && |Message(cfg, n)| < MSG_SIZE
    && c < |s.cs| && t.p == s.p && t.cs == s.cs[c := me]
    && (cfg.locked ==> Lock(cfg, t) == if held then 1 else 0)
    && SlotHolds(cfg, t.mem, Slot(n, cfg), Message(cfg, n))
  }

  /** A step of consumer `c` that leaves the memory alone. */
  lemma StillServing(cfg: Config, s: State, t: State, n: nat, c: nat, me: Consumer, held: bool, me': Consumer)
    requires Serving(cfg, s, t, n, c, me, held) && Inv(cfg, t.(cs := t.cs[c := me']))
    ensures Serving(cfg, s, t.(cs := t.cs[c := me']), n, c, me', held)
  {
    assert s.cs[c := me][c := me'] == s.cs[c := me'];
  }

  lemma Wake(cfg: Config, s: State, t: State, n: nat, c: nat, me: Consumer)
    requires Serving(cfg, s, t, n, c, me, false) && me.pending == [n]
    requires me.pc == CFirstPause || me.pc == CPause
    ensures Enabled(cfg, t, Signal(c))
    ensures var pc := if me.pc == CFirstPause then COpen else CSpin;
      Serving(cfg, s, Step(cfg, t, Signal(c)), n, c, me.(recv := n, pending := [], pc := pc), false)
  {
    StepKeepsInv(cfg, t, Signal(c));
    assert me.pending[1..] == [];
    StillServing(cfg, s, t, n, c, me, false, Woken(me));
  }

  lemma Open(cfg: Config, s: State, t: State, n: nat, c: nat, me: Consumer)
    requires Serving(cfg, s, t, n, c, me, false) && me.pc == COpen
    ensures Enabled(cfg, t, Consume(c, n))
    ensures Serving(cfg, s, Step(cfg, t, Consume(c, n)), n, c, me.(pc := CSpin), false)
  {
    StepKeepsInv(cfg, t, Consume(c, n));
  }

  /** From the pause to the spin. */
  lemma WakeUp(cfg: Config, s: State, t: State, n: nat, c: nat, me: Consumer)
    returns (run: seq<Action>, u: State)
    requires Serving(cfg, s, t, n, c, me, false) && me.pending == [n]
    requires me.pc == CFirstPause || me.pc == CPause
    ensures Leads(cfg, t, run, u) && Serving(cfg, s, u, n, c, me.(recv := n, pending := [], pc := CSpin), false)
  {
    Wake(cfg, s, t, n, c, me);
    LeadsOn(cfg, t, [], t, Signal(c));
    run, u := [] + [Signal(c)], Step(cfg, t, Signal(c));
    if me.pc == CFirstPause {
      Open(cfg, s, u, n, c, me.(recv := n, pending := [], pc := COpen));
      LeadsOn(cfg, t, run, u, Consume(c, n));
      run, u := run + [Consume(c, n)], Step(cfg, u, Consume(c, n));
    }
  }

  /** A word written elsewhere leaves the slot as it is. */
  lemma LockKeepsSlot(cfg: Config, s: State, v: int, slot: nat, text: string)
    requires Inv(cfg, s) && slot < cfg.slots && |text| < MSG_SIZE && SlotHolds(cfg, s.mem, slot, text)
    ensures var t := SetLock(cfg, s, v); Fits(cfg, t.mem) && SlotHolds(cfg, t.mem, slot, text)
  {
    LockKeepsArea(cfg, s, v);
  }

  lemma Enter(cfg: Config, s: State, t: State, n: nat, c: nat, me: Consumer)
    requires Serving(cfg, s, t, n, c, me, false) && me.pc == CSpin && me.slot < cfg.slots
    ensures Enabled(cfg, t, Consume(c, n)) && me.slot < |t.last|
    ensures Serving(cfg, s, Step(cfg, t, Consume(c, n)), n, c,
                    me.(pc := CCopy, split := "", seen := t.last[me.slot]), true)
  {
    StepKeepsInv(cfg, t, Consume(c, n));
    LockKeepsSlot(cfg, t, 1, Slot(n, cfg), Message(cfg, n));
  }

  lemma Leave(cfg: Config, s: State, t: State, n: nat, c: nat, me: Consumer)
    requires Serving(cfg, s, t, n, c, me, true) && me.pc == CRelease
    ensures Enabled(cfg, t, Consume(c, n))
    ensures Serving(cfg, s, Step(cfg, t, Consume(c, n)), n, c, me.(pc := CCompare), false)
  {
    StepKeepsInv(cfg, t, Consume(c, n));
    LockKeepsSlot(cfg, t, 0, Slot(n, cfg), Message(cfg, n));
  }

  lemma TakeChar(cfg: Config, s: State, t: State, n: nat, c: nat, me: Consumer, ch: char)
    requires Serving(cfg, s, t, n, c, me, true) && me.pc == CCopy && Base(me.slot) + |me.split| < |t.mem|
    requires t.mem[Base(me.slot) + |me.split|] == Ch(ch)
    ensures Enabled(cfg, t, Consume(c, n))
    ensures Serving(cfg, s, Step(cfg, t, Consume(c, n)), n, c, Copied(me, ch), true)
  {
    CopyStep(cfg, t, c, n, ch);
    StepKeepsInv(cfg, t, Consume(c, n));
    StillServing(cfg, s, t, n, c, me, true, Copied(me, ch));
  }

  /** What the copy is after `i` characters of the text, its NUL included. */
  function CopiedUpTo(me: Consumer, text: string, i: nat): Consumer
    requires i <= |text| + 1
  {
    if i <= |text| then me.(split := text[..i]) else me.(split := text + "\n", pc := CRelease)
  }

  lemma CopiedNext(me: Consumer, text: string, i: nat)
    requires i <= |text| && '\0' !in text && me.split == text[..i]
    ensures Copied(me, CharAt(text, i)) == CopiedUpTo(me, text, i + 1)
  {
    if i < |text| {
      assert text[..i] + [text[i]] == text[..i + 1];
    } else {
      assert text[..i] == text;
    }
  }

  /** The character of the text at `i`, or its NUL. */
  function CharAt(text: string, i: nat): char { if i < |text| then text[i] else '\0' }

  lemma SlotByte(cfg: Config, mem: seq<Cell>, slot: nat, text: string, i: nat)
    requires Fits(cfg, mem) && slot < cfg.slots && |text| < MSG_SIZE && SlotHolds(cfg, mem, slot, text) && i <= |text|
    ensures Base(slot) + i < |mem| && mem[Base(slot) + i] == Ch(CharAt(text, i))
  {
    assert At(mem, slot, i) == TextCell(text, i);
  }

  lemma TakeByte(cfg: Config, s: State, t: State, n: nat, c: nat, me: Consumer, i: nat)
    requires Serving(cfg, s, t, n, c, me, true) && me.pc == CCopy && me.slot == Slot(n, cfg)
    requires i <= |Message(cfg, n)| && me.split == Message(cfg, n)[..i]
    requires '\0' !in Message(cfg, n)
    ensures Enabled(cfg, t, Consume(c, n))
    ensures Serving(cfg, s, Step(cfg, t, Consume(c, n)), n, c, CopiedUpTo(me, Message(cfg, n), i + 1), true)
  {
    CopiedNext(me, Message(cfg, n), i);
    SlotByte(cfg, t.mem, me.slot, Message(cfg, n), i);
    TakeChar(cfg, s, t, n, c, me, CharAt(Message(cfg, n), i));
  }

  lemma {:induction false} TakeText(cfg: Config, s: State, t: State, n: nat, c: nat, me: Consumer, i: nat)
    returns (run: seq<Action>, u: State)
    requires Serving(cfg, s, t, n, c, me, true) && me.pc == CCopy && me.slot == Slot(n, cfg)
    requires i <= |Message(cfg, n)| && me.split == Message(cfg, n)[..i]
    requires '\0' !in Message(cfg, n)
    ensures Leads(cfg, t, run, u)
    ensures Serving(cfg, s, u, n, c, me.(split := Message(cfg, n) + "\n", pc := CRelease), true)
    decreases |Message(cfg, n)| - i
  {
    TakeByte(cfg, s, t, n, c, me, i);
    LeadsOn(cfg, t, [], t, Consume(c, n));
    run, u := [] + [Consume(c, n)], Step(cfg, t, Consume(c, n));
    if i < |Message(cfg, n)| {
      var more, v := TakeText(cfg, s, u, n, c, CopiedUpTo(me, Message(cfg, n), i + 1), i + 1);
      LeadsAlong(cfg, t, run, u, more, v);
      run, u := run + more, v;
    }
  }

  /** From the spin to the comparison. */
  lemma CopySlot(cfg: Config, s: State, t: State, n: nat, c: nat, me: Consumer)
    returns (run: seq<Action>, u: State, me': Consumer)
    requires Serving(cfg, s, t, n, c, me, false) && me.pc == CSpin && me.slot == Slot(n, cfg)
    ensures Leads(cfg, t, run, u) && Serving(cfg, s, u, n, c, me', false)
    ensures me' == me.(pc := CCompare, split := Message(cfg, n) + "\n", seen := me'.seen)
  {
    NoNul(cfg, n);
    var next := Consume(c, n);
    Enter(cfg, s, t, n, c, me);
    LeadsOn(cfg, t, [], t, next);
    var v, it := Step(cfg, t, next), me.(pc := CCopy, split := "", seen := t.last[me.slot]);
    var copy, w := TakeText(cfg, s, v, n, c, it, 0);
    LeadsAlong(cfg, t, [] + [next], v, copy, w);
    it := it.(split := Message(cfg, n) + "\n", pc := CRelease);
    Leave(cfg, s, w, n, c, it);
    LeadsOn(cfg, t, [] + [next] + copy, w, next);
    run, u, me' := [] + [next] + copy + [next], Step(cfg, w, next), it.(pc := CCompare);
  }

  lemma NoNul(cfg: Config, n: nat)
    requires Usable(cfg)
    ensures '\0' !in Message(cfg, n)
  {
    DecimalIsDigits(n);
    forall i | 0 <= i < |Message(cfg, n)| ensures Message(cfg, n)[i] != '\0' {
      if i >= |cfg.msg| {
        assert IsDigit(Decimal(n)[i - |cfg.msg|]);
      }
    }
  }

  // ----- the comparison and the end of the iteration

  /** Before iteration `n` with nothing pending; all comparisons so far were matches. */
  predicate Idle(cfg: Config, me: Consumer, n: nat) {
    && me.pending == [] && me.b == n && |me.log| == n && (forall j :: 0 <= j < n ==> me.log[j].counted)
    && me.pc == if n == 0 then CFirstPause else if n < cfg.dataNum then CPause else CDone
  }

  lemma ComparedMatch(cfg: Config, me: Consumer, n: nat)
    requires Usable(cfg) && cfg.msg == PREFIX && me.split == Message(cfg, n) + "\n" && me.recv == n
    ensures Compared(cfg, me, n) == me.(pc := CAdd, log := me.log + [Receipt(n, me.split, me.seen, true)])
  {
    SeqCmpOfMessage(cfg, n, if cfg.locked then -1 else 0);
  }

  lemma Match(cfg: Config, s: State, t: State, n: nat, c: nat, me: Consumer)
    requires Serving(cfg, s, t, n, c, me, false) && me.pc == CCompare && cfg.msg == PREFIX
    requires me.split == Message(cfg, n) + "\n" && me.recv == n
    ensures Enabled(cfg, t, Consume(c, n))
    ensures Serving(cfg, s, Step(cfg, t, Consume(c, n)), n, c,
                    me.(pc := CAdd, log := me.log + [Receipt(n, me.split, me.seen, true)]), false)
  {
    ComparedMatch(cfg, me, n);
    Compare(cfg, s, t, n, c, me);
  }

  lemma Compare(cfg: Config, s: State, t: State, n: nat, c: nat, me: Consumer)
    requires Serving(cfg, s, t, n, c, me, false) && me.pc == CCompare
    ensures Enabled(cfg, t, Consume(c, n))
    ensures Serving(cfg, s, Step(cfg, t, Consume(c, n)), n, c, Compared(cfg, me, n), false)
  {
    StepKeepsInv(cfg, t, Consume(c, n));
    StillServing(cfg, s, t, n, c, me, false, Compared(cfg, me, n));
  }

  lemma AddStep(cfg: Config, t: State, c: nat, undefined: int)
    requires Shape(cfg, t) && c < |t.cs| && t.cs[c].pc == CAdd
    ensures Enabled(cfg, t, Consume(c, undefined))
    ensures Step(cfg, t, Consume(c, undefined))
            == t.(mem := t.mem[CounterAddress(cfg) := Word(t.mem[CounterAddress(cfg)].w + 1)],
                  cs := t.cs[c := t.cs[c].(pc := CAdvance)])
  {
  }

  lemma CounterKeepsSlot(cfg: Config, mem: seq<Cell>, v: int, slot: nat, text: string)
    requires Fits(cfg, mem) && slot < cfg.slots && |text| < MSG_SIZE && SlotHolds(cfg, mem, slot, text)
    ensures var m := mem[CounterAddress(cfg) := Word(v)];
      Fits(cfg, m) && SlotHolds(cfg, m, slot, text) && m[LockAddress(cfg)] == mem[LockAddress(cfg)]
  {
    WordWrite(cfg, mem, CounterAddress(cfg), v);
  }

  lemma AddOne(cfg: Config, s: State, t: State, n: nat, c: nat, me: Consumer)
    requires Serving(cfg, s, t, n, c, me, false) && me.pc == CAdd
    ensures Enabled(cfg, t, Consume(c, n))
    ensures Serving(cfg, s, Step(cfg, t, Consume(c, n)), n, c, me.(pc := CAdvance), false)
  {
    AddStep(cfg, t, c, n);
    StepKeepsInv(cfg, t, Consume(c, n));
    CounterKeepsSlot(cfg, t.mem, t.mem[CounterAddress(cfg)].w + 1, Slot(n, cfg), Message(cfg, n));
    assert s.cs[c := me][c := me.(pc := CAdvance)] == s.cs[c := me.(pc := CAdvance)];
  }

  /** The consumer behind a match of message `n`. */
  function Matched(me: Consumer, n: nat): Consumer {
    me.(pc := CAdvance, log := me.log + [Receipt(n, me.split, me.seen, true)])
  }

  lemma MatchedIdle(cfg: Config, me: Consumer, n: nat)
    requires Usable(cfg) && n < cfg.dataNum && me.b == n && me.pending == []
    requires |me.log| == n && forall j :: 0 <= j < n ==> me.log[j].counted
    ensures Idle(cfg, Advanced(cfg, Matched(me, n)), n + 1)
  {
  }

  lemma AdvanceStep(cfg: Config, t: State, c: nat, undefined: int)
    requires Shape(cfg, t) && c < |t.cs| && t.cs[c].pc == CAdvance
    ensures Enabled(cfg, t, Consume(c, undefined))
    ensures Step(cfg, t, Consume(c, undefined)) == t.(cs := t.cs[c := Advanced(cfg, t.cs[c])])
  {
  }

  lemma Advance(cfg: Config, s: State, t: State, n: nat, c: nat, me: Consumer)
    requires Serving(cfg, s, t, n, c, me, false) && me.pc == CAdvance
    ensures Enabled(cfg, t, Consume(c, n))
    ensures Serving(cfg, s, Step(cfg, t, Consume(c, n)), n, c, Advanced(cfg, me), false)
  {
    AdvanceStep(cfg, t, c, n);
    StepKeepsInv(cfg, t, Consume(c, n));
    StillServing(cfg, s, t, n, c, me, false, Advanced(cfg, me));
  }

  /** From the comparison to the end of the iteration. */
  lemma MatchAndAdd(cfg: Config, s: State, t: State, n: nat, c: nat, me: Consumer)
    returns (run: seq<Action>, u: State)
    requires Serving(cfg, s, t, n, c, me, false) && me.pc == CCompare && cfg.msg == PREFIX
    requires me.split == Message(cfg, n) + "\n" && me.recv == n
    ensures Leads(cfg, t, run, u)
    ensures Serving(cfg, s, u, n, c, Matched(me, n), false)
  {
    var next := Consume(c, n);
    Match(cfg, s, t, n, c, me);
    LeadsOn(cfg, t, [], t, next);
    var v, it := Step(cfg, t, next), me.(pc := CAdd, log := me.log + [Receipt(n, me.split, me.seen, true)]);
    AddOne(cfg, s, v, n, c, it);
    LeadsOn(cfg, t, [] + [next], v, next);
    run, u := [] + [next] + [next], Step(cfg, v, next);
  }

  /** From the comparison to the next pause or the end. */
  lemma Finish(cfg: Config, s: State, t: State, n: nat, c: nat, me: Consumer)
    returns (run: seq<Action>, u: State, me': Consumer)
    requires Serving(cfg, s, t, n, c, me, false) && me.pc == CCompare && cfg.msg == PREFIX
    requires me.split == Message(cfg, n) + "\n" && me.recv == n && me.b == n && me.pending == []
    requires |me.log| == n && forall j :: 0 <= j < n ==> me.log[j].counted
    ensures Leads(cfg, t, run, u) && Serving(cfg, s, u, n, c, me', false) && Idle(cfg, me', n + 1)
  {
    var most, v := MatchAndAdd(cfg, s, t, n, c, me);
    Advance(cfg, s, v, n, c, Matched(me, n));
    MatchedIdle(cfg, me, n);
    LeadsOn(cfg, t, most, v, Consume(c, n));
    run, u, me' := most + [Consume(c, n)], Step(cfg, v, Consume(c, n)), Advanced(cfg, Matched(me, n));
  }

  /** A consumer that has just been sent message `n` goes through its iteration. */
  lemma ServeOne(cfg: Config, s: State, t: State, n: nat, c: nat, me: Consumer)
    returns (run: seq<Action>, u: State, me': Consumer)
    requires Serving(cfg, s, t, n, c, me, false) && cfg.msg == PREFIX
    requires me.pending == [n] && Idle(cfg, me.(pending := []), n)
    ensures Leads(cfg, t, run, u) && Serving(cfg, s, u, n, c, me', false) && Idle(cfg, me', n + 1)
  {
    assert ConsumerOk(cfg, t.cs[c], Signalled(t.p, c));
    var wake, v := WakeUp(cfg, s, t, n, c, me);
    var it := me.(recv := n, pending := [], pc := CSpin);
    var copy, w, after := CopySlot(cfg, s, v, n, c, it);
    var end, x, last := Finish(cfg, s, w, n, c, after);
    LeadsAlong(cfg, t, wake, v, copy, w);
    LeadsAlong(cfg, t, wake + copy, w, end, x);
    run, u, me' := wake + copy + end, x, last;
  }

  // ----- all consumers, all messages

  /** Consumers below `c` have gone through iteration `n`; the others have been sent it. */
  predicate Served(cfg: Config, cs: seq<Consumer>, n: nat, c: nat) {
    forall d :: 0 <= d < |cs| ==>
      if d < c then Idle(cfg, cs[d], n + 1) else cs[d].pending == [n] && Idle(cfg, cs[d].(pending := []), n)
  }

  lemma ServedNext(cfg: Config, cs: seq<Consumer>, n: nat, c: nat, me: Consumer)
    requires c < |cs| && Served(cfg, cs, n, c) && Idle(cfg, me, n + 1)
    ensures Served(cfg, cs[c := me], n, c + 1)
  {
  }

  lemma ServingIsSending(cfg: Config, s: State, t: State, n: nat, c: nat, me: Consumer)
    requires Sending(cfg, s, n, cfg.consumers) && Serving(cfg, s, t, n, c, me, false)
    requires Served(cfg, s.cs, n, c) && Idle(cfg, me, n + 1)
    ensures Sending(cfg, t, n, cfg.consumers) && Served(cfg, t.cs, n, c + 1)
  {
    ServedNext(cfg, s.cs, n, c, me);
  }

  lemma {:induction false} ServeAll(cfg: Config, s: State, n: nat, c: nat) returns (run: seq<Action>, t: State)
    requires cfg.msg == PREFIX && Sending(cfg, s, n, cfg.consumers) && Served(cfg, s.cs, n, c) && c <= |s.cs|
    ensures Leads(cfg, s, run, t) && Sending(cfg, t, n, cfg.consumers) && Served(cfg, t.cs, n, |t.cs|)
    decreases |s.cs| - c
  {
    run, t := [], s;
    if c < |s.cs| {
      var me := s.cs[c];
      assert s.cs[c := me] == s.cs;
      var one, u, me' := ServeOne(cfg, s, s, n, c, me);
      ServingIsSending(cfg, s, u, n, c, me');
      var more, v := ServeAll(cfg, u, n, c + 1);
      LeadsAlong(cfg, s, one, u, more, v);
      run, t := one + more, v;
    }
  }

  /** Before message `n`, with every consumer idle; after the last one everybody is done. */
  predicate Round(cfg: Config, s: State, n: nat) {
    && Inv(cfg, s) && Free(cfg, s) && s.p.n == n
    && (s.p.pc == if n < cfg.dataNum then PSpin else PDone)
    && forall c :: 0 <= c < |s.cs| ==> Idle(cfg, s.cs[c], n)
  }

  lemma TellAll(cfg: Config, s: State, n: nat) returns (run: seq<Action>, t: State)
    requires Round(cfg, s, n) && n < cfg.dataNum
    ensures Leads(cfg, s, run, t) && Sending(cfg, t, n, cfg.consumers) && Served(cfg, t.cs, n, 0)
  {
    var write, u := WriteMessage(cfg, s);
    var send, v := SendAll(cfg, u.cs, u, n, 0, true);
    forall c | 0 <= c < |v.cs| ensures v.cs[c].pending == [n] && Idle(cfg, v.cs[c].(pending := []), n) {
      assert Idle(cfg, s.cs[c], n);
    }
    LeadsAlong(cfg, s, write, u, send, v);
    run, t := write + send, v;
  }

  lemma ServedRound(cfg: Config, s: State, n: nat)
    requires Sending(cfg, s, n, cfg.consumers) && Served(cfg, s.cs, n, |s.cs|)
    ensures Enabled(cfg, s, Produce(true)) && Round(cfg, Step(cfg, s, Produce(true)), n + 1)
  {
    NextMessage(cfg, s, n);
  }

  lemma PlayRound(cfg: Config, s: State, n: nat) returns (run: seq<Action>, t: State)
    requires cfg.msg == PREFIX && Round(cfg, s, n) && n < cfg.dataNum
    ensures Leads(cfg, s, run, t) && Round(cfg, t, n + 1)
  {
    var tell, u := TellAll(cfg, s, n);
    var serve, v := ServeAll(cfg, u, n, 0);
    ServedRound(cfg, v, n);
    LeadsAlong(cfg, s, tell, u, serve, v);
    LeadsOn(cfg, s, tell + serve, v, Produce(true));
    run, t := tell + serve + [Produce(true)], Step(cfg, v, Produce(true));
  }

  lemma {:induction false} PlayRounds(cfg: Config, s: State, n: nat) returns (run: seq<Action>, t: State)
    requires cfg.msg == PREFIX && Round(cfg, s, n) && n <= cfg.dataNum
    ensures Leads(cfg, s, run, t) && Round(cfg, t, cfg.dataNum)
    decreases cfg.dataNum - n
  {
    run, t := [], s;
    if n < cfg.dataNum {
      var one, u := PlayRound(cfg, s, n);
      var more, v := PlayRounds(cfg, u, n + 1);
      LeadsAlong(cfg, s, one, u, more, v);
      run, t := one + more, v;
    }
  }

  /** For any numbers of messages, consumers and slots, and with or without the lock, some run
      makes every consumer match in every iteration and leave, with the counter full. */
  lemma SomeRunMatchesAll(cfg: Config) returns (run: seq<Action>)
    requires Usable(cfg) && cfg.msg == PREFIX
    ensures IsRun(cfg, Init(cfg), run) && forall i :: 0 <= i < |run| ==> !run[i].OpenFails?
    ensures Shape(cfg, Reached(cfg, run))
    ensures var s := Reached(cfg, run);
      && s.p.pc == PDone && AllMatched(cfg, s.cs)
      && (cfg.dataNum > 0 ==> forall c :: 0 <= c < |s.cs| ==> s.cs[c].pc == CDone)
      && |s.cs| == cfg.consumers
      && (cfg.dataNum > 0 && cfg.consumers > 0 ==>
            s.mem[CounterAddress(cfg)] == Word(cfg.consumers * cfg.dataNum))
  {
    InitInv(cfg);
    var t;
    run, t := PlayRounds(cfg, Init(cfg), 0);
    forall c | 0 <= c < |t.cs| ensures MatchedAlways(cfg, t.cs[c]) {
      assert Idle(cfg, t.cs[c], cfg.dataNum);
    }
    if cfg.dataNum > 0 && cfg.consumers > 0 {
      FullCounter(cfg, run);
    }
  }

  lemma FullCounter(cfg: Config, run: seq<Action>)
    requires Usable(cfg) && IsRun(cfg, Init(cfg), run) && AllMatched(cfg, Reached(cfg, run).cs)
    requires forall c :: 0 <= c < |Reached(cfg, run).cs| ==> Reached(cfg, run).cs[c].pc == CDone
    ensures Shape(cfg, Reached(cfg, run))
    ensures Reached(cfg, run).mem[CounterAddress(cfg)] == Word(cfg.consumers * cfg.dataNum)
  {
    CounterIsExact(cfg, run);
    forall c | 0 <= c < |Reached(cfg, run).cs| ensures |Reached(cfg, run).cs[c].log| <= cfg.dataNum {
      assert MatchedAlways(cfg, Reached(cfg, run).cs[c]);
    }
    MatchesBound(cfg, Reached(cfg, run).cs);
  }

  /** Whichever consumer it is, its open can fail: it then leaves without a comparison. */
  lemma SomeRunGivesUp(cfg: Config, c: nat) returns (run: seq<Action>)
    requires Usable(cfg) && cfg.dataNum > 0 && c < cfg.consumers
    ensures IsRun(cfg, Init(cfg), run)
    ensures var s := Reached(cfg, run);
      c < |s.cs| && s.cs[c].pc == CDone && s.cs[c].log == []
  {
    InitInv(cfg);
    var tell, t := TellAll(cfg, Init(cfg), 0);
    assert Idle(cfg, t.cs[c].(pending := []), 0);
    RunSnoc(cfg, Init(cfg), tell, Signal(c));
    RunSnoc(cfg, Init(cfg), tell + [Signal(c)], OpenFails(c));
    run := tell + [Signal(c)] + [OpenFails(c)];
  }

  // ----- all signals lost

  /** Nobody has been signalled: every consumer is in its first pause. */
  predicate Asleep(cs: seq<Consumer>) {
    forall c :: 0 <= c < |cs| ==> cs[c].pc == CFirstPause && cs[c].pending == [] && cs[c].log == []
  }

  lemma SendLost(cfg: Config, s: State, n: nat) returns (run: seq<Action>, t: State)
    requires Inv(cfg, s) && Free(cfg, s) && s.p.n == n && s.p.pc == PSpin && Asleep(s.cs)
    ensures Leads(cfg, s, run, t) && Sending(cfg, t, n, cfg.consumers) && Asleep(t.cs)
  {
    var write, u := WriteMessage(cfg, s);
    var send, v := SendAll(cfg, u.cs, u, n, 0, false);
    LeadsAlong(cfg, s, write, u, send, v);
    run, t := write + send, v;
  }

  lemma {:induction false} SendNothing(cfg: Config, s: State, n: nat) returns (run: seq<Action>, t: State)
    requires Inv(cfg, s) && Free(cfg, s) && s.p.n == n <= cfg.dataNum && Asleep(s.cs)
    requires s.p.pc == if n < cfg.dataNum then PSpin else PDone
    ensures Leads(cfg, s, run, t) && Inv(cfg, t) && t.p.pc == PDone && Asleep(t.cs)
    decreases cfg.dataNum - n
  {
    run, t := [], s;
    if n < cfg.dataNum {
      var lost, v := SendLost(cfg, s, n);
      NextMessage(cfg, v, n);
      var w := Step(cfg, v, Produce(true));
      var more, x := SendNothing(cfg, w, n + 1);
      LeadsOn(cfg, s, lost, v, Produce(true));
      LeadsAlong(cfg, s, lost + [Produce(true)], w, more, x);
      run, t := lost + [Produce(true)] + more, x;
    }
  }

  /** Nothing makes the consumers finish: if all signals are dropped, the producer ends, every
      consumer is still in its first pause, and no step is possible any more. */
  lemma SomeRunStrandsAll(cfg: Config) returns (run: seq<Action>)
    requires Usable(cfg)
    ensures IsRun(cfg, Init(cfg), run)
    ensures var s := Reached(cfg, run);
      && s.p.pc == PDone && |s.cs| == cfg.consumers
      && (forall c :: 0 <= c < |s.cs| ==> s.cs[c].pc == CFirstPause && s.cs[c].log == [])
      && forall a :: !Enabled(cfg, s, a)
  {
    InitInv(cfg);
    var t;
    run, t := SendNothing(cfg, Init(cfg), 0);
    assert Asleep(t.cs);
  }
}
