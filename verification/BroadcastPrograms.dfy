/** The producer and the consumers of SP_HW10 over the shared memory, statement by statement. */
module BroadcastPrograms {
  import opened Broadcast
  import opened BroadcastSafety

  class Ring {
    const cfg: Config
    const mem: array<Cell>             // the mapped segment
    var ppc: ProducerPc
    var n: nat
    var slot: nat                      // (ptr - addr) / 80 in the producer
    var i: nat
    var k: nat
    const consumers: array<Consumer>   // the variables of each child process
    var last: seq<int>                 // history: the last message written to each slot

    ghost function View(): State
      reads this, mem, consumers
    {
      State(mem[..], Producer(ppc, n, slot, i, k), consumers[..], last)
    }

    constructor (cfg: Config)
      requires Usable(cfg)
      ensures this.cfg == cfg && View() == Init(cfg)
      ensures fresh(mem) && fresh(consumers)
    {
      this.cfg := cfg;
      var init := InitMemory(cfg);
      mem := new Cell[|init|](a requires 0 <= a < |init| => init[a]);
      ppc := if cfg.dataNum == 0 then PDone else PSpin;
      n, slot, i, k := 0, 0, 0, 0;
      consumers := new Consumer[cfg.consumers](_ => Consumer(CFirstPause, 0, 0, "", 0, [], -1, []));
      last := seq(cfg.slots, _ => -1);
      new;
      assert mem[..] == InitMemory(cfg);
      assert consumers[..] == Init(cfg).cs;
    }

    /** The store that takes or releases the lock; program.c has none. */
    method StoreLock(v: int)
      requires Shape(cfg, View())
      modifies mem
      ensures View() == SetLock(cfg, old(View()), v)
    {
      if cfg.locked {
        mem[LockAddress(cfg)] := Word(v);
      }
    }

    /** One byte of strcpy(ptr, seq_msg). */
    method StrcpyByte(ghost delivered: bool)
      requires Enabled(cfg, View(), Produce(delivered)) && ppc == PCopy && Base(slot) + i < mem.Length
      modifies this, mem
      ensures View() == Step(cfg, old(View()), Produce(delivered))
    {
      var text := Message(cfg, n);
      if i < |text| {
        mem[Base(slot) + i] := Ch(text[i]);
        i := i + 1;
      } else {
        mem[Base(slot) + i] := Ch('\0');
        last := last[slot := n];
        ppc := PRelease;
      }
    }

    /** One turn of the loop over sigqueue. */
    method SendOne(delivered: bool)
      requires Enabled(cfg, View(), Produce(delivered)) && ppc == PSend
      modifies this, consumers
      ensures View() == Step(cfg, old(View()), Produce(delivered))
    {
      if delivered {
        consumers[k] := consumers[k].(pending := consumers[k].pending + [n]);
      }
      k := k + 1;
      if k == cfg.consumers {
        ppc := PAdvance;
      }
    }

    /** One step of the producer. */
    method ProducerTurn(delivered: bool)
      requires Enabled(cfg, View(), Produce(delivered)) && Base(slot) + i < mem.Length
      modifies this, mem, consumers
      ensures View() == Step(cfg, old(View()), Produce(delivered))
    {
      match ppc
      case PSpin =>
        StoreLock(1);
        ppc, i := PCopy, 0;
      case PCopy => StrcpyByte(delivered);
      case PRelease =>
        StoreLock(0);
        ppc, k := if cfg.consumers == 0 then PAdvance else PSend, 0;
      case PSend => SendOne(delivered);
      case PAdvance =>
        slot := if n % cfg.slots == cfg.slots - 1 then 0 else slot + 1;
        n := n + 1;
        ppc := if n < cfg.dataNum then PSpin else PDone;
    }

    /** __sync_fetch_and_add(p, 1) */
    method FetchAndAdd()
      requires Shape(cfg, View())
      modifies mem
      ensures mem[..] == old(mem[..])[CounterAddress(cfg) := Word(old(mem[CounterAddress(cfg)]).w + 1)]
    {
      mem[CounterAddress(cfg)] := Word(mem[CounterAddress(cfg)].w + 1);
    }

    /** recv_seq == seqcmp(split), where seqcmp may run off its end. */
    method Compare(me: Consumer, undefined: int) returns (after: Consumer)
      ensures after == Compared(cfg, me, undefined)
    {
      var number := ScanNumber(me.split, if cfg.locked then -1 else 0);
      var counted := me.recv == if number.Some? then number.value else undefined;
      after := Noted(me, Receipt(me.recv, me.split, me.seen, counted));
    }

    /** One step of consumer `c`; `undefined` is what seqcmp returns when it runs off its end. */
    method ConsumerTurn(c: nat, undefined: int)
      requires Enabled(cfg, View(), Consume(c, undefined))
      modifies mem, consumers
      ensures View() == Step(cfg, old(View()), Consume(c, undefined))
    {
      var me := consumers[c];
      match me.pc {
      case COpen => me := me.(pc := CSpin);
      case CSpin =>
        StoreLock(1);
        me := me.(pc := CCopy, split := "", seen := last[me.slot]);
      case CCopy => me := Copied(me, mem[Base(me.slot) + |me.split|].c);
      case CRelease =>
        StoreLock(0);
        me := me.(pc := CCompare);
      case CCompare => me := Compare(me, undefined);
      case CAdd =>
        FetchAndAdd();
        me := me.(pc := CAdvance);
      case CAdvance => me := Advanced(cfg, me);
      }
      consumers[c] := me;
    }

    /** capture_signal in consumer `c`. */
    method CaptureSignal(c: nat)
      requires Enabled(cfg, View(), Signal(c))
      modifies consumers
      ensures View() == Step(cfg, old(View()), Signal(c))
    {
      consumers[c] := Woken(consumers[c]);
    }

    /** shm_open or mmap failed in consumer `c`, which returns. */
    method FailToOpen(c: nat)
      requires Enabled(cfg, View(), OpenFails(c))
      modifies consumers
      ensures View() == Step(cfg, old(View()), OpenFails(c))
    {
      consumers[c] := consumers[c].(pc := CDone);
    }

    /** Whatever step the scheduler picks. */
    method Turn(a: Action)
      requires Inv(cfg, View()) && Enabled(cfg, View(), a)
      modifies this, mem, consumers
      ensures View() == Step(cfg, old(View()), a) && Inv(cfg, View())
    {
      StepKeepsInv(cfg, View(), a);
      match a
      case Produce(delivered) => ProducerTurn(delivered);
      case Consume(c, undefined) => ConsumerTurn(c, undefined);
      case Signal(c) => CaptureSignal(c);
      case OpenFails(c) => FailToOpen(c);
    }

    /** Any interleaving of the processes. */
    method Run(run: seq<Action>)
      requires Inv(cfg, View()) && IsRun(cfg, View(), run)
      modifies this, mem, consumers
      ensures View() == After(cfg, old(View()), run) && Inv(cfg, View())
    {
      var k := 0;
      while k < |run|
        invariant 0 <= k <= |run|
        invariant Inv(cfg, View()) && IsRun(cfg, View(), run[k..])
        invariant After(cfg, View(), run[k..]) == After(cfg, old(View()), run)
      {
        Turn(run[k]);
        assert run[k..][1..] == run[k + 1..];
        k := k + 1;
      }
    }
  }
}
