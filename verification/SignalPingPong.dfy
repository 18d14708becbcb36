/** The signal ping-pong of SP_HW7/SP_HW7-1: a child and its parent send TESTSIG to each other
    in turn, `numSigs` times each. TESTSIG does not queue: a second one sent while the first is
    pending is lost. It is blocked except inside `sigsuspend`, and `sigwaitinfo` takes it while
    it stays blocked. */
module SignalPingPong {

  datatype Waiting = Sigsuspend | Sigwaitinfo

  datatype Pc =
    | Kill       // kill(peer, TESTSIG)
    | Wait       // about to call sigsuspend, or inside sigwaitinfo
    | Suspended  // inside sigsuspend, with TESTSIG unblocked
    | Exited

  datatype Process = Process(pc: Pc, scnt: nat, pending: bool)

  datatype Event = ToParent | ToChild

  datatype State = State(
    child: Process, parent: Process,
    sent: seq<Event>,      // history: the kills, in order
    taken: nat,            // history: how many signals were taken
    coalesced: nat,        // history: kills that found the signal already pending
    missed: nat)           // history: kills whose target had exited

  datatype Action = ChildMoves | ParentMoves

  function Init(): State {
    State(Process(Kill, 0, false), Process(Wait, 0, false), [], 0, 0, 0)
  }

  predicate CanMove(p: Process, w: Waiting) {
    match p.pc
    case Kill => true
    case Wait => w == Sigsuspend || p.pending
    case Suspended => p.pending
    case Exited => false
  }

  predicate Enabled(s: State, a: Action, w: Waiting) {
    match a
    case ChildMoves => CanMove(s.child, w)
    case ParentMoves => CanMove(s.parent, w)
  }

  function Hit(target: Process): Process {
    if target.pc == Exited then target else target.(pending := true)
  }

  /** The end of one loop iteration: `scnt++` and the loop test. */
  function EndOfRound(p: Process, first: Pc, numSigs: nat): Process {
    p.(scnt := p.scnt + 1, pc := if p.scnt + 1 < numSigs then first else Exited)
  }

  function ChildStep(s: State, w: Waiting, numSigs: nat): State
    requires CanMove(s.child, w)
  {
    match s.child.pc
    case Kill =>
      s.(child := s.child.(pc := Wait), parent := Hit(s.parent), sent := s.sent + [ToParent],
         coalesced := s.coalesced + (if s.parent.pending then 1 else 0),
         missed := s.missed + (if s.parent.pc == Exited then 1 else 0))
    case _ =>
      if w == Sigsuspend && s.child.pc == Wait then s.(child := s.child.(pc := Suspended))
      else s.(child := EndOfRound(s.child.(pending := false), Kill, numSigs), taken := s.taken + 1)
  }

  function ParentStep(s: State, w: Waiting, numSigs: nat): State
    requires CanMove(s.parent, w)
  {
    match s.parent.pc
    case Kill =>
      s.(parent := EndOfRound(s.parent, Wait, numSigs), child := Hit(s.child), sent := s.sent + [ToChild],
         coalesced := s.coalesced + (if s.child.pending then 1 else 0),
         missed := s.missed + (if s.child.pc == Exited then 1 else 0))
    case _ =>
      if w == Sigsuspend && s.parent.pc == Wait then s.(parent := s.parent.(pc := Suspended))
      else s.(parent := s.parent.(pending := false, pc := Kill), taken := s.taken + 1)
  }

  function Step(s: State, a: Action, w: Waiting, numSigs: nat): State
    requires Enabled(s, a, w)
  {
    match a
    case ChildMoves => ChildStep(s, w, numSigs)
    case ParentMoves => ParentStep(s, w, numSigs)
  }

  predicate IsRun(s: State, run: seq<Action>, w: Waiting, numSigs: nat)
    decreases run
  {
    run == [] || (Enabled(s, run[0], w) && IsRun(Step(s, run[0], w, numSigs), run[1..], w, numSigs))
  }

  function After(s: State, run: seq<Action>, w: Waiting, numSigs: nat): State
    requires IsRun(s, run, w, numSigs)
    decreases run
  {
    if run == [] then s else After(Step(s, run[0], w, numSigs), run[1..], w, numSigs)
  }

  // ----- the alternation

  predicate Waits(p: Process) { p.pc == Wait || p.pc == Suspended }

  predicate Alternating(sent: seq<Event>) {
    forall i :: 0 <= i < |sent| ==> sent[i] == if i % 2 == 0 then ToParent else ToChild
  }

  /** The round trip has five stages; every reachable state is at one of them. */
  predicate Inv(s: State, numSigs: nat) {
    var c, p := s.child, s.parent;
    && Alternating(s.sent) && s.coalesced == 0 && s.missed == 0
    && |s.sent| == s.taken + (if c.pending || p.pending then 1 else 0)
    && (|| (c.pc == Kill && Waits(p) && !c.pending && !p.pending
            && p.scnt == c.scnt < numSigs && |s.sent| == 2 * c.scnt)
        || (Waits(c) && Waits(p) && !c.pending && p.pending
            && p.scnt == c.scnt < numSigs && |s.sent| == 2 * c.scnt + 1)
        || (Waits(c) && p.pc == Kill && !c.pending && !p.pending
            && p.scnt == c.scnt < numSigs && |s.sent| == 2 * c.scnt + 1)
        || (Waits(c) && c.pending && !p.pending && p.scnt == c.scnt + 1 <= numSigs
            && (if p.scnt < numSigs then Waits(p) else p.pc == Exited) && |s.sent| == 2 * p.scnt)
        || (c.pc == Exited && p.pc == Exited && !c.pending && !p.pending
            && p.scnt == c.scnt == numSigs && |s.sent| == 2 * numSigs))
  }

  lemma StepKeepsInv(s: State, a: Action, w: Waiting, numSigs: nat)
    requires Inv(s, numSigs) && Enabled(s, a, w)
    ensures Inv(Step(s, a, w, numSigs), numSigs)
  {
  }

  /** The automaton both programs implement: send and take in turn, 2 * numSigs times each. */
  datatype Turns = Turns(sent: nat, taken: nat)

  function Abstract(s: State): Turns { Turns(|s.sent|, s.taken) }

  predicate Sends(t: Turns, u: Turns, numSigs: nat) {
    t.sent == t.taken && t.sent < 2 * numSigs && u == t.(sent := t.sent + 1)
  }

  predicate Takes(t: Turns, u: Turns) {
    t.sent == t.taken + 1 && u == t.(taken := t.taken + 1)
  }

  /** Each step of either program sends, takes, or (entering `sigsuspend`) changes nothing. */
  lemma StepRefines(s: State, a: Action, w: Waiting, numSigs: nat)
    requires Inv(s, numSigs) && Enabled(s, a, w)
    ensures var t, u := Abstract(s), Abstract(Step(s, a, w, numSigs));
            || Sends(t, u, numSigs) || Takes(t, u)
            || (t == u && w == Sigsuspend)
  {
    StepKeepsInv(s, a, w, numSigs);
  }

  /** The steps of one round of one process: sigsuspend takes two. */
  function RoundSteps(w: Waiting): nat { if w == Sigsuspend then 3 else 2 }

  /** The steps still to come. */
  function Work(s: State, w: Waiting, numSigs: nat): int {
    RoundSteps(w) * (numSigs - s.child.scnt) - (match s.child.pc case Wait => 1 case Suspended => 2 case _ => 0)
    + RoundSteps(w) * (numSigs - s.parent.scnt)
    - (match s.parent.pc case Suspended => 1 case Kill => RoundSteps(w) - 1 case _ => 0)
  }

  /** Only sigsuspend is ever inside itself. */
  predicate NotSuspended(s: State, w: Waiting) {
    w == Sigwaitinfo ==> s.child.pc != Suspended && s.parent.pc != Suspended
  }

  lemma StepUsesWork(s: State, a: Action, w: Waiting, numSigs: nat)
    requires Inv(s, numSigs) && NotSuspended(s, w) && Enabled(s, a, w)
    ensures NotSuspended(Step(s, a, w, numSigs), w)
    ensures Work(Step(s, a, w, numSigs), w, numSigs) == Work(s, w, numSigs) - 1 >= 0
  {
    StepKeepsInv(s, a, w, numSigs);
  }

  lemma NoDeadlock(s: State, w: Waiting, numSigs: nat)
    requires Inv(s, numSigs)
    requires !(s.child.pc == Exited && s.parent.pc == Exited)
    ensures CanMove(s.child, w) || CanMove(s.parent, w)
  {
  }

  lemma {:induction false} RunKeepsInv(s: State, run: seq<Action>, w: Waiting, numSigs: nat)
    requires Inv(s, numSigs) && NotSuspended(s, w) && IsRun(s, run, w, numSigs)
    ensures Inv(After(s, run, w, numSigs), numSigs) && NotSuspended(After(s, run, w, numSigs), w)
    ensures |run| + Work(After(s, run, w, numSigs), w, numSigs) == Work(s, w, numSigs)
    decreases run
  {
    if run != [] {
      StepKeepsInv(s, run[0], w, numSigs);
      StepUsesWork(s, run[0], w, numSigs);
      RunKeepsInv(Step(s, run[0], w, numSigs), run[1..], w, numSigs);
    }
  }

  /** In every run of either program the kills alternate, no signal is lost to coalescing, no
      kill misses its target, and at most one signal is pending in all; a run that cannot be
      extended has done exactly `numSigs` rounds on both sides, in three steps a round with
      sigsuspend and in two with sigwaitinfo. */
  lemma EveryRunAlternates(run: seq<Action>, w: Waiting, numSigs: nat)
    requires numSigs > 0 && IsRun(Init(), run, w, numSigs)
    ensures |run| <= 2 * numSigs * (if w == Sigsuspend then 3 else 2)
    ensures var s := After(Init(), run, w, numSigs);
            && Alternating(s.sent) && s.coalesced == 0 && s.missed == 0
            && !(s.child.pending && s.parent.pending)
            && (s.child.pc == Kill ==> s.parent.pc != Exited && !s.parent.pending)
            && ((forall a :: !Enabled(s, a, w)) ==>
                  && s.child.pc == Exited && s.parent.pc == Exited
                  && s.child.scnt == s.parent.scnt == numSigs
                  && |s.sent| == s.taken == 2 * numSigs
                  && |run| == 2 * numSigs * (if w == Sigsuspend then 3 else 2))
  {
    RunKeepsInv(Init(), run, w, numSigs);
    var s := After(Init(), run, w, numSigs);
    WorkIsNat(s, w, numSigs);
    if forall a :: !Enabled(s, a, w) {
      assert !Enabled(s, ChildMoves, w) && !Enabled(s, ParentMoves, w);
    }
  }

  lemma WorkIsNat(s: State, w: Waiting, numSigs: nat)
    requires Inv(s, numSigs) && NotSuspended(s, w)
    ensures Work(s, w, numSigs) >= 0
  {
  }

  // ----- the two processes

  /** One process: its place in the loop, its counter, and whether TESTSIG is pending for it. */
  class Task {
    var pc: Pc
    var scnt: nat
    var pending: bool

    constructor (first: Pc)
      ensures View() == Process(first, 0, false)
    {
      pc, scnt, pending := first, 0, false;
    }

    function View(): Process
      reads this
    {
      Process(pc, scnt, pending)
    }

    /** kill(target, TESTSIG) */
    method Signal(target: Task)
      requires target != this
      modifies target
      ensures target.View() == Hit(old(target.View()))
    {
      if target.pc != Exited {
        target.pending := true;
      }
    }

    /** One step of sigsuspend or sigwaitinfo; `took` tells whether it returned. */
    method Await(w: Waiting) returns (took: bool)
      requires Waits(View()) && CanMove(View(), w)
      modifies this
      ensures took == (w == Sigwaitinfo || old(pc) == Suspended)
      ensures View() == if took then old(View()).(pending := false) else old(View()).(pc := Suspended)
    {
      if w == Sigsuspend && pc == Wait {
        pc := Suspended;
        return false;
      }
      pending := false;
      return true;
    }

    method Advance(first: Pc, numSigs: nat)
      modifies this
      ensures View() == EndOfRound(old(View()), first, numSigs)
    {
      scnt := scnt + 1;
      pc := if scnt < numSigs then first else Exited;
    }
  }

  method ChildTurn(child: Task, parent: Task, w: Waiting, numSigs: nat, ghost s: State) returns (ghost t: State)
    requires child != parent && CanMove(child.View(), w)
    requires s.child == child.View() && s.parent == parent.View()
    modifies child, parent
    ensures t == ChildStep(s, w, numSigs) && t.child == child.View() && t.parent == parent.View()
  {
    t := ChildStep(s, w, numSigs);
    if child.pc == Kill {
      child.Signal(parent);
      child.pc := Wait;
    } else {
      var took := child.Await(w);
      if took {
        child.Advance(Kill, numSigs);
      }
    }
  }

  method ParentTurn(child: Task, parent: Task, w: Waiting, numSigs: nat, ghost s: State) returns (ghost t: State)
    requires child != parent && CanMove(parent.View(), w)
    requires s.child == child.View() && s.parent == parent.View()
    modifies child, parent
    ensures t == ParentStep(s, w, numSigs) && t.child == child.View() && t.parent == parent.View()
  {
    t := ParentStep(s, w, numSigs);
    if parent.pc == Kill {
      parent.Signal(child);
      parent.Advance(Wait, numSigs);
    } else {
      var took := parent.Await(w);
      if took {
        parent.pc := Kill;
      }
    }
  }

  /** Both loops, interleaved in any way, until both processes have exited. */
  method PingPong(w: Waiting, numSigs: nat) returns (child: Task, parent: Task, ghost s: State)
    requires numSigs > 0
    ensures child.pc == Exited && parent.pc == Exited
    ensures child.scnt == parent.scnt == numSigs
    ensures |s.sent| == s.taken == 2 * numSigs && Alternating(s.sent) && s.coalesced == 0 && s.missed == 0
  {
    child := new Task(Kill);
    parent := new Task(Wait);
    s := Init();
    while child.pc != Exited || parent.pc != Exited
      invariant child != parent && fresh(child) && fresh(parent)
      invariant s.child == child.View() && s.parent == parent.View()
      invariant Inv(s, numSigs) && NotSuspended(s, w)
      decreases Work(s, w, numSigs)
    {
      NoDeadlock(s, w, numSigs);
      if {
        case CanMove(child.View(), w) =>
          StepKeepsInv(s, ChildMoves, w, numSigs);
          StepUsesWork(s, ChildMoves, w, numSigs);
          s := ChildTurn(child, parent, w, numSigs, s);
        case CanMove(parent.View(), w) =>
          StepKeepsInv(s, ParentMoves, w, numSigs);
          StepUsesWork(s, ParentMoves, w, numSigs);
          s := ParentTurn(child, parent, w, numSigs, s);
      }
    }
  }
}
