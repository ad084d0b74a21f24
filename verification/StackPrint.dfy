/**
 The stop-the-world protocol of argobots/src/info.c that prints all thread stacks: triggers set
 a flag, every execution stream stops in a barrier, the first to stop prints once all have, and
 the last to go resets the flag.  Each atomic access of the flag or the barrier counter is one
 step.  The number of streams is fixed and the timeout is negative, that is, infinite.
*/
module StackPrint {
  import opened Counting

  datatype Flag = Unset | Initialize | Wait | Finalize

  /** Program points of ABTI_info_check_print_all_thread_stacks. */
  datatype Stream =
    | Running           // outside
    | SawWait           // has read WAIT, is about to increment the barrier
    | Gathering         // got 0: the printer, waiting for the others
    | Printing          // the printer, all streams counted
    | Stopped           // got a positive number: waits for FINALIZE
    | Leaving           // about to assert FINALIZE and decrement
    | Resetting         // decremented to 0, about to store UNSET

  /** Program points of info_trigger_print_all_thread_stacks. */
  datatype Trigger = Ready | SawUnset | Won

  /** `wins` and `prints` count won triggers and started printings; no step reads them. */
  datatype Sys = Sys(flag: Flag, barrier: int, streams: seq<Stream>, triggers: seq<Trigger>, wins: nat, prints: nat)

  datatype Event =
    | Look(i: nat)          // load the flag on entry
    | Enter(i: nat)         // fetch_add
    | AllHere(i: nat)       // the printer finds the barrier full
    | Finish(i: nat)        // the printer stores FINALIZE
    | Released(i: nat)      // a stopped stream reads FINALIZE
    | Exit(i: nat)          // fetch_sub
    | Reset(i: nat)         // the last one stores UNSET
    | Peek(j: nat)          // a trigger reads the flag
    | TryWin(j: nat)        // its compare-and-swap
    | Announce(j: nat)      // it asserts an empty barrier and stores WAIT

  function Init(n: nat, m: nat): Sys {
    Sys(Unset, 0, seq(n, _ => Running), seq(m, _ => Ready), 0, 0)
  }

  predicate At(s: Sys, i: nat, pc: Stream) { i < |s.streams| && s.streams[i] == pc }

  predicate TriggerAt(s: Sys, j: nat, pc: Trigger) { j < |s.triggers| && s.triggers[j] == pc }

  predicate Enabled(s: Sys, e: Event) {
    match e
    case Look(i) => At(s, i, Running)
    case Enter(i) => At(s, i, SawWait)
    case AllHere(i) => At(s, i, Gathering) && |s.streams| <= s.barrier
    case Finish(i) => At(s, i, Printing)
    case Released(i) => At(s, i, Stopped) && s.flag == Finalize
    case Exit(i) => At(s, i, Leaving)
    case Reset(i) => At(s, i, Resetting)
    case Peek(j) => TriggerAt(s, j, Ready)
    case TryWin(j) => TriggerAt(s, j, SawUnset)
    case Announce(j) => TriggerAt(s, j, Won)
  }

  function Move(s: Sys, i: nat, pc: Stream): Sys
    requires i < |s.streams|
  {
    s.(streams := s.streams[i := pc])
  }

  function Step(s: Sys, e: Event): Sys
    requires Enabled(s, e)
  {
    match e
    case Look(i) => if s.flag == Wait then Move(s, i, SawWait) else s
    case Enter(i) => Move(s, i, if s.barrier == 0 then Gathering else Stopped).(barrier := s.barrier + 1)
    case AllHere(i) => Move(s, i, Printing).(prints := s.prints + 1)
    case Finish(i) => Move(s, i, Leaving).(flag := Finalize)
    case Released(i) => Move(s, i, Leaving)
    case Exit(i) => Move(s, i, if s.barrier == 1 then Resetting else Running).(barrier := s.barrier - 1)
    case Reset(i) => Move(s, i, Running).(flag := Unset)
    case Peek(j) => s.(triggers := s.triggers[j := if s.flag == Unset then SawUnset else Ready])
    case TryWin(j) =>
      if s.flag == Unset then s.(flag := Initialize, triggers := s.triggers[j := Won], wins := s.wins + 1)
      else s.(triggers := s.triggers[j := Ready])
    case Announce(j) => s.(flag := Wait, triggers := s.triggers[j := Ready])
  }

  // ---------------------------------------------------------------- the invariant

  predicate Inside(pc: Stream) { pc in {Gathering, Printing, Stopped, Leaving} }

  predicate IsPrinter(pc: Stream) { pc in {Gathering, Printing} }

  predicate IsLast(pc: Stream) { pc == Resetting }

  predicate HasWon(pc: Trigger) { pc == Won }

  /** The program points streams can be at while the flag has a value. */
  predicate Fits(flag: Flag, pc: Stream) {
    match flag
    case Unset => pc == Running
    case Initialize => pc == Running
    case Wait => pc in {Running, SawWait, Gathering, Printing, Stopped}
    case Finalize => pc in {Running, Stopped, Leaving, Resetting}
  }

  predicate Prints(pc: Stream) { pc == Printing }

  /** The won trigger whose stacks are still to be printed, if there is one. */
  function Due(s: Sys): nat {
    if s.flag == Initialize || (s.flag == Wait && Count(s.streams, Prints) == 0) then 1 else 0
  }

  predicate Counted(s: Sys) {
    && s.barrier == Count(s.streams, Inside)
    && Count(s.triggers, HasWon) == (if s.flag == Initialize then 1 else 0)
    && Count(s.streams, IsPrinter) == (if s.flag == Wait && 0 < s.barrier then 1 else 0)
    && Count(s.streams, IsLast) == (if s.flag == Finalize && s.barrier == 0 then 1 else 0)
    && (0 < Count(s.streams, Prints) ==> s.barrier == |s.streams|)
    && s.wins == s.prints + Due(s)
  }

  predicate Inv(s: Sys) {
    && 0 < |s.streams|
    && (forall i :: 0 <= i < |s.streams| ==> Fits(s.flag, s.streams[i]))
    && Counted(s)
  }

  lemma InitInv(n: nat, m: nat)
    requires 0 < n
    ensures Inv(Init(n, m))
  {
    CountNone(Init(n, m).streams, Inside);
    CountNone(Init(n, m).streams, IsPrinter);
    CountNone(Init(n, m).streams, IsLast);
    CountNone(Init(n, m).streams, Prints);
    CountNone(Init(n, m).triggers, HasWon);
  }

  lemma MoveCounts(s: seq<Stream>, i: nat, pc: Stream)
    requires i < |s|
    ensures Count(s[i := pc], Inside) == Count(s, Inside) - One(Inside(s[i])) + One(Inside(pc))
    ensures Count(s[i := pc], IsPrinter) == Count(s, IsPrinter) - One(IsPrinter(s[i])) + One(IsPrinter(pc))
    ensures Count(s[i := pc], IsLast) == Count(s, IsLast) - One(IsLast(s[i])) + One(IsLast(pc))
    ensures Count(s[i := pc], Prints) == Count(s, Prints) - One(Prints(s[i])) + One(Prints(pc))
  {
    CountUpdate(s, i, pc, Inside);
    CountUpdate(s, i, pc, IsPrinter);
    CountUpdate(s, i, pc, IsLast);
    CountUpdate(s, i, pc, Prints);
  }

  /** A printer is the only one. */
  lemma OnePrinter(s: Sys, i: nat, k: nat)
    requires Inv(s) && i < |s.streams| && IsPrinter(s.streams[i]) && k < |s.streams| && k != i
    ensures !IsPrinter(s.streams[k]) && s.flag == Wait && 0 < s.barrier
  {
    CountSome(s.streams, IsPrinter, i);
    if IsPrinter(s.streams[k]) {
      CountTwo(s.streams, IsPrinter, if k < i then k else i, if k < i then i else k);
    }
  }

  /** While somebody prints every other stream is stopped. */
  lemma PrinterAlone(s: Sys, i: nat)
    requires Inv(s) && At(s, i, Printing)
    ensures s.flag == Wait && s.barrier == |s.streams| && s.prints == s.wins
    ensures forall k :: 0 <= k < |s.streams| && k != i ==> s.streams[k] == Stopped
  {
    CountAll(s.streams, Inside);
    CountSome(s.streams, Prints, i);
    forall k | 0 <= k < |s.streams| && k != i ensures s.streams[k] == Stopped {
      OnePrinter(s, i, k);
    }
  }

  lemma EnterKeeps(s: Sys, i: nat)
    requires Inv(s) && Enabled(s, Enter(i))
    ensures Inv(Step(s, Enter(i)))
  {
    MoveCounts(s.streams, i, Step(s, Enter(i)).streams[i]);
    CountAll(s.streams, Inside);
  }

  lemma AllHereKeeps(s: Sys, i: nat)
    requires Inv(s) && Enabled(s, AllHere(i))
    ensures Inv(Step(s, AllHere(i)))
  {
    MoveCounts(s.streams, i, Printing);
    CountSome(s.streams, IsPrinter, i);
    forall k | 0 <= k < |s.streams| ensures !Prints(s.streams[k]) {
      if k != i {
        OnePrinter(s, i, k);
      }
    }
    CountNone(s.streams, Prints);
  }

  lemma FinishKeeps(s: Sys, i: nat)
    requires Inv(s) && Enabled(s, Finish(i))
    ensures Inv(Step(s, Finish(i)))
  {
    PrinterAlone(s, i);
    MoveCounts(s.streams, i, Leaving);
  }

  lemma ExitKeeps(s: Sys, i: nat)
    requires Inv(s) && Enabled(s, Exit(i))
    ensures Inv(Step(s, Exit(i)))
  {
    CountSome(s.streams, Inside, i);
    CountNone(s.streams, Prints);
    MoveCounts(s.streams, i, Step(s, Exit(i)).streams[i]);
  }

  lemma ResetKeeps(s: Sys, i: nat)
    requires Inv(s) && Enabled(s, Reset(i))
    ensures Inv(Step(s, Reset(i)))
  {
    CountSome(s.streams, IsLast, i);
    CountNone(s.streams, Inside);
    MoveCounts(s.streams, i, Running);
    forall k | 0 <= k < |s.streams| && k != i ensures s.streams[k] == Running {
      if s.streams[k] == Resetting {
        CountTwo(s.streams, IsLast, if k < i then k else i, if k < i then i else k);
      }
    }
  }

  lemma TriggerKeeps(s: Sys, j: nat, e: Event)
    requires Inv(s) && Enabled(s, e) && (e == Peek(j) || e == TryWin(j) || e == Announce(j))
    ensures Inv(Step(s, e))
  {
    CountUpdate(s.triggers, j, Step(s, e).triggers[j], HasWon);
    if e == Announce(j) {
      CountSome(s.triggers, HasWon, j);
      CountNone(s.streams, Inside);
      CountNone(s.streams, Prints);
    }
  }

  lemma StepKeeps(s: Sys, e: Event)
    requires Inv(s) && Enabled(s, e)
    ensures Inv(Step(s, e))
  {
    match e
    case Look(i) => MoveCounts(s.streams, i, SawWait);
    case Enter(i) => EnterKeeps(s, i);
    case AllHere(i) => AllHereKeeps(s, i);
    case Finish(i) => FinishKeeps(s, i);
    case Released(i) => MoveCounts(s.streams, i, Leaving);
    case Exit(i) => ExitKeeps(s, i);
    case Reset(i) => ResetKeeps(s, i);
    case Peek(j) => TriggerKeeps(s, j, e);
    case TryWin(j) => TriggerKeeps(s, j, e);
    case Announce(j) => TriggerKeeps(s, j, e);
  }

  // ---------------------------------------------------------------- runs and main results

  ghost predicate Runs(s: Sys, es: seq<Event>, s': Sys)
    decreases |es|
  {
    if es == [] then s' == s
    else Enabled(s, es[0]) && Runs(Step(s, es[0]), es[1..], s')
  }

  lemma {:induction false} RunKeeps(s: Sys, es: seq<Event>, s': Sys)
    requires Inv(s) && Runs(s, es, s')
    ensures Inv(s')
    decreases |es|
  {
    if es != [] {
      StepKeeps(s, es[0]);
      RunKeeps(Step(s, es[0]), es[1..], s');
    }
  }

  /**
   Both run-time assertions of the code hold in every run: a departing stream finds FINALIZE,
   and a trigger that has won finds the barrier empty.
  */
  lemma AssertionsHold(n: nat, m: nat, es: seq<Event>, s: Sys)
    requires 0 < n && Runs(Init(n, m), es, s)
    ensures forall i :: 0 <= i < |s.streams| && s.streams[i] == Leaving ==> s.flag == Finalize
    ensures forall j :: 0 <= j < |s.triggers| && s.triggers[j] == Won ==> s.flag == Initialize && s.barrier == 0
  {
    InitInv(n, m);
    RunKeeps(Init(n, m), es, s);
    forall j | 0 <= j < |s.triggers| && s.triggers[j] == Won ensures s.flag == Initialize && s.barrier == 0 {
      CountSome(s.triggers, HasWon, j);
      CountNone(s.streams, Inside);
    }
  }

  /** Whoever prints is the only printer, and every other stream is stopped inside the barrier. */
  lemma PrintingStopsTheWorld(n: nat, m: nat, es: seq<Event>, s: Sys, i: nat)
    requires 0 < n && Runs(Init(n, m), es, s) && At(s, i, Printing)
    ensures s.flag == Wait && s.barrier == |s.streams|
    ensures forall k :: 0 <= k < |s.streams| && k != i ==> s.streams[k] == Stopped
  {
    InitInv(n, m);
    RunKeeps(Init(n, m), es, s);
    PrinterAlone(s, i);
  }

  /** How often WAIT was announced and printing started, going by the events. */
  function Announcements(es: seq<Event>): nat
    decreases |es|
  {
    if es == [] then 0 else (if es[0].Announce? then 1 else 0) + Announcements(es[1..])
  }

  function Printings(es: seq<Event>): nat
    decreases |es|
  {
    if es == [] then 0 else (if es[0].AllHere? then 1 else 0) + Printings(es[1..])
  }

  lemma {:induction false} RunCounts(s: Sys, es: seq<Event>, s': Sys)
    requires Inv(s) && Runs(s, es, s')
    ensures s'.prints == s.prints + Printings(es)
    ensures s'.wins - One(s'.flag == Initialize) == s.wins - One(s.flag == Initialize) + Announcements(es)
    decreases |es|
  {
    if es != [] {
      StepKeeps(s, es[0]);
      StepCounts(s, es[0]);
      RunCounts(Step(s, es[0]), es[1..], s');
    }
  }

  lemma StepCounts(s: Sys, e: Event)
    requires Inv(s) && Enabled(s, e)
    ensures var s' := Step(s, e);
      && s'.prints == s.prints + One(e.AllHere?)
      && s'.wins - One(s'.flag == Initialize) == s.wins - One(s.flag == Initialize) + One(e.Announce?)
  {
    if e.Announce? {
      CountSome(s.triggers, HasWon, e.j);
    }
    if e.Finish? {
      PrinterAlone(s, e.i);
    }
    if e.Reset? {
      CountSome(s.streams, IsLast, e.i);
    }
  }

  /** A trigger that wins is printed exactly once, and before the next one can win. */
  lemma OnePrintingPerTrigger(n: nat, m: nat, es: seq<Event>, s: Sys)
    requires 0 < n && Runs(Init(n, m), es, s)
    ensures s.prints <= s.wins <= s.prints + 1
    ensures s.flag == Unset || s.flag == Finalize ==> s.prints == s.wins
    ensures s.prints == Printings(es) && s.wins == Announcements(es) + One(s.flag == Initialize)
  {
    InitInv(n, m);
    RunKeeps(Init(n, m), es, s);
    RunCounts(Init(n, m), es, s);
  }

  /** No stream passes the barrier before FINALIZE is stored. */
  lemma NobodyLeavesBeforeFinalize(n: nat, m: nat, es: seq<Event>, s: Sys, e: Event)
    requires 0 < n && Runs(Init(n, m), es, s) && s.flag == Wait && Enabled(s, e)
    ensures forall i :: 0 <= i < |s.streams| && Inside(s.streams[i]) ==> Inside(Step(s, e).streams[i])
  {
    InitInv(n, m);
    RunKeeps(Init(n, m), es, s);
  }

  /** A printing in progress can always be carried on by some stream or trigger. */
  lemma NeverStuck(n: nat, m: nat, es: seq<Event>, s: Sys) returns (e: Event)
    requires 0 < n && Runs(Init(n, m), es, s) && s.flag != Unset
    ensures Enabled(s, e) && Step(s, e) != s
  {
    InitInv(n, m);
    RunKeeps(Init(n, m), es, s);
    if s.flag == Initialize {
      CountNone(s.triggers, HasWon);
      var j :| 0 <= j < |s.triggers| && s.triggers[j] == Won;
      e := Announce(j);
    } else if s.flag == Wait {
      e := WaitMove(s);
    } else {
      e := FinalizeMove(s);
    }
  }

  lemma WaitMove(s: Sys) returns (e: Event)
    requires Inv(s) && s.flag == Wait
    ensures Enabled(s, e) && Step(s, e) != s
  {
    CountAll(s.streams, Inside);
    if i :| 0 <= i < |s.streams| && !Inside(s.streams[i]) {
      e := if s.streams[i] == Running then Look(i) else Enter(i);
      assert Step(s, e).streams[i] != s.streams[i];
    } else {
      CountNone(s.streams, IsPrinter);
      var i :| 0 <= i < |s.streams| && IsPrinter(s.streams[i]);
      e := if s.streams[i] == Gathering then AllHere(i) else Finish(i);
      assert Step(s, e).streams[i] != s.streams[i];
    }
  }

  lemma FinalizeMove(s: Sys) returns (e: Event)
    requires Inv(s) && s.flag == Finalize
    ensures Enabled(s, e) && Step(s, e) != s
  {
    if s.barrier == 0 {
      CountNone(s.streams, IsLast);
      var i :| 0 <= i < |s.streams| && s.streams[i] == Resetting;
      e := Reset(i);
    } else {
      CountNone(s.streams, Inside);
      var i :| 0 <= i < |s.streams| && Inside(s.streams[i]);
      e := if s.streams[i] == Stopped then Released(i) else Exit(i);
      assert Step(s, e).streams[i] != s.streams[i];
    }
  }
}
