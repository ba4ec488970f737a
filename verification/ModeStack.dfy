// The three-deep stack of mode bits in SR under any nesting of exceptions and
// returns, and its connection with runs of the machine.

module ModeStack {
  import opened Words
  import opened Mips
  import opened Machine
  import opened Effects

  // The KU/IE pairs of SR: current, previous and old.
  function Current(sr: u32): nat { sr % 4 }

  function Previous(sr: u32): nat { sr / 4 % 4 }

  function Old(sr: u32): nat { sr / 4 / 4 % 4 }

  function Rest(sr: u32): nat { sr / 4 / 4 / 4 }

  // SR's low six bits as pairs, and the bits above.
  datatype Stack = Stack(current: nat, previous: nat, oldest: nat, rest: nat)

  function StackOf(sr: u32): Stack {
    Stack(Current(sr), Previous(sr), Old(sr), Rest(sr))
  }

  // The pairs and the rest determine SR.
  lemma StackDetermines(a: u32, b: u32)
    requires StackOf(a) == StackOf(b)
    ensures a == b
  {
  }

  function Push(s: Stack): Stack { Stack(0, s.current, s.previous, s.rest) }

  function Pop(s: Stack): Stack { Stack(s.previous, s.oldest, s.oldest, s.rest) }

  lemma RaisePushes(sr: u32)
    ensures StackOf(RaiseSr(sr)) == Push(StackOf(sr))
  {
    hide And, Or, Shl;
    Pairs(sr / 4 / 4 / 4, Old(sr), Previous(sr), Current(sr));
    Pairs(sr / 4 / 4 / 4, Previous(sr), Current(sr), 0);
    LowBits(sr);
  }

  lemma RfePops(sr: u32)
    ensures StackOf(RfeSr(sr)) == Pop(StackOf(sr))
  {
    hide And, Or, Shr;
    LowBits(sr);
    Pairs(sr / 4 / 4 / 4, Old(sr), Old(sr), Previous(sr));
  }

  lemma Pairs(rest: nat, o: nat, p: nat, c: nat)
    requires o < 4 && p < 4 && c < 4
    ensures var x := 64 * rest + 16 * o + 4 * p + c;
            x % 4 == c && x / 4 % 4 == p && x / 4 / 4 % 4 == o && x / 4 / 4 / 4 == rest
  {
    DivUnique(64 * rest + 16 * o + 4 * p + c, 4, 16 * rest + 4 * o + p, c);
    DivUnique(16 * rest + 4 * o + p, 4, 4 * rest + o, p);
    DivUnique(4 * rest + o, 4, rest, o);
  }

  lemma LowBits(sr: u32)
    ensures sr == 64 * Rest(sr) + 16 * Old(sr) + 4 * Previous(sr) + Current(sr)
    ensures sr % 64 == 16 * Old(sr) + 4 * Previous(sr) + Current(sr)
    ensures sr % 16 == 4 * Previous(sr) + Current(sr)
    ensures sr % 64 / 4 == 4 * Old(sr) + Previous(sr)
  {
    var o, p, c := Old(sr), Previous(sr), Current(sr);
    DivUnique(sr, 64, Rest(sr), 16 * o + 4 * p + c);
    DivUnique(sr, 16, sr / 4 / 4, 4 * p + c);
    DivUnique(16 * o + 4 * p + c, 4, 4 * o + p, c);
  }

  // ---- nesting

  datatype Event = Enter | Leave

  function Apply(sr: u32, events: seq<Event>): u32
    decreases |events|
  {
    if events == [] then sr
    else Apply(if events[0].Enter? then RaiseSr(sr) else RfeSr(sr), events[1..])
  }

  // From the given depth: every return matches an exception, and all are matched.
  predicate Balanced(events: seq<Event>, depth: nat)
    decreases |events|
  {
    if events == [] then depth == 0
    else if events[0].Enter? then Balanced(events[1..], depth + 1)
    else depth > 0 && Balanced(events[1..], depth - 1)
  }

  // The deepest level reached, at least m.
  function Deepest(events: seq<Event>, depth: nat, m: nat): nat
    decreases |events|
  {
    if events == [] then m
    else if events[0].Enter? then Deepest(events[1..], depth + 1, if depth + 1 > m then depth + 1 else m)
    else if depth > 0 then Deepest(events[1..], depth - 1, m)
    else m
  }

  // The stack at a depth, when m is the deepest level so far and s0 was the stack
  // at depth 0 before it all.
  function Nested(s0: Stack, m: nat, depth: nat): Stack {
    var c, p := s0.current, s0.previous;
    if m == 0 then s0
    else if m == 1 then
      if depth == 0 then Stack(c, p, p, s0.rest) else Stack(0, c, p, s0.rest)
    else if m == 2 then
      if depth == 0 then Stack(c, c, c, s0.rest)
      else if depth == 1 then Stack(0, c, c, s0.rest)
      else Stack(0, 0, c, s0.rest)
    else Stack(0, 0, 0, s0.rest)
  }

  lemma {:induction false} NestingKept(sr: u32, events: seq<Event>, s0: Stack, m: nat, depth: nat)
    requires Balanced(events, depth) && depth <= m && StackOf(sr) == Nested(s0, m, depth)
    ensures StackOf(Apply(sr, events)) == Nested(s0, Deepest(events, depth, m), 0)
    decreases |events|
  {
    hide StackOf, RaiseSr, RfeSr;
    if events != [] {
      if events[0].Enter? {
        RaisePushes(sr);
        NestingKept(RaiseSr(sr), events[1..], s0, if depth + 1 > m then depth + 1 else m, depth + 1);
      } else {
        RfePops(sr);
        NestingKept(RfeSr(sr), events[1..], s0, m, depth - 1);
      }
    }
  }

  // What any balanced nesting leaves in SR: bits above 5 are untouched; the current
  // pair survives two levels and the previous pair one; deeper nesting leaves zeros.
  lemma BalancedNesting(sr: u32, events: seq<Event>)
    requires Balanced(events, 0)
    ensures var after, deepest := Apply(sr, events), Deepest(events, 0, 0);
            && Rest(after) == Rest(sr)
            && Current(after) == (if deepest <= 2 then Current(sr) else 0)
            && Previous(after) == (if deepest <= 1 then Previous(sr) else if deepest == 2 then Current(sr) else 0)
            && (deepest == 0 ==> after == sr)
  {
    NestingKept(sr, events, StackOf(sr), 0, 0);
    var after := Apply(sr, events);
    if Deepest(events, 0, 0) == 0 {
      StackDetermines(after, sr);
    }
    hide Apply, Deepest, Balanced;
  }

  // ---- runs

  // The stack events of one step: a step may raise more than once.
  ghost function EventsOf(s: State, w: u32): seq<Event> {
    (if s.pc % 4 != 0 then [Enter] else []) +
    (if Kind(Front(s, w)).RFE? then [Leave] else Enters(|Traps(Front(s, w))|))
  }

  function Enters(n: nat): seq<Event> {
    if n == 0 then [] else [Enter] + Enters(n - 1)
  }

  ghost predicate WritesSr(s: State, w: u32) {
    Kind(Front(s, w)).MTC0? && InstrRd(w) == COP0_SR
  }

  lemma {:induction false} ApplyAppend(sr: u32, a: seq<Event>, b: seq<Event>)
    ensures Apply(sr, a + b) == Apply(Apply(sr, a), b)
    decreases |a|
  {
    if a == [] {
      assert a + b == b;
    } else {
      assert (a + b)[1..] == a[1..] + b;
      ApplyAppend(if a[0].Enter? then RaiseSr(sr) else RfeSr(sr), a[1..], b);
    }
  }

  lemma {:induction false} TrapsEnter(cop0: Regs, epc: u32, traps: seq<Trap>)
    ensures RaiseAll(cop0, epc, traps)[COP0_SR] == Apply(cop0[COP0_SR], Enters(|traps|))
    decreases |traps|
  {
    hide RaiseSr, RfeSr, RaiseCause;
    if traps != [] {
      var cop0' := RaiseCop0(cop0, epc, traps[0].code);
      assert cop0'[COP0_SR] == RaiseSr(cop0[COP0_SR]);
      assert Enters(|traps|)[1..] == Enters(|traps| - 1);
      TrapsEnter(cop0', epc, traps[1..]);
    }
  }

  lemma ExecSr(s: State)
    requires DataOk(s) && !(Kind(s).MTC0? && InstrRd(s.instr) == COP0_SR)
    ensures Exec(s).cop0[COP0_SR]
         == Apply(s.cop0[COP0_SR], if Kind(s).RFE? then [Leave] else Enters(|Traps(s)|))
  {
    hide Decode, RaiseSr, RfeSr, DataOk, RegEffect, Traps, RaiseAll;
    if Kind(s).RFE? {
      assert [Leave][1..] == [];
      ApplyNone(RfeSr(s.cop0[COP0_SR]));
    } else if Kind(s).MTC0? {
      NoTrapsOf(s);
    } else {
      TrapsEnter(s.cop0, s.currPc, Traps(s));
    }
  }

  lemma FrontSr(s: State, w: u32)
    ensures Front(s, w).cop0[COP0_SR] == Apply(s.cop0[COP0_SR], if s.pc % 4 != 0 then [Enter] else [])
  {
    hide RaiseSr, RfeSr, RaiseCause;
    assert [Enter][1..] == [];
  }

  lemma StepSr(s: State, w: u32)
    requires WordOk(s, w) && !WritesSr(s, w)
    ensures StepWord(s, w).cop0[COP0_SR] == Apply(s.cop0[COP0_SR], EventsOf(s, w))
  {
    FrontSr(s, w);
    ExecSr(Front(s, w));
    hide Front, Exec, Decode, Traps, Apply, Enters, DataOk;
    ApplyAppend(s.cop0[COP0_SR], if s.pc % 4 != 0 then [Enter] else [],
                if Kind(Front(s, w)).RFE? then [Leave] else Enters(|Traps(Front(s, w))|));
  }

  // All stack events of the first i steps of a run.
  ghost function RunEvents(tr: seq<State>, i: nat): seq<Event>
    requires IsRun(tr) && i < |tr|
  {
    if i == 0 then [] else RunEvents(tr, i - 1) + EventsOf(tr[i - 1], FetchWord(tr[i - 1]))
  }

  ghost predicate NoWriteToSr(tr: seq<State>)
    requires IsRun(tr)
  {
    forall i :: 0 <= i < |tr| - 1 ==> !WritesSr(tr[i], FetchWord(tr[i]))
  }

  lemma {:induction false} RunSr(tr: seq<State>, i: nat)
    requires IsRun(tr) && NoWriteToSr(tr) && i < |tr|
    ensures tr[i].cop0[COP0_SR] == Apply(tr[0].cop0[COP0_SR], RunEvents(tr, i))
  {
    hide StepOk, WordOk, FetchOk, FetchWord, StepWord, EventsOf, WritesSr, Apply;
    if i == 0 {
      assert Apply(tr[0].cop0[COP0_SR], []) == tr[0].cop0[COP0_SR] by { ApplyNone(tr[0].cop0[COP0_SR]); }
    } else {
      var s := tr[i - 1];
      RunSr(tr, i - 1);
      assert StepOk(s) && tr[i - 1 + 1] == Step(s);
      StepOkMeans(s);
      StepSr(s, FetchWord(s));
      ApplyAppend(tr[0].cop0[COP0_SR], RunEvents(tr, i - 1), EventsOf(s, FetchWord(s)));
    }
  }

  lemma StepOkMeans(s: State)
    requires StepOk(s)
    ensures FetchOk(s) && WordOk(s, FetchWord(s)) && Step(s) == StepWord(s, FetchWord(s))
  {
  }

  lemma ApplyNone(sr: u32)
    ensures Apply(sr, []) == sr
  {
  }

  // On a run whose exceptions and returns balance, and in which software does not
  // write SR, the mode bits come back as BalancedNesting says.
  lemma RunRestoresModes(tr: seq<State>)
    requires IsRun(tr) && NoWriteToSr(tr) && |tr| > 0
    requires Balanced(RunEvents(tr, |tr| - 1), 0)
    ensures var before, after := tr[0].cop0[COP0_SR], tr[|tr| - 1].cop0[COP0_SR];
            var deepest := Deepest(RunEvents(tr, |tr| - 1), 0, 0);
            && Rest(after) == Rest(before)
            && (deepest <= 2 ==> Current(after) == Current(before))
            && (deepest <= 1 ==> Previous(after) == Previous(before))
            && (deepest > 2 ==> Current(after) == 0 && Previous(after) == 0)
  {
    hide NoWriteToSr, RunEvents, Apply, Balanced, Deepest, Rest, Current, Previous;
    RunSr(tr, |tr| - 1);
    BalancedNesting(tr[0].cop0[COP0_SR], RunEvents(tr, |tr| - 1));
  }
}
