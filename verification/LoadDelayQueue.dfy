// The load-delay queue against its history. A load issued by one instruction is
// seen by the second one after it, unless the instruction in between writes or
// loads the same register.

module LoadDelayQueue {
  import opened Words
  import opened Mips
  import opened Machine

  // ---- the invariant of the register file and the queue

  ghost predicate Inv(s: State) {
    && s.gpr[0] == 0
    && (s.ldNext.dst == 0 ==> s.ldNext.val == 0)
    && (s.ldPend.dst == 0 ==> s.ldPend.val == 0)
    && (s.ldNext.dst == s.ldPend.dst ==> s.ldNext.dst == 0)
  }

  // No instruction ever sees a non-zero gpr[0], or anything in ldPend.
  lemma FrontInv(s: State, w: u32)
    requires Inv(s)
    ensures Inv(Front(s, w)) && Front(s, w).gpr[0] == 0 && Front(s, w).ldPend == EMPTY
  {
    hide RaiseCop0;
  }

  lemma ExecKeepsInv(s: State)
    requires DataOk(s) && Inv(s) && s.ldPend == EMPTY
    ensures Inv(Exec(s))
  {
    LoadsNameARegister(s);
    hide Decode, DataOk, RegEffect, MemAfter, Cop0After, HiLoAfter, PcAfter, NextPcAfter, Transfers;
  }

  // Both ways out of the switch, the early return of an illegal word included.
  lemma StepKeepsInv(s: State, w: u32)
    requires WordOk(s, w) && Inv(s)
    ensures Inv(StepWord(s, w))
  {
    hide Decode, DataOk, Front, Exec;
    FrontInv(s, w);
    ExecKeepsInv(Front(s, w));
  }

  lemma LoadsNameARegister(s: State)
    requires DataOk(s)
    ensures RegEffect(s).Deferred? ==> RegEffect(s).r != 0
  {
    hide Decode, DataOk, Traps, Misaligned, LoadValue, ShiftValue, ArithValue, ImmediateValue, BcondLinks;
  }

  lemma {:induction false} RunKeepsInv(tr: seq<State>, i: nat)
    requires IsRun(tr) && i < |tr| && Inv(tr[0])
    ensures Inv(tr[i])
  {
    if i > 0 {
      RunKeepsInv(tr, i - 1);
      assert tr[i - 1 + 1] == Step(tr[i - 1]);
      StepKeepsInv(tr[i - 1], FetchWord(tr[i - 1]));
    }
  }

  // ---- the history specification

  predicate About(e: Effect, r: RegIndex) {
    e != NoEffect && e.r == r
  }

  // The value of r after a history of effects: the last one that landed. A write
  // lands at once; a load lands after one more effect that is not about r.
  ghost function Landed(h: seq<Effect>, r: RegIndex, init: u32): u32
    decreases |h|
  {
    if h == [] then init
    else
      var last, before := h[|h| - 1], h[..|h| - 1];
      if last.Write? && last.r == r then last.v
      else if About(last, r) then Landed(before, r, init)
      else if |before| > 0 && before[|before| - 1].Deferred? && before[|before| - 1].r == r then before[|before| - 1].v
      else Landed(before, r, init)
  }

  function InFlight(slot: Slot): Effect {
    if slot.dst == 0 then NoEffect else Deferred(slot.dst, slot.val)
  }

  ghost function EffectAt(tr: seq<State>, i: nat): Effect
    requires IsRun(tr) && i < |tr| - 1
  {
    RegEffect(At(tr, i))
  }

  // What instruction i of a run follows: the loads in flight at the start, then
  // the effects of the instructions before it.
  ghost function History(tr: seq<State>, i: nat): (h: seq<Effect>)
    requires IsRun(tr) && i < |tr|
    ensures |h| == i + 2
  {
    if i == 0 then [InFlight(tr[0].ldNext), InFlight(tr[0].ldPend)]
    else History(tr, i - 1) + [EffectAt(tr, i - 1)]
  }

  // The register file and the queue from one executing instruction to the next.
  lemma NextFront(s: State, w: u32, r: RegIndex)
    requires DataOk(s) && r != 0 && s.ldPend == EMPTY
    ensures var e, t := RegEffect(s), Front(Exec(s), w);
            && t.ldPend == EMPTY
            && t.ldNext == (if e.Deferred? then Slot(e.r, e.v) else EMPTY)
            && t.gpr[r] == (if e.Write? && e.r == r then e.v
                            else if !About(e, r) && s.ldNext.dst == r then s.ldNext.val
                            else s.gpr[r])
  {
    IllegalHasNoEffect(s);
    hide Decode, DataOk, RegEffect, MemAfter, Cop0After, HiLoAfter, PcAfter, NextPcAfter, Transfers, RaiseCop0;
  }

  lemma IllegalHasNoEffect(s: State)
    requires DataOk(s)
    ensures Kind(s).ILLEGAL? ==> RegEffect(s) == NoEffect
  {
    hide Decode, DataOk, Traps, Misaligned, LoadValue, ShiftValue, ArithValue, ImmediateValue, BcondLinks;
  }

  ghost predicate Refines(s: State, h: seq<Effect>, r: RegIndex, init: u32) {
    && s.ldPend == EMPTY
    && s.gpr[r] == Landed(h, r, init)
    && |h| > 0
    && (s.ldNext.dst == r <==> h[|h| - 1].Deferred? && h[|h| - 1].r == r)
    && (s.ldNext.dst == r ==> s.ldNext.val == h[|h| - 1].v)
  }

  lemma RefinesStep(s: State, w: u32, h: seq<Effect>, r: RegIndex, init: u32)
    requires DataOk(s) && r != 0 && Refines(s, h, r, init)
    ensures Refines(Front(Exec(s), w), h + [RegEffect(s)], r, init)
  {
    hide DataOk, Decode, RegEffect, Exec, Front;
    NextFront(s, w, r);
    var h' := h + [RegEffect(s)];
    assert h'[..|h'| - 1] == h;
  }

  lemma RefinesStart(s: State, w: u32, r: RegIndex)
    requires Inv(s) && r != 0
    ensures Refines(Front(s, w), [InFlight(s.ldNext), InFlight(s.ldPend)], r, s.gpr[r])
  {
    hide RaiseCop0;
    var h := [InFlight(s.ldNext), InFlight(s.ldPend)];
    assert h[..1] == [InFlight(s.ldNext)];
    assert h[..1][..0] == [];
    assert Landed([InFlight(s.ldNext)], r, s.gpr[r]) == s.gpr[r];
  }

  // Every instruction of every run sees, in every register, the last write that
  // landed under the load-delay rule.
  lemma QueueRefinesHistory(tr: seq<State>, i: nat, r: RegIndex)
    requires IsRun(tr) && i < |tr| - 1 && Inv(tr[0]) && r != 0
    ensures At(tr, i).gpr[r] == Landed(History(tr, i), r, tr[0].gpr[r])
  {
    RefinesAt(tr, i, r);
  }

  lemma {:induction false} RefinesAt(tr: seq<State>, i: nat, r: RegIndex)
    requires IsRun(tr) && i < |tr| - 1 && Inv(tr[0]) && r != 0
    ensures Refines(At(tr, i), History(tr, i), r, tr[0].gpr[r])
  {
    hide DataOk, Decode, RegEffect, Exec, Front, FetchOk, FetchWord, Refines;
    if i == 0 {
      RefinesStart(tr[0], FetchWord(tr[0]), r);
    } else {
      RefinesAt(tr, i - 1, r);
      assert tr[i - 1 + 1] == Step(tr[i - 1]);
      RefinesStep(At(tr, i - 1), FetchWord(tr[i]), History(tr, i - 1), r, tr[0].gpr[r]);
    }
  }

  // A load issued at step k is seen at step k+2, and not before, when step k+1
  // leaves its register alone.
  lemma LoadLands(tr: seq<State>, k: nat, r: RegIndex, v: u32)
    requires IsRun(tr) && k + 2 < |tr| - 1 && Inv(tr[0]) && r != 0
    requires EffectAt(tr, k) == Deferred(r, v) && !About(EffectAt(tr, k + 1), r)
    ensures At(tr, k + 2).gpr[r] == v
    ensures At(tr, k + 1).gpr[r] == Landed(History(tr, k), r, tr[0].gpr[r])
  {
    hide IsRun, Inv, At, EffectAt;
    QueueRefinesHistory(tr, k + 1, r);
    QueueRefinesHistory(tr, k + 2, r);
    var h := History(tr, k + 2);
    assert h[..|h| - 1] == History(tr, k + 1);
    assert History(tr, k + 1)[..k + 2] == History(tr, k);
  }

  // When step k+1 writes or loads the register, the load of step k never lands:
  // step k+2 sees the value written, or else the value before the load, and what
  // any later step sees is what it would see had the queue held any other value.
  // (An LWL or LWR at k+1 merges the value of the load into the one it queues.)
  lemma LoadNeverLands(tr: seq<State>, k: nat, r: RegIndex, v: u32, i: nat)
    requires IsRun(tr) && k + 2 <= i < |tr| - 1 && Inv(tr[0]) && r != 0
    requires EffectAt(tr, k).Deferred? && EffectAt(tr, k).r == r && About(EffectAt(tr, k + 1), r)
    ensures var e := EffectAt(tr, k + 1); At(tr, k + 2).gpr[r] == if e.Write? then e.v else At(tr, k + 1).gpr[r]
    ensures |History(tr, i)| == i + 2
    ensures At(tr, i).gpr[r] == Landed(History(tr, i)[k + 2 := Deferred(r, v)], r, tr[0].gpr[r])
  {
    hide IsRun, Inv, At, EffectAt, Landed;
    QueueRefinesHistory(tr, k + 1, r);
    QueueRefinesHistory(tr, k + 2, r);
    QueueRefinesHistory(tr, i, r);
    LandedLast(History(tr, k + 1), EffectAt(tr, k + 1), r, tr[0].gpr[r]);
    var h, e := History(tr, i), EffectAt(tr, k + 1);
    HistoryParts(tr, k, i);
    var rest := h[k + 4..];
    assert h == History(tr, k) + [EffectAt(tr, k), e] + rest;
    assert h[k + 2 := Deferred(r, v)] == History(tr, k) + [Deferred(r, v), e] + rest;
    LoadCancelled(History(tr, k), e, rest, r, EffectAt(tr, k).v, v, tr[0].gpr[r]);
  }

  lemma LandedLast(h: seq<Effect>, e: Effect, r: RegIndex, init: u32)
    requires About(e, r)
    ensures Landed(h + [e], r, init) == if e.Write? then e.v else Landed(h, r, init)
  {
    assert (h + [e])[..|h|] == h;
  }

  lemma {:induction false} HistoryParts(tr: seq<State>, k: nat, i: nat)
    requires IsRun(tr) && k + 2 <= i < |tr|
    ensures History(tr, i)[..k + 2] == History(tr, k)
    ensures History(tr, i)[k + 2] == EffectAt(tr, k) && History(tr, i)[k + 3] == EffectAt(tr, k + 1)
  {
    hide IsRun, EffectAt;
    if i == k + 2 {
      assert History(tr, k + 1) == History(tr, k) + [EffectAt(tr, k)];
    } else {
      HistoryParts(tr, k, i - 1);
      assert History(tr, i)[..k + 2] == History(tr, i - 1)[..k + 2];
    }
  }

  // An effect about a register makes the load right before it irrelevant, whatever follows.
  lemma {:induction false} LoadCancelled(h: seq<Effect>, e: Effect, rest: seq<Effect>, r: RegIndex,
                                         v: u32, v': u32, init: u32)
    requires About(e, r)
    ensures Landed(h + [Deferred(r, v), e] + rest, r, init) == Landed(h + [Deferred(r, v'), e] + rest, r, init)
    decreases |rest|
  {
    var a, b := h + [Deferred(r, v), e] + rest, h + [Deferred(r, v'), e] + rest;
    var a', b' := a[..|a| - 1], b[..|b| - 1];
    if rest == [] {
      assert a' == h + [Deferred(r, v)] && b' == h + [Deferred(r, v')];
      assert a'[..|h|] == h && b'[..|h|] == h;
    } else {
      var rest' := rest[..|rest| - 1];
      assert a' == h + [Deferred(r, v), e] + rest' && b' == h + [Deferred(r, v'), e] + rest';
      LoadCancelled(h, e, rest', r, v, v', init);
    }
  }
}
