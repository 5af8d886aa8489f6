/** The one-slot semaphore of an eAPI client, under every interleaving of
    concurrent callers.

    A call of OpenSession is identified by a number, and so is the session it
    yields. Each step below is one atomic action of the code: a channel send or
    receive, a check of `open`, a write of `open`, the return of an eAPI call. */
module SessionSlot {

  datatype Call =
    | Waiting   // inside OpenSession, at the select
    | Acquired  // past the select, the eAPI call in flight
    | Gone      // OpenSession returned an error
      // A session. `closing` counts the Commit and Abort calls that saw `open`
      // and whose eAPI call is in flight; `releasing` those between the write
      // of `open` and the drain of the slot.
    | Live(open: bool, closing: nat, releasing: nat)

  /** `slot` is the number of values in the channel, whose capacity is 1. */
  datatype State = State(slot: nat, calls: map<nat, Call>)

  datatype Step =
    | Start(id: nat)
    | Acquire(id: nat)
    | Expire(id: nat)
    | OpenFails(id: nat)
    | OpenOk(id: nat)
    | Use(id: nat)          // Stage, Diff or CommitTimer, whatever its outcome
    | BeginClose(id: nat)   // Commit or Abort on an open session
    | CloseRefused(id: nat) // Commit or Abort on a closed session
    | MarkClosed(id: nat)
    | Release(id: nat)

  const INITIAL := State(0, map[])

  predicate IsLive(s: State, id: nat) {
    id in s.calls && s.calls[id].Live?
  }

  predicate In(s: State, id: nat, c: Call) {
    id in s.calls && s.calls[id] == c
  }

  predicate Enabled(s: State, step: Step) {
    match step
    case Start(id) => id !in s.calls
    case Acquire(id) => In(s, id, Waiting) && s.slot == 0
    case Expire(id) => In(s, id, Waiting)
    // the receive blocks on an empty channel
    case OpenFails(id) => In(s, id, Acquired) && s.slot > 0
    case OpenOk(id) => In(s, id, Acquired)
    case Use(id) => IsLive(s, id) && s.calls[id].open
    case BeginClose(id) => IsLive(s, id) && s.calls[id].open
    case CloseRefused(id) => IsLive(s, id) && !s.calls[id].open
    case MarkClosed(id) => IsLive(s, id) && s.calls[id].closing > 0
    case Release(id) => IsLive(s, id) && s.calls[id].releasing > 0
  }

  function Put(s: State, id: nat, c: Call): State {
    s.(calls := s.calls[id := c])
  }

  function Next(s: State, step: Step): State
    requires Enabled(s, step)
  {
    match step
    case Start(id) => Put(s, id, Waiting)
    case Acquire(id) => Put(s, id, Acquired).(slot := s.slot + 1)
    case Expire(id) => Put(s, id, Gone)
    case OpenFails(id) => Put(s, id, Gone).(slot := s.slot - 1)
    case OpenOk(id) => Put(s, id, Live(true, 0, 0))
    case Use(_) => s
    case BeginClose(id) =>
      var c := s.calls[id];
      Put(s, id, c.(closing := c.closing + 1))
    case CloseRefused(_) => s
    case MarkClosed(id) =>
      var c := s.calls[id];
      Put(s, id, Live(false, c.closing - 1, c.releasing + 1))
    case Release(id) =>
      var c := s.calls[id];
      var drained := Put(s, id, c.(releasing := c.releasing - 1));
      // the drain does not block on an empty channel
      if s.slot > 0 then drained.(slot := s.slot - 1) else drained
  }

  /** Every session has one owner: it does not call Commit or Abort while
      another such call of its own is still running. */
  predicate OwnerIsCareful(s: State, step: Step) {
    step.BeginClose? && IsLive(s, step.id) ==> s.calls[step.id].closing == 0
  }

  ghost predicate IsRun(states: seq<State>, steps: seq<Step>) {
    && |states| == |steps| + 1
    && states[0] == INITIAL
    && forall i :: 0 <= i < |steps| ==>
         Enabled(states[i], steps[i]) && states[i + 1] == Next(states[i], steps[i])
  }

  ghost predicate SingleOwner(states: seq<State>, steps: seq<Step>)
    requires |states| == |steps| + 1
  {
    forall i :: 0 <= i < |steps| ==> OwnerIsCareful(states[i], steps[i])
  }

  // ---- who holds the slot -------------------------------------------------------

  /** An opener past the select, an open session, or a session between
      `open = false` and the drain. */
  predicate Holds(c: Call) {
    c.Acquired? || (c.Live? && (c.open || c.releasing > 0))
  }

  function Holders(s: State): set<nat> {
    set id | id in s.calls && Holds(s.calls[id])
  }

  predicate Consistent(c: Call) {
    c.Live? ==> if c.open then c.closing <= 1 && c.releasing == 0
                else c.closing == 0 && c.releasing <= 1
  }

  ghost predicate Inv(s: State) {
    && s.slot == |Holders(s)|
    && s.slot <= 1
    && forall id :: id in s.calls ==> Consistent(s.calls[id])
  }

  lemma PutHolders(s: State, id: nat, c: Call)
    ensures Holders(Put(s, id, c)) ==
            if Holds(c) then Holders(s) + {id} else Holders(s) - {id}
  {
  }

  lemma OneHolder(s: State, id: nat)
    requires Inv(s) && id in Holders(s)
    ensures Holders(s) == {id} && s.slot == 1
  {
    assert |Holders(s) - {id}| == 0;
    assert Holders(s) - {id} == {};
  }

  /** What a step does to the holders. */
  function HoldersAfter(s: State, step: Step): set<nat>
    requires Enabled(s, step)
  {
    match step
    case Acquire(id) => Holders(s) + {id}
    case OpenFails(id) => Holders(s) - {id}
    case Release(id) =>
      if s.calls[id].open || s.calls[id].releasing > 1 then Holders(s) else Holders(s) - {id}
    case MarkClosed(id) => Holders(s) + {id}
    case _ => Holders(s)
  }

  lemma StepHolders(s: State, step: Step)
    requires Enabled(s, step)
    ensures Holders(Next(s, step)) == HoldersAfter(s, step)
  {
    var t := Next(s, step);
    if step.id in t.calls {
      var c := t.calls[step.id];
      assert t.calls == s.calls[step.id := c];
      PutHolders(s, step.id, c);
      assert Holders(t) == Holders(Put(s, step.id, c));
    }
  }

  lemma StepConsistent(s: State, step: Step)
    requires forall id :: id in s.calls ==> Consistent(s.calls[id])
    requires Enabled(s, step) && OwnerIsCareful(s, step)
    ensures forall id :: id in Next(s, step).calls ==> Consistent(Next(s, step).calls[id])
  {
    var t := Next(s, step);
    forall id | id in t.calls
      ensures Consistent(t.calls[id])
    {
      if id in s.calls {
        assert Consistent(s.calls[id]);
      }
    }
  }

  lemma StepKeepsInv(s: State, step: Step)
    requires Inv(s) && Enabled(s, step) && OwnerIsCareful(s, step)
    ensures Inv(Next(s, step))
  {
    StepHolders(s, step);
    StepConsistent(s, step);
    if step.id in Holders(s) {
      OneHolder(s, step.id);
    }
    if step.Acquire? {
      assert Holders(s) == {};
    }
    if step.MarkClosed? {
      assert Consistent(s.calls[step.id]);
      assert step.id in Holders(s);
      assert Holders(s) + {step.id} == Holders(s);
    }
    if step.Release? {
      assert Consistent(s.calls[step.id]);
      assert {step.id} - {step.id} == {};
    }
    if step.OpenFails? {
      assert {step.id} - {step.id} == {};
    }
  }

  /** In every state of every run the channel holds exactly as many values as
      there are holders, and there is at most one. */
  lemma {:induction false} SlotCountsHolders(states: seq<State>, steps: seq<Step>, i: nat)
    requires IsRun(states, steps) && SingleOwner(states, steps)
    requires i < |states|
    ensures Inv(states[i])
  {
    if i == 0 {
      assert Holders(INITIAL) == {};
    } else {
      SlotCountsHolders(states, steps, i - 1);
      StepKeepsInv(states[i - 1], steps[i - 1]);
    }
  }

  lemma AtMostOneHolder(states: seq<State>, steps: seq<Step>, i: nat, a: nat, b: nat)
    requires IsRun(states, steps) && SingleOwner(states, steps)
    requires i < |states|
    requires a in Holders(states[i]) && b in Holders(states[i])
    ensures a == b
  {
    SlotCountsHolders(states, steps, i);
    OneHolder(states[i], a);
    assert b in {a};
  }

  /** The receive that gives the slot back after a failed open never blocks. */
  lemma FailedOpenNeverBlocks(states: seq<State>, steps: seq<Step>, i: nat, id: nat)
    requires IsRun(states, steps) && SingleOwner(states, steps)
    requires i < |states|
    requires In(states[i], id, Acquired)
    ensures Enabled(states[i], OpenFails(id))
  {
    SlotCountsHolders(states, steps, i);
    OneHolder(states[i], id);
  }

  /** A release always drains the value its own session put there: before it the
      session is the one holder, after it there is none. */
  lemma ReleaseDrainsOwnSlot(states: seq<State>, steps: seq<Step>, i: nat)
    requires IsRun(states, steps) && SingleOwner(states, steps)
    requires i < |steps| && steps[i].Release?
    ensures Holders(states[i]) == {steps[i].id} && states[i].slot == 1
    ensures Holders(states[i + 1]) == {} && states[i + 1].slot == 0
  {
    var id := steps[i].id;
    SlotCountsHolders(states, steps, i);
    SlotCountsHolders(states, steps, i + 1);
    assert Consistent(states[i].calls[id]);
    OneHolder(states[i], id);
    StepHolders(states[i], steps[i]);
  }

  predicate GivesUp(step: Step, id: nat) {
    step == Release(id) || step == OpenFails(id)
  }

  lemma HolderKeepsSlot(s: State, step: Step, id: nat)
    requires Inv(s) && Enabled(s, step) && OwnerIsCareful(s, step)
    requires id in Holders(s) && !GivesUp(step, id)
    ensures id in Holders(Next(s, step))
  {
  }

  lemma {:induction false} HeldThroughout(states: seq<State>, steps: seq<Step>, id: nat, lo: nat, hi: nat)
    requires IsRun(states, steps) && SingleOwner(states, steps)
    requires lo <= hi < |states|
    requires id in Holders(states[lo])
    requires forall k :: lo <= k < hi ==> !GivesUp(steps[k], id)
    ensures id in Holders(states[hi])
    decreases hi
  {
    if lo < hi {
      HeldThroughout(states, steps, id, lo, hi - 1);
      SlotCountsHolders(states, steps, hi - 1);
      HolderKeepsSlot(states[hi - 1], steps[hi - 1], id);
    }
  }

  /** Sessions are served one after the other: between one holder and a later
      acquisition lies the step by which that holder gives the slot up. Stage,
      Diff and CommitTimer are not such steps, nor is a Commit or Abort on a
      session that is already closed. */
  lemma HandOver(states: seq<State>, steps: seq<Step>, id: nat, lo: nat, hi: nat)
    requires IsRun(states, steps) && SingleOwner(states, steps)
    requires lo <= hi < |steps|
    requires id in Holders(states[lo])
    requires steps[hi].Acquire?
    ensures exists k :: lo <= k < hi && GivesUp(steps[k], id)
  {
    assert states[hi].slot == 0 by { assert Enabled(states[hi], steps[hi]); }
    SlotCountsHolders(states, steps, hi);
    if forall k :: lo <= k < hi ==> !GivesUp(steps[k], id) {
      HeldThroughout(states, steps, id, lo, hi);
      OneHolder(states[hi], id);
      assert false;
    }
  }

  // ---- without the ownership rule ----------------------------------------------

  lemma Extend(states: seq<State>, steps: seq<Step>, step: Step) returns (states': seq<State>, steps': seq<Step>)
    requires IsRun(states, steps)
    requires Enabled(states[|steps|], step)
    ensures IsRun(states', steps')
    ensures |steps'| == |steps| + 1
    ensures states'[|steps'|] == Next(states[|steps|], step)
  {
    states', steps' := states + [Next(states[|steps|], step)], steps + [step];
  }

  /** The ownership rule is needed: two overlapping closes of one session drain
      the channel twice, the second time while another opener holds it. */
  lemma SharedSessionLosesSlot()
    ensures exists states: seq<State>, steps: seq<Step> ::
              IsRun(states, steps) && states[|steps|].slot == 0 && 1 in Holders(states[|steps|])
  {
    var states, steps := [INITIAL], [];
    states, steps := Extend(states, steps, Start(0));
    states, steps := Extend(states, steps, Acquire(0));
    states, steps := Extend(states, steps, OpenOk(0));
    states, steps := Extend(states, steps, BeginClose(0));
    states, steps := Extend(states, steps, BeginClose(0));
    assert states[|steps|] == State(1, map[0 := Live(true, 2, 0)]);
    states, steps := Extend(states, steps, MarkClosed(0));
    states, steps := Extend(states, steps, Release(0));
    states, steps := Extend(states, steps, MarkClosed(0));
    assert states[|steps|] == State(0, map[0 := Live(false, 0, 1)]);
    states, steps := Extend(states, steps, Start(1));
    states, steps := Extend(states, steps, Acquire(1));
    states, steps := Extend(states, steps, Release(0));
    assert In(states[|steps|], 1, Acquired);
  }

  // ---- the rule is exactly what the count needs ----------------------------------------

  /** Further steps, each possible where it is taken and each within the rule. */
  ghost predicate CarefulFrom(s: State, steps: seq<Step>)
    decreases |steps|
  {
    steps != [] ==> Enabled(s, steps[0]) && OwnerIsCareful(s, steps[0]) && CarefulFrom(Next(s, steps[0]), steps[1..])
  }

  function After(s: State, steps: seq<Step>): State
    decreases |steps|
  {
    if steps == [] then s
    else if Enabled(s, steps[0]) then After(Next(s, steps[0]), steps[1..])
    else s
  }

  predicate Counted(s: State) {
    s.slot == |Holders(s)|
  }

  lemma {:induction false} CarefulStaysCounted(s: State, steps: seq<Step>)
    requires Inv(s) && CarefulFrom(s, steps)
    ensures Counted(After(s, steps))
    decreases |steps|
  {
    if steps != [] {
      StepKeepsInv(s, steps[0]);
      CarefulStaysCounted(Next(s, steps[0]), steps[1..]);
    }
  }

  /** Two closes of one session that overlap: the first drains the slot, the second
      claims to hold it and finds nothing to drain. */
  function Overlap(id: nat): seq<Step> {
    [MarkClosed(id), Release(id), MarkClosed(id)]
  }

  lemma ThreeSteps(s: State, a: Step, b: Step, c: Step)
    requires Enabled(s, a) && Enabled(Next(s, a), b) && Enabled(Next(Next(s, a), b), c)
    requires !a.BeginClose? && !b.BeginClose? && !c.BeginClose?
    ensures CarefulFrom(s, [a, b, c]) && After(s, [a, b, c]) == Next(Next(Next(s, a), b), c)
  {
    var steps := [a, b, c];
    assert steps[1..] == [b, c] && [b, c][1..] == [c] && [c][1..] == [];
    var s3 := Next(Next(Next(s, a), b), c);
    assert CarefulFrom(s3, []) && After(s3, []) == s3;
    assert CarefulFrom(Next(Next(s, a), b), [c]) && After(Next(Next(s, a), b), [c]) == s3;
    assert CarefulFrom(Next(s, a), [b, c]) && After(Next(s, a), [b, c]) == s3;
  }

  lemma BreachBreaksCount(s: State, step: Step)
    requires Inv(s) && Enabled(s, step) && !OwnerIsCareful(s, step)
    ensures CarefulFrom(Next(s, step), Overlap(step.id))
    ensures !Counted(After(Next(s, step), Overlap(step.id)))
  {
    var id := step.id;
    assert Consistent(s.calls[id]);
    OneHolder(s, id);
    var s1 := Next(s, step);
    assert s1.calls[id] == Live(true, 2, 0);
    var s2 := Next(s1, MarkClosed(id));
    var s3 := Next(s2, Release(id));
    var s4 := Next(s3, MarkClosed(id));
    ThreeSteps(s1, MarkClosed(id), Release(id), MarkClosed(id));
    assert s4.calls[id] == Live(false, 0, 1) && s4.slot == 0;
    assert id in Holders(s4);
    assert |Holders(s4)| > 0;
  }

  /** From any state that a run within the rule can reach, a step keeps the slot equal to
      the number of holders for good, whatever careful steps follow, if and only if the
      step itself is within the rule. */
  lemma CountKeptExactly(s: State, step: Step)
    requires Inv(s) && Enabled(s, step)
    ensures OwnerIsCareful(s, step)
       <==> forall later: seq<Step> :: CarefulFrom(Next(s, step), later) ==> Counted(After(Next(s, step), later))
  {
    if OwnerIsCareful(s, step) {
      StepKeepsInv(s, step);
      forall later: seq<Step> | CarefulFrom(Next(s, step), later) ensures Counted(After(Next(s, step), later)) {
        CarefulStaysCounted(Next(s, step), later);
      }
    } else {
      BreachBreaksCount(s, step);
    }
  }
}
