/** The saturating reference count: the lock-free version, interleaved in any way and with
    compare-and-swap operations that fail for no reason, against the locked one. */
module ReferenceCount {
  import opened Options

  const MAX: nat := 0xffff_ffff

  datatype Op = Increment | Decrement

  /** The locked version, one operation at a time; None is the abort of a decrement at zero. */
  function Locked(count: nat, op: Op): Option<nat> {
    match op
    case Increment => Some(if count < MAX then count + 1 else count)
    case Decrement => if count == 0 then None else Some(if count < MAX then count - 1 else count)
  }

  /** What a decrement returns: whether it brought the count to zero. */
  predicate ReportsZero(after: nat) {
    after == 0
  }

  /** A thread in the middle of an operation: it has read the count and is about to compare and swap. */
  datatype Thread = Idle | Running(op: Op, expected: nat) | Returned(op: Op, zero: bool) | Aborted

  datatype State = State(count: nat, threads: seq<Thread>)

  /** What one step of the lock-free version does to the count, if it is the step that takes effect. */
  datatype Effect = Nothing | Took(op: Op, after: nat) | Abort

  /** A thread reads the count and decides; a saturated or zero count ends the operation at once. */
  predicate Begins(s: State, t: State, i: nat, op: Op, e: Effect)
    requires i < |s.threads|
  {
    && s.threads[i].Idle? && t == s.(threads := s.threads[i := Decide(op, s.count)])
    && e == EffectOf(op, s.count)
  }

  /** The loop after it has a value to expect. */
  function Decide(op: Op, expected: nat): Thread {
    if expected == MAX then Returned(op, false)
    else if op == Decrement && expected == 0 then Aborted
    else Running(op, expected)
  }

  function EffectOf(op: Op, expected: nat): Effect {
    if expected == MAX then Took(op, MAX) else if op == Decrement && expected == 0 then Abort else Nothing
  }

  function NewValue(op: Op, expected: nat): int {
    if op == Increment then expected + 1 else expected - 1
  }

  /** The compare-and-swap succeeds: only if the count is still what the thread expects. */
  predicate Swaps(s: State, t: State, i: nat, e: Effect)
    requires i < |s.threads|
  {
    var th := s.threads[i];
    && th.Running? && th.expected == s.count && NewValue(th.op, th.expected) >= 0
    && t == State(NewValue(th.op, th.expected),
       s.threads[i := Returned(th.op, th.op == Decrement && NewValue(th.op, th.expected) == 0)])
    && e == Took(th.op, t.count)
  }

  /** It fails, with or without a reason, and the thread goes on with the count it found. */
  predicate Retries(s: State, t: State, i: nat, e: Effect)
    requires i < |s.threads|
  {
    var th := s.threads[i];
    && th.Running? && t == s.(threads := s.threads[i := Decide(th.op, s.count)])
    && e == EffectOf(th.op, s.count)
  }

  ghost predicate Step(s: State, t: State, i: nat, e: Effect) {
    i < |s.threads| && ((exists op :: Begins(s, t, i, op, e)) || Swaps(s, t, i, e) || Retries(s, t, i, e))
  }

  /** A running thread expects a value for which it has something to do. */
  ghost predicate Valid(s: State) {
    s.count <= MAX && forall i | 0 <= i < |s.threads| && s.threads[i].Running? ::
      s.threads[i].expected < MAX && (s.threads[i].op == Decrement ==> s.threads[i].expected > 0)
  }

  /** Every step either changes nothing or is one operation of the locked version, with its result; and
      it aborts only when the locked version would. */
  lemma StepRefines(s: State, t: State, i: nat, e: Effect)
    requires Valid(s) && Step(s, t, i, e)
    ensures Valid(t) && |t.threads| == |s.threads|
    ensures e == Nothing ==> t.count == s.count
    ensures e.Took? ==> Locked(s.count, e.op) == Some(e.after) && t.count == e.after
    ensures e.Took? ==> t.threads[i] == Returned(e.op, e.op == Decrement && ReportsZero(e.after))
    ensures e == Abort ==> Locked(s.count, Decrement) == None && t.count == s.count && t.threads[i] == Aborted
    ensures forall j | 0 <= j < |t.threads| && j != i :: t.threads[j] == s.threads[j]
    ensures e == Nothing ==> t.threads[i].Running?
  {
  }

  ghost predicate Run(states: seq<State>, who: seq<nat>, effects: seq<Effect>) {
    && |states| == |who| + 1 == |effects| + 1 && Valid(states[0])
    && forall k | 0 <= k < |who| :: Step(states[k], states[k + 1], who[k], effects[k])
  }

  /** The operations that took effect, in the order in which they did. */
  function Taken(effects: seq<Effect>): seq<Op> {
    if effects == [] then []
    else
      var e := effects[|effects| - 1];
      Taken(effects[..|effects| - 1]) + if e.Took? then [e.op] else []
  }

  /** The locked version on a whole sequence of operations. */
  function LockedAll(count: nat, ops: seq<Op>): Option<nat> {
    if ops == [] then Some(count)
    else
      match LockedAll(count, ops[..|ops| - 1])
      case None => None
      case Some(c) => Locked(c, ops[|ops| - 1])
  }

  /** Any interleaving of the lock-free operations is a run of the locked ones, one after the other. */
  lemma {:induction false} Linearizes(states: seq<State>, who: seq<nat>, effects: seq<Effect>, k: nat)
    requires Run(states, who, effects) && k <= |effects|
    ensures Valid(states[k]) && LockedAll(states[0].count, Taken(effects[..k])) == Some(states[k].count)
    decreases k
  {
    if k > 0 {
      Linearizes(states, who, effects, k - 1);
      StepRefines(states[k - 1], states[k], who[k - 1], effects[k - 1]);
      assert effects[..k][..k - 1] == effects[..k - 1];
      var before, e := Taken(effects[..k - 1]), effects[k - 1];
      if e.Took? {
        assert (before + [e.op])[..|before|] == before;
      } else {
        assert before + [] == before;
      }
    }
  }

  /** A count that has reached the maximum stays there. */
  lemma {:induction false} Saturated(states: seq<State>, who: seq<nat>, effects: seq<Effect>, j: nat, k: nat)
    requires Run(states, who, effects) && j <= k <= |effects| && states[j].count == MAX
    ensures states[k].count == MAX
    decreases k - j
  {
    if j < k {
      Saturated(states, who, effects, j, k - 1);
      Linearizes(states, who, effects, k - 1);
      StepRefines(states[k - 1], states[k], who[k - 1], effects[k - 1]);
    }
  }

  function CountOps(ops: seq<Op>, op: Op): nat {
    if ops == [] then 0 else CountOps(ops[..|ops| - 1], op) + if ops[|ops| - 1] == op then 1 else 0
  }

  /** How many of the decrements reported zero. */
  function Zeros(effects: seq<Effect>): nat {
    if effects == [] then 0
    else
      var e := effects[|effects| - 1];
      Zeros(effects[..|effects| - 1]) + if e.Took? && e.op == Decrement && e.after == 0 then 1 else 0
  }

  /** References are owned: there is never a decrement for which no reference is left, nor an increment
      when none is. */
  ghost predicate Owned(initial: nat, effects: seq<Effect>) {
    && (forall k | 0 <= k < |effects| :: effects[k] != Abort)
    && forall k | 0 <= k < |effects| && effects[k].Took? ::
         CountOps(Taken(effects[..k]), Decrement) < initial + CountOps(Taken(effects[..k]), Increment)
  }

  lemma {:induction false} CountOne(ops: seq<Op>, op: Op, which: Op)
    ensures CountOps(ops + [op], which) == CountOps(ops, which) + if op == which then 1 else 0
  {
    assert (ops + [op])[..|ops|] == ops;
  }

  /** What one more effect does to the tallies. */
  lemma TakenNext(before: seq<Effect>, e: Effect)
    ensures CountOps(Taken(before + [e]), Increment) == CountOps(Taken(before), Increment)
            + if e.Took? && e.op == Increment then 1 else 0
    ensures CountOps(Taken(before + [e]), Decrement) == CountOps(Taken(before), Decrement)
            + if e.Took? && e.op == Decrement then 1 else 0
    ensures Zeros(before + [e]) == Zeros(before) + if e.Took? && e.op == Decrement && e.after == 0 then 1 else 0
  {
    assert (before + [e])[..|before|] == before;
    if e.Took? {
      CountOne(Taken(before), e.op, Increment);
      CountOne(Taken(before), e.op, Decrement);
    } else {
      assert Taken(before) + [] == Taken(before);
    }
  }

  lemma TalliesOfNothing(effects: seq<Effect>)
    requires effects == []
    ensures CountOps(Taken(effects), Increment) == 0 && CountOps(Taken(effects), Decrement) == 0 && Zeros(effects) == 0
  {
  }

  /** What one more step does to the count. */
  lemma Counted(states: seq<State>, who: seq<nat>, effects: seq<Effect>, k: nat)
    requires Run(states, who, effects) && k < |effects| && states[k].count < MAX && effects[k] != Abort
    ensures effects[k] == Nothing ==> states[k + 1].count == states[k].count
    ensures effects[k].Took? && effects[k].op == Increment ==> states[k + 1].count == states[k].count + 1
    ensures effects[k].Took? && effects[k].op == Decrement ==> states[k + 1].count == states[k].count - 1
    ensures effects[k].Took? ==> effects[k].after == states[k + 1].count
  {
    hide Step, LockedAll;
    Linearizes(states, who, effects, k);
    StepRefines(states[k], states[k + 1], who[k], effects[k]);
  }

  /** In an unsaturated run the count is what was taken less what was returned, and as long as every
      operation is on an owned reference, zero is reported at most once, by the last decrement. */
  lemma {:induction false} ZeroOnce(states: seq<State>, who: seq<nat>, effects: seq<Effect>, k: nat)
    requires Run(states, who, effects) && k <= |effects| && states[0].count >= 1
    requires forall j | 0 <= j <= k :: states[j].count < MAX
    requires Owned(states[0].count, effects)
    ensures states[k].count
            == states[0].count + CountOps(Taken(effects[..k]), Increment) - CountOps(Taken(effects[..k]), Decrement)
    ensures Zeros(effects[..k]) == if states[k].count == 0 then 1 else 0
    decreases k
  {
    hide Step, Valid, Taken, CountOps, Zeros, LockedAll;
    if k == 0 {
      TalliesOfNothing(effects[..0]);
    } else {
      ZeroOnce(states, who, effects, k - 1);
      Counted(states, who, effects, k - 1);
      var before, e := effects[..k - 1], effects[k - 1];
      assert effects[..k] == before + [e];
      TakenNext(before, e);
    }
  }
}
