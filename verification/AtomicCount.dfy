/** The two reference counts as code: one under a lock, one with a compare-and-swap loop that other threads
    interrupt as they like. */
module AtomicCount {
  import opened Options
  import opened ReferenceCount

  /** refcount_lock.c. What happens between taking and releasing the lock is one operation. */
  class LockedCount {
    var count: nat

    constructor (count: nat)
      ensures this.count == count
    {
      this.count := count;
    }

    method Inc()
      requires count <= MAX
      modifies this
      ensures Some(count) == Locked(old(count), Increment) && count <= MAX
    {
      if count < MAX {
        count := count + 1;
      }
    }

    /** None is the abort. */
    method DecAndTestZero() returns (zero: Option<bool>)
      requires count <= MAX
      modifies this
      ensures Locked(old(count), Decrement) == if zero == None then None else Some(count)
      ensures zero.Some? ==> zero.value == ReportsZero(count)
      ensures count <= MAX && (zero == None ==> count == old(count))
    {
      if count == 0 {
        return None;
      }
      if count < MAX {
        count := count - 1;
      }
      return Some(count == 0);
    }
  }

  /** What other threads do before the next access, and whether a compare-and-swap then fails for no reason. */
  datatype Interference = Interference(ops: seq<Op>, spurious: bool)

  /** refcount_c11.c, seen by one thread. */
  class SharedCount {
    var count: nat
    var others: seq<Interference>
    ghost const initial: nat
    ghost var history: seq<Op>      // every operation that has taken effect, of any thread, in order
    ghost var mine: seq<nat>        // which of them are operations of this thread

    /** The count is what the locked version makes of the operations so far. */
    ghost predicate Valid()
      reads this
    {
      count <= MAX && LockedAll(initial, history) == Some(count) && forall at | at in mine :: at < |history|
    }

    constructor (count: nat, others: seq<Interference>)
      requires count <= MAX
      ensures Valid() && history == [] && mine == []
    {
      this.count, this.others, initial, history, mine := count, others, count, [], [];
    }

    /** An operation of this thread takes effect. */
    method TakeMine(op: Op, after: nat)
      requires Valid() && Locked(count, op) == Some(after)
      modifies this`count, this`history, this`mine
      ensures Valid() && count == after && history == old(history) + [op] && mine == old(mine) + [|old(history)|]
    {
      mine := mine + [|history|];
      assert (history + [op])[..|history|] == history;
      count, history := after, history + [op];
    }

    /** An operation of another thread takes effect. */
    method TakeOther(op: Op, after: nat)
      requires Valid() && Locked(count, op) == Some(after)
      modifies this`count, this`history
      ensures Valid() && count == after && history == old(history) + [op]
    {
      assert (history + [op])[..|history|] == history;
      count, history := after, history + [op];
    }

    /** The other threads run. */
    method Interrupt() returns (spurious: bool)
      requires Valid()
      modifies this`count, this`history, this`others
      ensures Valid() && old(history) <= history && |others| == if old(others) == [] then 0 else |old(others)| - 1
      ensures old(others) == [] ==> history == old(history) && count == old(count) && !spurious
    {
      if others == [] {
        return false;
      }
      var ops := others[0].ops;
      spurious, others := others[0].spurious, others[1..];
      var i := 0;
      while i < |ops|
        modifies this`count, this`history
        invariant i <= |ops| && Valid() && old(history) <= history
      {
        var after := Locked(count, ops[i]);
        if after.Some? {
          TakeOther(ops[i], after.value);
        }
        i := i + 1;
      }
    }

    /** After what came before, the operation took effect on the given count, and is the only one of this
        thread that did. */
    ghost predicate TookOn(before: seq<Op>, mineBefore: seq<nat>, at: nat, op: Op, on: nat)
      reads this
    {
      && |before| <= at < |history| && before <= history[..at] && history[at] == op
      && mine == mineBefore + [at] && LockedAll(initial, history[..at]) == Some(on)
    }

    /** atomic_compare_exchange_weak: other threads may have run since expected was read. */
    method CompareExchange(expected: nat, desired: nat, op: Op) returns (swapped: bool, found: nat)
      requires Valid() && Locked(expected, op) == Some(desired)
      modifies this
      ensures Valid() && |others| == if old(others) == [] then 0 else |old(others)| - 1
      ensures old(history) <= history && found <= MAX
      ensures swapped ==>
                && found == expected && count == desired && history != []
                && TookOn(old(history), old(mine), |history| - 1, op, expected)
      ensures !swapped ==> found == count && mine == old(mine)
      ensures old(others) == [] && expected == old(count) ==> swapped
    {
      var spurious := Interrupt();
      found := count;
      swapped := !spurious && count == expected;
      if swapped {
        TakeMine(op, desired);
        assert history[..|history| - 1] + [op] == history;
      }
    }

    /** CRYPTO_refcount_inc: at one moment during the call, the increment of the locked version. A saturated
        count is left alone, which is what that increment comes to. */
    method Inc() returns (ghost at: nat, ghost on: nat)
      requires Valid()
      modifies this
      ensures Valid() && TookOn(old(history), old(mine), at, Increment, on)
    {
      hide LockedAll;
      var spurious := Interrupt();
      var expected := count;
      while expected != MAX
        invariant Valid() && expected == count && old(history) <= history && mine == old(mine)
        decreases |others|
      {
        var swapped, found := CompareExchange(expected, expected + 1, Increment);
        if swapped {
          at, on := |history| - 1, expected;
          return;
        }
        expected := found;
      }
      at, on := |history|, MAX;
      ghost var before := history;
      TakeMine(Increment, MAX);
      assert history[..at] == before;
    }

    /** CRYPTO_refcount_dec_and_test_zero: the same for the decrement, with its answer; None, the abort, is
        what the locked version does with the count as it then is. */
    method DecAndTestZero() returns (zero: Option<bool>, ghost at: nat, ghost on: nat)
      requires Valid()
      modifies this
      ensures Valid() && old(history) <= history
      ensures zero.Some? ==>
                && TookOn(old(history), old(mine), at, Decrement, on) && on > 0
                && zero.value == (Locked(on, Decrement) == Some(0))
      ensures zero == None ==> Locked(count, Decrement) == None && mine == old(mine)
    {
      hide LockedAll;
      at, on := 0, 0;
      var spurious := Interrupt();
      var expected := count;
      while expected != 0 && expected != MAX
        invariant Valid() && expected == count && old(history) <= history && mine == old(mine)
        decreases |others|
      {
        var swapped, found := CompareExchange(expected, expected - 1, Decrement);
        if swapped {
          at, on := |history| - 1, expected;
          return Some(expected - 1 == 0), at, on;
        }
        expected := found;
      }
      if expected == 0 {
        return None, 0, 0;
      }
      at, on := |history|, MAX;
      ghost var before := history;
      TakeMine(Decrement, MAX);
      assert history[..at] == before;
      return Some(false), at, on;
    }
  }
}
