/** The server's choice of a cipher suite: the server's preferences may come in groups of equal rank,
    within which the client decides. */
module CipherChoice {
  import opened Options

  type Cipher = nat

  /** Where a cipher first stands in a list. */
  function IndexOf(list: seq<Cipher>, c: Cipher): (k: nat)
    requires c in list
    ensures k < |list| && list[k] == c && forall j | 0 <= j < k :: list[j] != c
  {
    if list[0] == c then 0 else 1 + IndexOf(list[1..], c)
  }

  /** The last position of the group that position i belongs to; without flags each stands alone. */
  function GroupEnd(flags: Option<seq<bool>>, n: nat, i: nat): (e: nat)
    requires i < n && (flags.Some? ==> |flags.value| == n)
    ensures i <= e < n
    decreases n - i
  {
    if flags == None || !flags.value[i] || i + 1 == n then i else GroupEnd(flags, n, i + 1)
  }

  /** Flags say that every element but the last of its group is followed by another of the group. */
  predicate WellFormed(flags: Option<seq<bool>>, n: nat) {
    flags.Some? ==> |flags.value| == n && (n > 0 ==> !flags.value[n - 1])
  }

  predicate Candidate(prio: seq<Cipher>, allow: seq<Cipher>, usable: set<Cipher>, i: nat) {
    i < |prio| && prio[i] in usable && prio[i] in allow
  }

  lemma {:induction false} GroupGrows(flags: Option<seq<bool>>, n: nat, i: nat, j: nat)
    requires i <= j < n && WellFormed(flags, n)
    ensures GroupEnd(flags, n, i) <= GroupEnd(flags, n, j)
    ensures GroupEnd(flags, n, i) < j || GroupEnd(flags, n, i) == GroupEnd(flags, n, j)
    decreases n - i
  {
    if i < j && flags.Some? && flags.value[i] {
      GroupGrows(flags, n, i + 1, j);
    }
  }

  /** The best of all candidates: its group is the earliest that has one, and within it no candidate
      stands before it in the other list. */
  ghost predicate Best(prio: seq<Cipher>, flags: Option<seq<bool>>, allow: seq<Cipher>, usable: set<Cipher>, i: nat)
    requires WellFormed(flags, |prio|)
  {
    && Candidate(prio, allow, usable, i)
    && forall j | 0 <= j < |prio| && Candidate(prio, allow, usable, j) ::
         && GroupEnd(flags, |prio|, i) <= GroupEnd(flags, |prio|, j)
         && (GroupEnd(flags, |prio|, i) == GroupEnd(flags, |prio|, j) ==>
            IndexOf(allow, prio[i]) <= IndexOf(allow, prio[j]))
  }

  /** Two positions are of one group: every flag from the one up to the other says that the group goes on. */
  predicate Together(flags: Option<seq<bool>>, i: nat, j: nat)
    requires flags.Some? ==> i < |flags.value| && j < |flags.value|
  {
    i == j || (flags.Some? && forall k | (if i < j then i else j) <= k < (if i < j then j else i) :: flags.value[k])
  }

  lemma {:induction false} SameGroup(flags: Option<seq<bool>>, n: nat, i: nat, j: nat)
    requires i <= j < n && WellFormed(flags, n)
    ensures GroupEnd(flags, n, i) == GroupEnd(flags, n, j) <==> Together(flags, i, j)
    decreases j - i
  {
    if i < j {
      GroupGrows(flags, n, i, j);
      if flags.Some? && flags.value[i] {
        SameGroup(flags, n, i + 1, j);
      }
    }
  }

  /** The same in terms of the flags: against any other candidate the best one wins by its place in the other list
      if they are of one group, and otherwise by standing first. */
  lemma BestByFlags(prio: seq<Cipher>, flags: Option<seq<bool>>, allow: seq<Cipher>, usable: set<Cipher>, i: nat)
    requires WellFormed(flags, |prio|)
    ensures Best(prio, flags, allow, usable, i) <==>
            && Candidate(prio, allow, usable, i)
            && forall j | 0 <= j < |prio| && Candidate(prio, allow, usable, j) ::
                 if Together(flags, i, j) then IndexOf(allow, prio[i]) <= IndexOf(allow, prio[j]) else i < j
  {
    if Candidate(prio, allow, usable, i) {
      forall j | 0 <= j < |prio|
        ensures GroupEnd(flags, |prio|, i) == GroupEnd(flags, |prio|, j) <==> Together(flags, i, j)
        ensures !Together(flags, i, j) ==> (GroupEnd(flags, |prio|, i) < GroupEnd(flags, |prio|, j) <==> i < j)
      {
        if i <= j {
          SameGroup(flags, |prio|, i, j);
          GroupGrows(flags, |prio|, i, j);
        } else {
          SameGroup(flags, |prio|, j, i);
          GroupGrows(flags, |prio|, j, i);
        }
      }
    }
  }

  /** The loop of ssl3_choose_cipher. */
  method Choose(prio: seq<Cipher>, flags: Option<seq<bool>>, allow: seq<Cipher>, usable: set<Cipher>)
      returns (r: Option<Cipher>)
    requires WellFormed(flags, |prio|)
    ensures r == None <==> forall i | 0 <= i < |prio| :: !Candidate(prio, allow, usable, i)
    ensures r.Some? ==>
            exists i: nat :: Candidate(prio, allow, usable, i) && prio[i] == r.value
                && Best(prio, flags, allow, usable, i)
  {
    var groupMin: Option<nat> := None;
    ghost var best: nat := 0;
    for i := 0 to |prio|
      invariant groupMin == None ==> forall j | 0 <= j < i :: !Candidate(prio, allow, usable, j)
      invariant groupMin.Some? ==>
                  && i < |prio| && best < i && Candidate(prio, allow, usable, best)
                     && groupMin.value == IndexOf(allow, prio[best])
                  && GroupEnd(flags, |prio|, best) == GroupEnd(flags, |prio|, i)
                  && forall j | 0 <= j < i && Candidate(prio, allow, usable, j) ::
                       && GroupEnd(flags, |prio|, j) == GroupEnd(flags, |prio|, best)
                       && IndexOf(allow, prio[best]) <= IndexOf(allow, prio[j])
    {
      var c := prio[i];
      if c in usable && c in allow {
        var index := IndexOf(allow, c);
        if flags.Some? && flags.value[i] {
          if groupMin == None || groupMin.value > index {
            groupMin, best := Some(index), i;
          }
        } else {
          if groupMin.Some? && groupMin.value < index {
            index := groupMin.value;
          } else {
            best := i;
          }
          BestSoFar(prio, flags, allow, usable, i, best);
          return Some(allow[index]);
        }
      }
      if flags.Some? && !flags.value[i] && groupMin.Some? {
        BestSoFar(prio, flags, allow, usable, i, best);
        return Some(allow[groupMin.value]);
      }
    }
    return None;
  }

  /** At the end of a group, the best of it is the best of all. */
  lemma BestSoFar(prio: seq<Cipher>, flags: Option<seq<bool>>, allow: seq<Cipher>, usable: set<Cipher>, i: nat,
                  best: nat)
    requires WellFormed(flags, |prio|) && i < |prio| && best <= i && Candidate(prio, allow, usable, best)
    requires GroupEnd(flags, |prio|, best) == i
    requires forall j | 0 <= j <= i && Candidate(prio, allow, usable, j) ::
               GroupEnd(flags, |prio|, j) == i && IndexOf(allow, prio[best]) <= IndexOf(allow, prio[j])
    ensures Best(prio, flags, allow, usable, best)
  {
    forall j | 0 <= j < |prio| && Candidate(prio, allow, usable, j)
      ensures GroupEnd(flags, |prio|, best) <= GroupEnd(flags, |prio|, j)
      ensures GroupEnd(flags, |prio|, best) == GroupEnd(flags, |prio|, j) ==>
              IndexOf(allow, prio[best]) <= IndexOf(allow, prio[j])
    {
      if j > i {
        GroupGrows(flags, |prio|, i, j);
      }
    }
  }

  /** The best cipher is unique: the contract of Choose leaves it no freedom. */
  lemma BestIsUnique(prio: seq<Cipher>, flags: Option<seq<bool>>, allow: seq<Cipher>, usable: set<Cipher>, i: nat,
                     j: nat)
    requires WellFormed(flags, |prio|) && Best(prio, flags, allow, usable, i) && Best(prio, flags, allow, usable, j)
    ensures prio[i] == prio[j]
  {
    assert IndexOf(allow, prio[i]) == IndexOf(allow, prio[j]);
  }

  /** With the client's preference, the best is the first usable cipher of its list. */
  lemma {:induction false} ClientPreference(prio: seq<Cipher>, allow: seq<Cipher>, usable: set<Cipher>, i: nat)
    requires Best(prio, None, allow, usable, i)
    ensures forall j | 0 <= j < i :: !Candidate(prio, allow, usable, j)
  {
    forall j | 0 <= j < i ensures !Candidate(prio, allow, usable, j) {
      assert GroupEnd(None, |prio|, j) == j && GroupEnd(None, |prio|, i) == i;
    }
  }

  /** ssl3_choose_cipher: which list leads depends on an option of the server. */
  method ChooseCipher(serverPreference: bool, server: seq<Cipher>, inGroup: seq<bool>, client: seq<Cipher>,
                      usable: set<Cipher>)
    returns (r: Option<Cipher>)
    requires WellFormed(Some(inGroup), |server|)
    ensures r == None <==> forall c | c in server && c in client :: c !in usable
    ensures r.Some? ==> r.value in server && r.value in client && r.value in usable
    ensures r.Some? && serverPreference ==>
            exists i: nat :: i < |server| && server[i] == r.value && Best(server, Some(inGroup), client, usable, i)
    ensures r.Some? && !serverPreference ==>
            exists i: nat :: i < |client| && client[i] == r.value && Best(client, None, server, usable, i)
  {
    if serverPreference {
      r := Choose(server, Some(inGroup), client, usable);
      if r.Some? {
        ghost var i: nat :| Candidate(server, client, usable, i) && server[i] == r.value
            && Best(server, Some(inGroup), client, usable, i);
      }
      if c :| c in server && c in client && c in usable {
        assert Candidate(server, client, usable, IndexOf(server, c));
      }
    } else {
      r := Choose(client, None, server, usable);
      if r.Some? {
        ghost var i: nat :| Candidate(client, server, usable, i) && client[i] == r.value
            && Best(client, None, server, usable, i);
      }
      if c :| c in server && c in client && c in usable {
        assert Candidate(client, server, usable, IndexOf(client, c));
      }
    }
  }
}
