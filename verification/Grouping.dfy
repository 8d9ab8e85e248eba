/** Grouping a list by block, as both ambiguity checks do. */
module Grouping {
  import opened Wrappers

  /** Two places of a list fall into one block, and one of them lacks an index. */
  ghost predicate Clashes<T>(block: T -> Option<nat>, lacks: T -> bool, txs: seq<T>) {
    exists i, j :: 0 <= i < j < |txs| && Clash(block, lacks, txs[i], txs[j])
  }

  predicate Clash<T>(block: T -> Option<nat>, lacks: T -> bool, a: T, b: T) {
    block(a).Some? && block(a) == block(b) && (lacks(a) || lacks(b))
  }

  /** The members of one block, in the order of the list. */
  function GroupOf<T>(block: T -> Option<nat>, txs: seq<T>, b: nat): seq<T> {
    if |txs| == 0 then []
    else GroupOf(block, txs[..|txs| - 1], b) + (if block(txs[|txs| - 1]) == Some(b) then [txs[|txs| - 1]] else [])
  }

  predicate LacksIndex<T>(lacks: T -> bool, group: seq<T>) {
    exists i :: 0 <= i < |group| && lacks(group[i])
  }

  predicate IsBadGroup<T>(lacks: T -> bool, group: seq<T>) {
    |group| >= 2 && LacksIndex(lacks, group)
  }

  lemma {:induction false} InGroup<T>(block: T -> Option<nat>, txs: seq<T>, i: nat)
    requires i < |txs| && block(txs[i]).Some?
    ensures txs[i] in GroupOf(block, txs, block(txs[i]).value)
  {
    if i < |txs| - 1 {
      InGroup(block, txs[..|txs| - 1], i);
    }
  }

  lemma {:induction false} TwoInGroup<T>(block: T -> Option<nat>, txs: seq<T>, i: nat, j: nat)
    requires i < j < |txs| && block(txs[i]).Some? && block(txs[i]) == block(txs[j])
    ensures |GroupOf(block, txs, block(txs[j]).value)| >= 2
  {
    if j < |txs| - 1 {
      TwoInGroup(block, txs[..|txs| - 1], i, j);
    } else {
      InGroup(block, txs[..|txs| - 1], i);
    }
  }

  lemma {:induction false} FromGroup<T>(block: T -> Option<nat>, txs: seq<T>, b: nat, tx: T) returns (i: nat)
    requires tx in GroupOf(block, txs, b)
    ensures i < |txs| && txs[i] == tx && block(tx) == Some(b)
  {
    if tx in GroupOf(block, txs[..|txs| - 1], b) {
      i := FromGroup(block, txs[..|txs| - 1], b, tx);
    } else {
      i := |txs| - 1;
    }
  }

  /** A group of two or more that lacks an index holds two clashing places. */
  lemma {:induction false} GroupClashes<T>(block: T -> Option<nat>, lacks: T -> bool, txs: seq<T>, b: nat, tx: T)
    requires |GroupOf(block, txs, b)| >= 2 && tx in GroupOf(block, txs, b) && lacks(tx)
    ensures Clashes(block, lacks, txs)
  {
    var init, last := txs[..|txs| - 1], txs[|txs| - 1];
    var before := GroupOf(block, init, b);
    if GroupOf(block, txs, b) == before {
      GroupClashes(block, lacks, init, b, tx);
      var i, j :| 0 <= i < j < |init| && Clash(block, lacks, init[i], init[j]);
      assert Clash(block, lacks, txs[i], txs[j]);
    } else {
      var other := if tx in before then tx else before[0];
      var i := FromGroup(block, init, b, other);
      assert Clash(block, lacks, txs[i], txs[|txs| - 1]);
    }
  }

  /** A list clashes exactly when some block's group is bad. */
  lemma ClashesByGroup<T>(block: T -> Option<nat>, lacks: T -> bool, txs: seq<T>)
    ensures Clashes(block, lacks, txs) <==> exists b :: IsBadGroup(lacks, GroupOf(block, txs, b))
  {
    if Clashes(block, lacks, txs) {
      var i, j :| 0 <= i < j < |txs| && Clash(block, lacks, txs[i], txs[j]);
      InGroup(block, txs, i);
      InGroup(block, txs, j);
      TwoInGroup(block, txs, i, j);
      assert IsBadGroup(lacks, GroupOf(block, txs, block(txs[i]).value));
    }
    if exists b :: IsBadGroup(lacks, GroupOf(block, txs, b)) {
      var b :| IsBadGroup(lacks, GroupOf(block, txs, b));
      var i :| 0 <= i < |GroupOf(block, txs, b)| && lacks(GroupOf(block, txs, b)[i]);
      GroupClashes(block, lacks, txs, b, GroupOf(block, txs, b)[i]);
    }
  }

  function At<T>(groups: map<nat, seq<T>>, b: nat): seq<T> {
    if b in groups then groups[b] else []
  }

  /** Every block's group is where the map says. */
  ghost predicate IsGrouped<T>(groups: map<nat, seq<T>>, block: T -> Option<nat>, txs: seq<T>) {
    forall b :: At(groups, b) == GroupOf(block, txs, b)
  }

  lemma GroupsOneMore<T>(groups: map<nat, seq<T>>, block: T -> Option<nat>, txs: seq<T>, tx: T)
    requires IsGrouped(groups, block, txs)
    ensures IsGrouped(match block(tx) case Some(b) => groups[b := At(groups, b) + [tx]] case None => groups, block, txs + [tx])
  {
    var after := match block(tx) case Some(b) => groups[b := At(groups, b) + [tx]] case None => groups;
    assert (txs + [tx])[..|txs|] == txs;
    forall b: nat
      ensures At(after, b) == GroupOf(block, txs + [tx], b)
    {
      assert At(groups, b) == GroupOf(block, txs, b);
    }
  }

  /** Looks through all groups for a bad one. */
  method AnyBadGroup<T>(groups: map<nat, seq<T>>, lacks: T -> bool) returns (bad: bool)
    ensures bad <==> exists b :: b in groups && IsBadGroup(lacks, groups[b])
  {
    var blocks := groups.Keys;
    while blocks != {}
      invariant blocks <= groups.Keys
      invariant forall b :: b in groups && b !in blocks ==> !IsBadGroup(lacks, groups[b])
      decreases blocks
    {
      var b :| b in blocks;
      if |groups[b]| >= 2 {
        var i := 0;
        while i < |groups[b]|
          invariant 0 <= i <= |groups[b]|
          invariant forall k :: 0 <= k < i ==> !lacks(groups[b][k])
        {
          if lacks(groups[b][i]) {
            return true;
          }
          i := i + 1;
        }
      }
      blocks := blocks - {b};
    }
    bad := false;
  }

  lemma BadGroupsClash<T>(groups: map<nat, seq<T>>, block: T -> Option<nat>, lacks: T -> bool, txs: seq<T>)
    requires IsGrouped(groups, block, txs)
    ensures (exists b :: b in groups && IsBadGroup(lacks, groups[b])) <==> Clashes(block, lacks, txs)
  {
    ClashesByGroup(block, lacks, txs);
    if b: nat :| IsBadGroup(lacks, GroupOf(block, txs, b)) {
      assert At(groups, b) == GroupOf(block, txs, b);
    }
    if b :| b in groups && IsBadGroup(lacks, groups[b]) {
      assert At(groups, b) == GroupOf(block, txs, b);
    }
  }
}
