/**
 * The single-direction toggle of lib/firebase/voting.ts: one record per (idea, user) in a
 * top-level collection keyed `{ideaId}_{userId}`, paired with the idea's `voteCount`.
 */
module Voting {
  import opened Types

  /** A toggle vote record (its server timestamp is not modelled). */
  datatype Ballot = Ballot(ideaId: IdeaId, userId: Uid)

  /** The record key: the two ids joined by an underscore. */
  function VoteKey(ideaId: IdeaId, userId: Uid): (k: string)
    ensures |k| == |ideaId| + 1 + |userId| && k[|ideaId|] == '_'
    ensures k[..|ideaId|] == ideaId && k[|ideaId| + 1..] == userId
  {
    ideaId + "_" + userId
  }

  lemma JoinAt(a: string, b: string, c: string, d: string)
    ensures |a| < |c| ==> (a + "_" + b)[|a|] == '_' && (c + "_" + d)[|a|] == c[|a|]
  {
  }

  /** Keys are unique per pair as long as idea ids hold no underscore. */
  lemma VoteKeyInjective(i1: IdeaId, u1: Uid, i2: IdeaId, u2: Uid)
    requires '_' !in i1 && '_' !in i2
    requires VoteKey(i1, u1) == VoteKey(i2, u2)
    ensures i1 == i2 && u1 == u2
  {
    var k := VoteKey(i1, u1);
    assert k == i1 + "_" + u1 == i2 + "_" + u2;
    if |i1| < |i2| {
      JoinAt(i1, u1, i2, u2);
      assert false;
    } else if |i2| < |i1| {
      JoinAt(i2, u2, i1, u1);
      assert false;
    } else {
      assert i1 == k[..|i1|] == i2;
      assert u1 == k[|i1| + 1..] == u2;
    }
  }

  /** With an underscore in an idea id, two different pairs share a key. */
  lemma VoteKeyCollision()
    ensures VoteKey("a_b", "c") == VoteKey("a", "b_c")
    ensures ("a_b", "c") != ("a", "b_c")
  {
    assert "a_b" != "a";
  }

  /** Every record sits under the key of its own pair, and no recorded idea id holds an underscore. */
  predicate WellKeyed(b: map<string, Ballot>)
  {
    forall k :: k in b ==> k == VoteKey(b[k].ideaId, b[k].userId) && '_' !in b[k].ideaId
  }

  /** The records of one idea. */
  function BallotsFor(b: map<string, Ballot>, ideaId: IdeaId): set<string>
  {
    set k | k in b && b[k].ideaId == ideaId
  }

  /** The collection after toggling `userId`'s record on `ideaId`: delete it if present, create it otherwise. */
  function Toggled(b: map<string, Ballot>, ideaId: IdeaId, userId: Uid): (r: map<string, Ballot>)
    ensures VoteKey(ideaId, userId) in r <==> VoteKey(ideaId, userId) !in b
    ensures VoteKey(ideaId, userId) in r ==> r[VoteKey(ideaId, userId)] == Ballot(ideaId, userId)
    ensures forall k :: k != VoteKey(ideaId, userId) ==> (k in r <==> k in b) && (k in r ==> r[k] == b[k])
  {
    var key := VoteKey(ideaId, userId);
    if key in b then b - {key} else b[key := Ballot(ideaId, userId)]
  }

  /** The `voteCount` increment the same toggle applies. */
  function CountStep(b: map<string, Ballot>, ideaId: IdeaId, userId: Uid): int
  {
    if VoteKey(ideaId, userId) in b then -1 else 1
  }

  /** At most one record per pair: two keys holding the same pair are the same key. */
  lemma OneBallotPerPair(b: map<string, Ballot>, k1: string, k2: string)
    requires WellKeyed(b) && k1 in b && k2 in b
    requires b[k1] == b[k2]
    ensures k1 == k2
  {
  }

  /** In a well-keyed collection, the record under a pair's key belongs to that pair. */
  lemma KeyedRecordIsPair(b: map<string, Ballot>, ideaId: IdeaId, userId: Uid)
    requires WellKeyed(b) && '_' !in ideaId
    requires VoteKey(ideaId, userId) in b
    ensures b[VoteKey(ideaId, userId)] == Ballot(ideaId, userId)
  {
    var k := VoteKey(ideaId, userId);
    VoteKeyInjective(ideaId, userId, b[k].ideaId, b[k].userId);
  }

  lemma CardAdd(s: set<string>, k: string)
    requires k !in s
    ensures |s + {k}| == |s| + 1
  {
  }

  lemma ToggleWellKeyed(b: map<string, Ballot>, ideaId: IdeaId, userId: Uid)
    requires WellKeyed(b) && '_' !in ideaId
    ensures WellKeyed(Toggled(b, ideaId, userId))
  {
  }

  /** A toggle moves the toggled idea's record count by exactly CountStep. */
  lemma ToggleCountsOwn(b: map<string, Ballot>, ideaId: IdeaId, userId: Uid)
    requires WellKeyed(b) && '_' !in ideaId
    ensures |BallotsFor(Toggled(b, ideaId, userId), ideaId)| == |BallotsFor(b, ideaId)| + CountStep(b, ideaId, userId)
  {
    var key := VoteKey(ideaId, userId);
    if key in b {
      KeyedRecordIsPair(b, ideaId, userId);
      RemoveOwn(b, key, ideaId);
    } else {
      AddOwn(b, key, Ballot(ideaId, userId));
    }
  }

  lemma RemoveOwn(b: map<string, Ballot>, key: string, ideaId: IdeaId)
    requires key in b && b[key].ideaId == ideaId
    ensures |BallotsFor(b - {key}, ideaId)| + 1 == |BallotsFor(b, ideaId)|
  {
    var before := BallotsFor(b, ideaId);
    var after := BallotsFor(b - {key}, ideaId);
    assert before == after + {key};
    CardAdd(after, key);
  }

  lemma AddOwn(b: map<string, Ballot>, key: string, rec: Ballot)
    requires key !in b
    ensures |BallotsFor(b[key := rec], rec.ideaId)| == |BallotsFor(b, rec.ideaId)| + 1
  {
    var before := BallotsFor(b, rec.ideaId);
    var after := BallotsFor(b[key := rec], rec.ideaId);
    assert after == before + {key};
    CardAdd(before, key);
  }

  /** A toggle leaves every other idea's records alone. */
  lemma ToggleCountsOther(b: map<string, Ballot>, ideaId: IdeaId, userId: Uid, other: IdeaId)
    requires WellKeyed(b) && '_' !in ideaId && other != ideaId
    ensures BallotsFor(Toggled(b, ideaId, userId), other) == BallotsFor(b, other)
  {
    var key := VoteKey(ideaId, userId);
    if key in b {
      KeyedRecordIsPair(b, ideaId, userId);
    }
  }

  /** Toggling twice restores record presence always, and the whole collection and count when well keyed. */
  lemma ToggleTwice(b: map<string, Ballot>, ideaId: IdeaId, userId: Uid)
    ensures (VoteKey(ideaId, userId) in Toggled(Toggled(b, ideaId, userId), ideaId, userId)) == (VoteKey(ideaId, userId) in b)
    ensures CountStep(b, ideaId, userId) + CountStep(Toggled(b, ideaId, userId), ideaId, userId) == 0
    ensures WellKeyed(b) && '_' !in ideaId ==> Toggled(Toggled(b, ideaId, userId), ideaId, userId) == b
  {
    var key := VoteKey(ideaId, userId);
    if WellKeyed(b) && '_' !in ideaId && key in b {
      KeyedRecordIsPair(b, ideaId, userId);
      assert Toggled(Toggled(b, ideaId, userId), ideaId, userId) == b;
    }
    if key !in b {
      assert Toggled(Toggled(b, ideaId, userId), ideaId, userId) == b;
    }
  }
}
