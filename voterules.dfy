/**
 * The up/down decision table that app/feed/page.tsx applies twice (optimistically and inside
 * the transaction), and the tally that the stored score is meant to track.
 */
module VoteRules {
  import opened Base
  import opened Types

  /** +1 for an up vote, -1 for a down vote. */
  function Signed(d: Dir): int
  {
    if d == Up then 1 else -1
  }

  /** The contribution of a voter's current record (none contributes 0). */
  function Weight(v: Option<Dir>): int
  {
    if v.Some? then Signed(v.value) else 0
  }

  function Flip(d: Dir): Dir
  {
    if d == Up then Down else Up
  }

  /** The voter's record after a cast: repeating the recorded direction retracts it, anything else records the request. */
  function NextVote(current: Option<Dir>, requested: Dir): (r: Option<Dir>)
    ensures r.None? <==> current == Some(requested)
    ensures r.Some? ==> r.value == requested
  {
    if current == Some(requested) then None else Some(requested)
  }

  /** The score change of one cast: -1/+1 to retract, +-2 to switch, +-1 for a first vote. */
  function Delta(current: Option<Dir>, requested: Dir): (r: int)
    ensures r == Weight(NextVote(current, requested)) - Weight(current)
    ensures r != 0
  {
    if current == Some(requested) then -Signed(requested)
    else if current.Some? then 2 * Signed(requested)
    else Signed(requested)
  }

  /** The six rows of the decision table. */
  lemma DecisionTable()
    ensures Delta(None, Up) == 1 && NextVote(None, Up) == Some(Up)
    ensures Delta(None, Down) == -1 && NextVote(None, Down) == Some(Down)
    ensures Delta(Some(Up), Up) == -1 && NextVote(Some(Up), Up) == None
    ensures Delta(Some(Down), Down) == 1 && NextVote(Some(Down), Down) == None
    ensures Delta(Some(Up), Down) == -2 && NextVote(Some(Up), Down) == Some(Down)
    ensures Delta(Some(Down), Up) == 2 && NextVote(Some(Down), Up) == Some(Up)
  {
  }

  // ---- Vote maps: one entry per voter ----

  function Lookup(m: map<string, Dir>, k: string): Option<Dir>
  {
    if k in m then Some(m[k]) else None
  }

  /** Store `v` as `k`'s entry, deleting the entry when `v` is none. */
  function Assign(m: map<string, Dir>, k: string, v: Option<Dir>): map<string, Dir>
  {
    if v.Some? then m[k := v.value] else m - {k}
  }

  function Ups(m: map<string, Dir>): set<string>
  {
    set k | k in m && m[k] == Up
  }

  function Downs(m: map<string, Dir>): set<string>
  {
    set k | k in m && m[k] == Down
  }

  /** Upvotes minus downvotes: the value the stored score documents. */
  function Net(m: map<string, Dir>): int
  {
    |Ups(m)| - |Downs(m)|
  }

  lemma CardSwap(s: set<string>, t: set<string>, k: string)
    requires s - {k} == t - {k}
    ensures |t| == |s| - (if k in s then 1 else 0) + (if k in t then 1 else 0)
  {
    var core := s - {k};
    if k in s {
      assert s == core + {k};
    } else {
      assert s == core;
    }
    if k in t {
      assert t == core + {k};
    } else {
      assert t == core;
    }
  }

  /** Replacing one voter's entry moves the tally by exactly the weight difference. */
  lemma NetAfterAssign(m: map<string, Dir>, k: string, v: Option<Dir>)
    ensures Net(Assign(m, k, v)) == Net(m) - Weight(Lookup(m, k)) + Weight(v)
  {
    var m' := Assign(m, k, v);
    assert Ups(m) - {k} == Ups(m') - {k};
    assert Downs(m) - {k} == Downs(m') - {k};
    CardSwap(Ups(m), Ups(m'), k);
    CardSwap(Downs(m), Downs(m'), k);
  }

  /** One cast changes the tally by exactly the delta the score receives: score minus tally is invariant. */
  lemma CastKeepsDrift(m: map<string, Dir>, k: string, t: Dir)
    ensures Net(Assign(m, k, NextVote(Lookup(m, k), t))) == Net(m) + Delta(Lookup(m, k), t)
  {
    NetAfterAssign(m, k, NextVote(Lookup(m, k), t));
  }

  /**
   * Casting the same direction twice in a row gives back the score and the vote map exactly when
   * the voter did not already hold the opposite direction (from down, two ups end at +1 with no entry).
   */
  lemma CastTwiceRestores(score: int, m: map<string, Dir>, k: string, t: Dir)
    ensures
      var c := Lookup(m, k);
      var m1 := Assign(m, k, NextVote(c, t));
      var s1 := score + Delta(c, t);
      var c1 := Lookup(m1, k);
      var m2 := Assign(m1, k, NextVote(c1, t));
      var s2 := s1 + Delta(c1, t);
      (s2 == score && m2 == m) <==> c != Some(Flip(t))
  {
    var c := Lookup(m, k);
    var m1 := Assign(m, k, NextVote(c, t));
    var c1 := Lookup(m1, k);
    var m2 := Assign(m1, k, NextVote(c1, t));
    if c.None? {
      assert m2 == m;
    } else if c == Some(t) {
      assert m2 == m;
    } else {
      assert Delta(c, t) + Delta(c1, t) != 0;
    }
  }

  // ---- Sequences of casts ----

  datatype Cast = Cast(voter: string, dir: Dir)

  datatype Tally = Tally(score: int, votes: map<string, Dir>)

  /** Apply one cast to an idea's score and vote map, as the decision table prescribes. */
  function Step(s: Tally, c: Cast): Tally
  {
    var cur := Lookup(s.votes, c.voter);
    Tally(s.score + Delta(cur, c.dir), Assign(s.votes, c.voter, NextVote(cur, c.dir)))
  }

  function Replay(s: Tally, casts: seq<Cast>): Tally
    decreases |casts|
  {
    if casts == [] then s else Replay(Step(s, casts[0]), casts[1..])
  }

  /** Any sequence of casts, by any voters in any order, keeps score minus tally unchanged. */
  lemma {:induction false} ReplayKeepsDrift(s: Tally, casts: seq<Cast>)
    ensures Replay(s, casts).score - Net(Replay(s, casts).votes) == s.score - Net(s.votes)
    decreases |casts|
  {
    if casts != [] {
      CastKeepsDrift(s.votes, casts[0].voter, casts[0].dir);
      ReplayKeepsDrift(Step(s, casts[0]), casts[1..]);
    }
  }

  /** From a fresh idea (score 0, no votes) the score equals ups minus downs of the retained votes, whatever the order. */
  lemma FreshIdeaScoreIsTally(casts: seq<Cast>)
    ensures Replay(Tally(0, map[]), casts).score == |Ups(Replay(Tally(0, map[]), casts).votes)| - |Downs(Replay(Tally(0, map[]), casts).votes)|
  {
    assert Ups(map[]) == {};
    assert Downs(map[]) == {};
    ReplayKeepsDrift(Tally(0, map[]), casts);
  }

  /** The worked scenario, one cast at a time: A up, A down, A down, B up, from a fresh idea. */
  lemma Scenario()
    ensures Step(Tally(0, map[]), Cast("A", Up)) == Tally(1, map["A" := Up])
    ensures Step(Tally(1, map["A" := Up]), Cast("A", Down)) == Tally(-1, map["A" := Down])
    ensures Step(Tally(-1, map["A" := Down]), Cast("A", Down)) == Tally(0, map[])
    ensures Step(Tally(0, map[]), Cast("B", Up)) == Tally(1, map["B" := Up])
  {
    assert map["A" := Down] - {"A"} == map[];
  }
}
