/**
 * The hosted document store, reduced to the maps the core reads and writes. Each backend
 * transaction is one method: it either applies all of its writes or none of them.
 */
module Store {
  import opened Base
  import opened Types
  import opened VoteRules
  import opened Voting

  /** The up/down votes recorded on one idea (none when it has no sub-collection yet). */
  function VotesIn(votes: map<IdeaId, map<Uid, Dir>>, id: IdeaId): map<Uid, Dir>
  {
    if id in votes then votes[id] else map[]
  }

  /** How far an idea's stored score is from its tally of up/down votes. */
  function DriftIn(ideas: map<IdeaId, Idea>, votes: map<IdeaId, map<Uid, Dir>>, id: IdeaId): int
    requires id in ideas
  {
    OrZero(ideas[id].score) - Net(VotesIn(votes, id))
  }

  /** Every idea's score equals upvotes minus downvotes. */
  predicate ScoresAgree(ideas: map<IdeaId, Idea>, votes: map<IdeaId, map<Uid, Dir>>)
  {
    forall id :: id in ideas ==> DriftIn(ideas, votes, id) == 0
  }

  /** Toggle records are well keyed and every idea's `voteCount` is its number of toggle records. */
  predicate CountsAgree(ideas: map<IdeaId, Idea>, ballots: map<string, Ballot>)
  {
    WellKeyed(ballots) && forall id :: id in ideas ==> ideas[id].voteCount == |BallotsFor(ballots, id)|
  }

  /** The ideas after a committed up/down vote: the idea's score (missing as 0) moves by the delta. */
  function CastIdeas(ideas: map<IdeaId, Idea>, votes: map<IdeaId, map<Uid, Dir>>, id: IdeaId, uid: Uid, t: Dir): (r: map<IdeaId, Idea>)
    requires id in ideas
    ensures r.Keys == ideas.Keys
    ensures OrZero(r[id].score) - OrZero(ideas[id].score) == Weight(NextVote(Lookup(VotesIn(votes, id), uid), t)) - Weight(Lookup(VotesIn(votes, id), uid))
    ensures r[id].(score := ideas[id].score) == ideas[id]
    ensures forall i :: i in ideas && i != id ==> r[i] == ideas[i]
  {
    var cur := Lookup(VotesIn(votes, id), uid);
    ideas[id := ideas[id].(score := Some(OrZero(ideas[id].score) + Delta(cur, t)))]
  }

  /** The votes after a committed up/down vote: the voter's record is set, switched or deleted. */
  function CastVotes(votes: map<IdeaId, map<Uid, Dir>>, id: IdeaId, uid: Uid, t: Dir): (r: map<IdeaId, map<Uid, Dir>>)
    ensures Lookup(VotesIn(r, id), uid) == NextVote(Lookup(VotesIn(votes, id), uid), t)
    ensures forall u :: u != uid ==> Lookup(VotesIn(r, id), u) == Lookup(VotesIn(votes, id), u)
    ensures forall i :: i != id ==> VotesIn(r, i) == VotesIn(votes, i)
  {
    var cur := Lookup(VotesIn(votes, id), uid);
    votes[id := Assign(VotesIn(votes, id), uid, NextVote(cur, t))]
  }

  /** A committed vote keeps every idea's drift, so a store whose scores match the tallies keeps matching. */
  lemma CastKeepsScores(ideas: map<IdeaId, Idea>, votes: map<IdeaId, map<Uid, Dir>>, id: IdeaId, uid: Uid, t: Dir)
    requires id in ideas
    ensures CastIdeas(ideas, votes, id, uid, t).Keys == ideas.Keys
    ensures forall i :: i in ideas ==> DriftIn(CastIdeas(ideas, votes, id, uid, t), CastVotes(votes, id, uid, t), i) == DriftIn(ideas, votes, i)
    ensures ScoresAgree(ideas, votes) ==> ScoresAgree(CastIdeas(ideas, votes, id, uid, t), CastVotes(votes, id, uid, t))
  {
    CastKeepsDrift(VotesIn(votes, id), uid, t);
  }

  /** A committed vote leaves `voteCount` and the toggle records alone. */
  lemma CastKeepsCounts(ideas: map<IdeaId, Idea>, votes: map<IdeaId, map<Uid, Dir>>, ballots: map<string, Ballot>, id: IdeaId, uid: Uid, t: Dir)
    requires id in ideas
    ensures CountsAgree(ideas, ballots) ==> CountsAgree(CastIdeas(ideas, votes, id, uid, t), ballots)
  {
  }

  /**
   * The ideas after a committed toggle: only the toggled idea's `voteCount` changes, by -1 when
   * the pair's record existed and +1 when it did not.
   */
  function ToggleIdeas(ideas: map<IdeaId, Idea>, ballots: map<string, Ballot>, id: IdeaId, uid: Uid): (r: map<IdeaId, Idea>)
    requires id in ideas
    ensures r.Keys == ideas.Keys
    ensures forall i :: i in r ==> r[i].score == ideas[i].score
    ensures r[id].voteCount == ideas[id].voteCount + (if VoteKey(id, uid) in ballots then -1 else 1)
    ensures r[id].(voteCount := ideas[id].voteCount) == ideas[id]
    ensures forall i :: i in ideas && i != id ==> r[i] == ideas[i]
  {
    ideas[id := ideas[id].(voteCount := ideas[id].voteCount + CountStep(ballots, id, uid))]
  }

  /**
   * A committed toggle keeps every `voteCount` equal to its record count, for idea ids without
   * `_` (the only ones whose record keys cannot collide with another pair's).
   */
  lemma ToggleKeepsCounts(ideas: map<IdeaId, Idea>, ballots: map<string, Ballot>, id: IdeaId, uid: Uid)
    requires id in ideas && '_' !in id
    ensures CountsAgree(ideas, ballots) ==> CountsAgree(ToggleIdeas(ideas, ballots, id, uid), Toggled(ballots, id, uid))
  {
    if CountsAgree(ideas, ballots) {
      ToggleWellKeyed(ballots, id, uid);
      ToggleCountsOwn(ballots, id, uid);
      forall other | other != id
        ensures BallotsFor(Toggled(ballots, id, uid), other) == BallotsFor(ballots, other)
      {
        ToggleCountsOther(ballots, id, uid, other);
      }
    }
  }

  /** A status write leaves scores and counts consistent. */
  lemma StatusKeepsConsistency(ideas: map<IdeaId, Idea>, votes: map<IdeaId, map<Uid, Dir>>, ballots: map<string, Ballot>,
                               id: IdeaId, status: string, notes: Option<string>)
    requires id in ideas
    ensures var patched := ideas[id := ideas[id].(status := status, reviewNotes := if notes.Some? then notes else ideas[id].reviewNotes)];
      (ScoresAgree(ideas, votes) ==> ScoresAgree(patched, votes)) && (CountsAgree(ideas, ballots) ==> CountsAgree(patched, ballots))
  {
  }

  class IdeaStore {
    /** The `ideas` collection, by document id. */
    var ideas: map<IdeaId, Idea>
    /** The per-idea `votes` sub-collection the feed uses: idea id to voter uid to direction. */
    var votes: map<IdeaId, map<Uid, Dir>>
    /** The top-level `votes` collection the toggle uses, keyed `{ideaId}_{userId}`. */
    var ballots: map<string, Ballot>

    constructor ()
      ensures ideas == map[] && votes == map[] && ballots == map[]
    {
      ideas := map[];
      votes := map[];
      ballots := map[];
    }

    /** The up/down votes recorded on one idea. */
    function VotesOn(id: IdeaId): map<Uid, Dir>
      reads this
    {
      VotesIn(votes, id)
    }

    /**
     * The up/down transaction: read the voter's record and the idea, abort if the idea is
     * missing, otherwise write the record and the score the decision table gives.
     */
    method CastVote(id: IdeaId, uid: Uid, t: Dir) returns (r: Outcome)
      modifies this`ideas, this`votes
      ensures r == (if id in old(ideas) then Ok else Err("Idea does not exist!"))
      ensures r.Err? ==> ideas == old(ideas) && votes == old(votes)
      ensures r.Ok? ==> ideas == CastIdeas(old(ideas), old(votes), id, uid, t) && votes == CastVotes(old(votes), id, uid, t)
    {
      if id !in ideas {
        return Err("Idea does not exist!");
      }
      var voteData := Lookup(VotesOn(id), uid);
      var dbScore := OrZero(ideas[id].score);
      if voteData.Some? && voteData.value == t {
        votes := votes[id := VotesOn(id) - {uid}];
        dbScore := if t == Up then dbScore - 1 else dbScore + 1;
      } else {
        votes := votes[id := VotesOn(id)[uid := t]];
        if voteData.Some? {
          dbScore := if t == Up then dbScore + 2 else dbScore - 2;
        } else {
          dbScore := if t == Up then dbScore + 1 else dbScore - 1;
        }
      }
      assert dbScore == OrZero(ideas[id].score) + Delta(voteData, t);
      assert votes[id] == Assign(VotesIn(old(votes), id), uid, NextVote(voteData, t));
      ideas := ideas[id := ideas[id].(score := Some(dbScore))];
      r := Ok;
    }

    /**
     * The toggle transaction: delete the pair's record and decrement `voteCount`, or create it and
     * increment; the counter update fails, and with it the whole transaction, when the idea is missing.
     */
    method ToggleVote(ideaId: IdeaId, userId: Uid) returns (r: Outcome)
      modifies this`ideas, this`ballots
      ensures r.Ok? <==> ideaId in old(ideas)
      ensures r.Err? ==> ideas == old(ideas) && ballots == old(ballots)
      ensures r.Ok? ==> ballots == Toggled(old(ballots), ideaId, userId) && ideas == ToggleIdeas(old(ideas), old(ballots), ideaId, userId)
    {
      if ideaId !in ideas {
        return Err("No document to update");
      }
      var voteRef := VoteKey(ideaId, userId);
      if voteRef in ballots {
        ballots := ballots - {voteRef};
        ideas := ideas[ideaId := ideas[ideaId].(voteCount := ideas[ideaId].voteCount - 1)];
      } else {
        ballots := ballots[voteRef := Ballot(ideaId, userId)];
        ideas := ideas[ideaId := ideas[ideaId].(voteCount := ideas[ideaId].voteCount + 1)];
      }
      r := Ok;
    }

    /** A single-field status write (`updateDoc`), which fails when the document is missing. */
    method SetStatus(id: IdeaId, status: string, reviewNotes: Option<string>) returns (r: Outcome)
      modifies this`ideas
      ensures r.Ok? <==> id in old(ideas)
      ensures r.Ok? ==> ideas == old(ideas)[id := old(ideas[id]).(status := status, reviewNotes := if reviewNotes.Some? then reviewNotes else old(ideas[id].reviewNotes))]
      ensures r.Err? ==> ideas == old(ideas)
    {
      if id !in ideas {
        return Err("No document to update");
      }
      var patched := ideas[id].(status := status);
      if reviewNotes.Some? {
        patched := patched.(reviewNotes := reviewNotes);
      }
      ideas := ideas[id := patched];
      r := Ok;
    }
  }
}
