/**
 * The feed page of app/feed/page.tsx: the locally held idea list and the signed-in user's
 * votes, the optimistic vote update, and the click handler that follows it with the
 * store transaction.
 */
module Feed {
  import opened Base
  import opened Types
  import opened VoteRules
  import opened Store

  /** The list with every card of idea `id` given score `score` (the `prev.map` replacement). */
  function WithScore(ideas: seq<Idea>, id: IdeaId, score: int): (r: seq<Idea>)
    ensures |r| == |ideas|
    ensures forall k :: 0 <= k < |r| ==> r[k].id == ideas[k].id && r[k].(score := ideas[k].score) == ideas[k]
    ensures forall k :: 0 <= k < |r| && ideas[k].id == id ==> r[k].score == Some(score)
    ensures forall k :: 0 <= k < |r| && ideas[k].id != id ==> r[k] == ideas[k]
  {
    seq(|ideas|, k requires 0 <= k < |ideas| => if ideas[k].id == id then ideas[k].(score := Some(score)) else ideas[k])
  }

  function IdsOf(ideas: seq<Idea>): set<IdeaId>
  {
    set k | 0 <= k < |ideas| :: ideas[k].id
  }

  /** The stored votes of `uid` on the listed ideas (what the hydration fetch collects). */
  function Fetched(ideas: seq<Idea>, stored: map<IdeaId, map<Uid, Dir>>, uid: Uid): (m: map<IdeaId, Dir>)
    ensures forall id :: id in m <==> id in IdsOf(ideas) && id in stored && uid in stored[id]
    ensures forall id :: id in m ==> m[id] == stored[id][uid]
  {
    map id | id in IdsOf(ideas) && id in stored && uid in stored[id] :: stored[id][uid]
  }

  class FeedPage {
    /** The ideas as last received, with local score edits. */
    var ideas: seq<Idea>
    /** The signed-in user's direction per idea id. */
    var userVotes: map<IdeaId, Dir>

    constructor ()
      ensures ideas == [] && userVotes == map[]
    {
      ideas := [];
      userVotes := map[];
    }

    /**
     * Merge the user's stored votes into the local map: fetched entries win, entries the fetch did
     * not find are kept (a vote retracted elsewhere is not cleared). When any one read fails
     * (`fetchFails`), the joint fetch rejects before the merge and the map stays as it was.
     */
    method HydrateVotes(user: Option<User>, store: IdeaStore, fetchFails: bool)
      modifies this`userVotes
      ensures user.None? || ideas == [] || fetchFails ==> userVotes == old(userVotes)
      ensures user.Some? && ideas != [] && !fetchFails ==> userVotes == old(userVotes) + Fetched(ideas, store.votes, user.value.uid)
    {
      if user.None? || |ideas| == 0 || fetchFails {
        return;
      }
      var newVotes := Fetched(ideas, store.votes, user.value.uid);
      userVotes := userVotes + newVotes;
    }

    /**
     * The optimistic update: the clicked card's score (missing counts as 0) moves by the decision
     * table's delta, and the user's entry for the idea is set, switched or deleted.
     */
    method ApplyOptimistic(idea: Idea, t: Dir)
      modifies this
      ensures ideas == WithScore(old(ideas), idea.id, OrZero(idea.score) + Delta(Lookup(old(userVotes), idea.id), t))
      ensures userVotes == Assign(old(userVotes), idea.id, NextVote(Lookup(old(userVotes), idea.id), t))
    {
      var currentVote := Lookup(userVotes, idea.id);
      var currentScore := OrZero(idea.score);
      var newScore := currentScore;
      var newUserVote := Some(t);
      if currentVote == Some(t) {
        newScore := if t == Up then currentScore - 1 else currentScore + 1;
        newUserVote := None;
      } else if currentVote.Some? {
        newScore := if t == Up then currentScore + 2 else currentScore - 2;
      } else {
        newScore := if t == Up then currentScore + 1 else currentScore - 1;
      }
      ideas := WithScore(ideas, idea.id, newScore);
      if newUserVote.Some? {
        userVotes := userVotes[idea.id := newUserVote.value];
      } else {
        userVotes := userVotes - {idea.id};
      }
    }
  }

  /** A local list and vote map show, for idea `id`, the stored score and the stored vote of `uid`. */
  predicate ViewAgrees(ideas: seq<Idea>, userVotes: map<IdeaId, Dir>,
                       stored: map<IdeaId, Idea>, votes: map<IdeaId, map<Uid, Dir>>, id: IdeaId, uid: Uid)
  {
    && id in stored
    && (forall k :: 0 <= k < |ideas| && ideas[k].id == id ==> OrZero(ideas[k].score) == OrZero(stored[id].score))
    && Lookup(userVotes, id) == Lookup(VotesIn(votes, id), uid)
  }

  /** The page agrees with the store on idea `id` for user `uid`. */
  ghost predicate Agrees(page: FeedPage, store: IdeaStore, id: IdeaId, uid: Uid)
    reads page, store
  {
    ViewAgrees(page.ideas, page.userVotes, store.ideas, store.votes, id, uid)
  }

  /**
   * Optimistic update and committed transaction compute the same thing: from an agreeing view
   * of a listed idea, applying the click locally and committing it to the store agree again.
   */
  lemma CommitKeepsAgreement(ideas: seq<Idea>, userVotes: map<IdeaId, Dir>,
                             stored: map<IdeaId, Idea>, votes: map<IdeaId, map<Uid, Dir>>, idea: Idea, uid: Uid, t: Dir)
    requires idea in ideas && ViewAgrees(ideas, userVotes, stored, votes, idea.id, uid)
    ensures ViewAgrees(WithScore(ideas, idea.id, OrZero(idea.score) + Delta(Lookup(userVotes, idea.id), t)),
                       Assign(userVotes, idea.id, NextVote(Lookup(userVotes, idea.id), t)),
                       CastIdeas(stored, votes, idea.id, uid, t), CastVotes(votes, idea.id, uid, t),
                       idea.id, uid)
  {
    var k :| 0 <= k < |ideas| && ideas[k] == idea;
    assert ideas[k].id == idea.id;
  }

  /**
   * The optimistic update on its own breaks agreement: the click always moves the score
   * (the delta is never zero), so a view left in that state disagrees with an unchanged store.
   */
  lemma OptimisticAloneDisagrees(ideas: seq<Idea>, userVotes: map<IdeaId, Dir>,
                                 stored: map<IdeaId, Idea>, votes: map<IdeaId, map<Uid, Dir>>, idea: Idea, uid: Uid, t: Dir)
    requires idea in ideas && ViewAgrees(ideas, userVotes, stored, votes, idea.id, uid)
    ensures !ViewAgrees(WithScore(ideas, idea.id, OrZero(idea.score) + Delta(Lookup(userVotes, idea.id), t)),
                        Assign(userVotes, idea.id, NextVote(Lookup(userVotes, idea.id), t)),
                        stored, votes, idea.id, uid)
  {
    var k :| 0 <= k < |ideas| && ideas[k] == idea;
    var after := WithScore(ideas, idea.id, OrZero(idea.score) + Delta(Lookup(userVotes, idea.id), t));
    assert ideas[k].id == idea.id;
    assert after[k].score == Some(OrZero(idea.score) + Delta(Lookup(userVotes, idea.id), t));
  }

  /**
   * The vote click as written: without a user only an alert; otherwise the optimistic update,
   * then the transaction. A failed transaction (`networkFails` stands for any backend error)
   * only alerts: the optimistic state stays, so a view that agreed with the store no longer does.
   */
  method HandleVote(page: FeedPage, store: IdeaStore, user: Option<User>, idea: Idea, t: Dir, networkFails: bool)
    returns (alert: Option<string>)
    modifies page, store
    ensures user.None? ==> alert == Some("Please sign in to vote") && unchanged(page) && unchanged(store)
    ensures user.Some? ==>
      && page.ideas == WithScore(old(page.ideas), idea.id, OrZero(idea.score) + Delta(Lookup(old(page.userVotes), idea.id), t))
      && page.userVotes == Assign(old(page.userVotes), idea.id, NextVote(Lookup(old(page.userVotes), idea.id), t))
    ensures user.Some? && networkFails ==> alert == Some("Vote failed. Reverting...") && unchanged(store)
    ensures user.Some? && !networkFails ==> (alert.None? <==> idea.id in old(store.ideas))
    ensures user.Some? && alert.Some? ==> unchanged(store)
    ensures user.Some? && idea in old(page.ideas) && old(Agrees(page, store, idea.id, user.value.uid)) ==>
      (alert.None? <==> Agrees(page, store, idea.id, user.value.uid))
    ensures user.Some? && alert.None? ==>
      && idea.id in old(store.ideas)
      && store.ideas == CastIdeas(old(store.ideas), old(store.votes), idea.id, user.value.uid, t)
      && store.votes == CastVotes(old(store.votes), idea.id, user.value.uid, t)
      && store.ballots == old(store.ballots)
  {
    if user.None? {
      return Some("Please sign in to vote");
    }
    page.ApplyOptimistic(idea, t);
    if networkFails {
      alert := Some("Vote failed. Reverting...");
    } else {
      var r := store.CastVote(idea.id, user.value.uid, t);
      alert := if r.Ok? then None else Some("Vote failed. Reverting...");
    }
    if idea in old(page.ideas) && old(Agrees(page, store, idea.id, user.value.uid)) {
      if alert.Some? {
        OptimisticAloneDisagrees(old(page.ideas), old(page.userVotes), old(store.ideas), old(store.votes), idea, user.value.uid, t);
      } else {
        CommitKeepsAgreement(old(page.ideas), old(page.userVotes), old(store.ideas), old(store.votes), idea, user.value.uid, t);
      }
    }
  }

  /**
   * The vote click with the revert its failure message announces: on any failure the local list
   * and vote map go back to their values before the click, so agreement with the store survives
   * every outcome.
   */
  method HandleVoteReverting(page: FeedPage, store: IdeaStore, user: Option<User>, idea: Idea, t: Dir, networkFails: bool)
    returns (alert: Option<string>)
    modifies page, store
    ensures user.None? ==> alert == Some("Please sign in to vote") && unchanged(page) && unchanged(store)
    ensures user.Some? && alert.None? ==>
      && page.ideas == WithScore(old(page.ideas), idea.id, OrZero(idea.score) + Delta(Lookup(old(page.userVotes), idea.id), t))
      && page.userVotes == Assign(old(page.userVotes), idea.id, NextVote(Lookup(old(page.userVotes), idea.id), t))
    ensures user.Some? && alert.Some? ==> page.ideas == old(page.ideas) && page.userVotes == old(page.userVotes)
    ensures user.Some? && alert.Some? ==> unchanged(store)
    ensures user.Some? && !networkFails ==> (alert.None? <==> idea.id in old(store.ideas))
    ensures user.Some? && idea in old(page.ideas) && old(Agrees(page, store, idea.id, user.value.uid)) ==>
      Agrees(page, store, idea.id, user.value.uid)
    ensures user.Some? && alert.None? ==>
      && idea.id in old(store.ideas)
      && store.ideas == CastIdeas(old(store.ideas), old(store.votes), idea.id, user.value.uid, t)
      && store.votes == CastVotes(old(store.votes), idea.id, user.value.uid, t)
      && store.ballots == old(store.ballots)
  {
    if user.None? {
      return Some("Please sign in to vote");
    }
    var savedIdeas, savedVotes := page.ideas, page.userVotes;
    page.ApplyOptimistic(idea, t);
    if networkFails {
      alert := Some("Vote failed. Reverting...");
    } else {
      var r := store.CastVote(idea.id, user.value.uid, t);
      alert := if r.Ok? then None else Some("Vote failed. Reverting...");
    }
    if alert.Some? {
      page.ideas, page.userVotes := savedIdeas, savedVotes;
      assert page.ideas == old(page.ideas) && page.userVotes == old(page.userVotes);
    } else if idea in old(page.ideas) && old(Agrees(page, store, idea.id, user.value.uid)) {
      CommitKeepsAgreement(old(page.ideas), old(page.userVotes), old(store.ideas), old(store.votes), idea, user.value.uid, t);
    }
  }
}
