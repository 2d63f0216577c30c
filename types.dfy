/** The record shapes of lib/types.ts. */
module Types {
  import opened Base

  type IdeaId = string
  type Uid = string

  /** A voter's direction on an idea. */
  datatype Dir = Up | Down

  /** The five review states an idea is declared to be in. */
  datatype Status = Submitted | InProgress | Approved | Rejected | Done
  {
    /** The string the store holds for this state. */
    function Name(): string
    {
      match this
      case Submitted => "Submitted"
      case InProgress => "In Progress"
      case Approved => "Approved"
      case Rejected => "Rejected"
      case Done => "Done"
    }
  }

  /** The members of the `status` union, in declaration order. */
  const StatusNames: seq<string> := ["Submitted", "In Progress", "Approved", "Rejected", "Done"]

  /** A stored file descriptor: name, download URL, MIME type and byte size. */
  datatype Attachment = Attachment(name: string, url: string, mime: string, size: nat)

  /**
   * An idea document as the views read it. `status` is kept as a string because the store
   * accepts any string there; `reviewNotes` is the field the status patch writes. The
   * UI-only `userVote` is not part of the stored record: the feed keeps it in its own map.
   */
  datatype Idea = Idea(
    id: IdeaId,
    title: string,
    problem: string,
    desiredOutcome: string,
    categoryId: string,
    department: string,
    impactType: Option<string>,
    aiAutomationFit: Option<string>,
    status: string,
    voteCount: int,
    authorName: Option<string>,
    authorId: Option<string>,
    authorPhoto: Option<string>,
    processFrequency: Option<string>,
    timeSpentHoursPerWeek: Option<real>,
    estimatedBenefit: Option<string>,
    score: Option<int>,
    attachments: Option<seq<Attachment>>,
    reviewNotes: Option<string>)

  /** The signed-in account as the identity provider reports it. */
  datatype User = User(uid: Uid, displayName: Option<string>, email: Option<string>, photoURL: Option<string>)

  /** `status` ranges over exactly five distinct names, one per Status. */
  lemma StatusNamesExact()
    ensures |StatusNames| == 5
    ensures forall s: Status :: s.Name() in StatusNames
    ensures forall n :: n in StatusNames ==> exists s: Status :: s.Name() == n
    ensures forall s: Status, t: Status :: s.Name() == t.Name() ==> s == t
  {
    assert Submitted.Name() == StatusNames[0];
    assert InProgress.Name() == StatusNames[1];
    assert Approved.Name() == StatusNames[2];
    assert Rejected.Name() == StatusNames[3];
    assert Done.Name() == StatusNames[4];
  }
}
