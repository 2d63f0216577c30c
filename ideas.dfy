/** The write helpers of lib/firebase/ideas.ts: the record a new idea is stored as, and the status patch. */
module IdeaService {
  import opened Base
  import opened Types
  import opened Schema
  import opened Store

  /** The submitting account, as copied into the record. */
  datatype Creator = Creator(uid: Uid, email: Option<string>, displayName: Option<string>)

  /** The document `submitIdea` writes: the form fields followed by metadata (timestamps not modelled). */
  datatype ServiceRecord = ServiceRecord(
    data: FormData,
    createdBy: Creator,
    voteCount: int,
    status: string,
    reviewStage: string,
    hotScore: int)

  /**
   * The new idea record: the form spread first, then the metadata, so the defaults always win;
   * the hours are stored as a number when truthy and as null when absent or 0.
   */
  function NewIdeaRecord(data: FormData, user: User): (r: ServiceRecord)
    requires WellTyped(data)
    ensures r.status == "Submitted" && r.voteCount == 0 && r.hotScore == 0 && r.reviewStage == "Backlog"
    ensures r.createdBy == Creator(user.uid, user.email, user.displayName)
    ensures forall f :: f != TimeSpentHoursPerWeek ==> (f in r.data <==> f in data) && (f in data ==> r.data[f] == data[f])
    ensures TimeSpentHoursPerWeek in r.data
    ensures r.data[TimeSpentHoursPerWeek] == Null <==> TimeSpentHoursPerWeek !in data || data[TimeSpentHoursPerWeek] == Num(0.0)
    ensures r.data[TimeSpentHoursPerWeek] != Null ==> r.data[TimeSpentHoursPerWeek] == data[TimeSpentHoursPerWeek]
  {
    ServiceRecord(
      data[TimeSpentHoursPerWeek := OrDefault(data, TimeSpentHoursPerWeek, Null)],
      Creator(user.uid, user.email, user.displayName),
      0, "Submitted", "Backlog", 0)
  }

  /** The fields `updateIdeaStatus` writes (its server timestamp is not modelled). */
  datatype StatusPatch = StatusPatch(status: string, reviewNotes: string)

  /** Any status string is taken as given; the notes default to the empty string. */
  function StatusUpdate(status: string, notes: Option<string>): (p: StatusPatch)
    ensures p.status == status
    ensures p.reviewNotes != "" <==> notes.Some? && notes.value != ""
    ensures p.reviewNotes != "" ==> p.reviewNotes == notes.value
  {
    StatusPatch(status, OrElse(notes, ""))
  }

  /**
   * Write the status patch to an idea. There is no check of the status value nor of the current
   * status; a missing document makes the write fail and the error is passed on.
   */
  method UpdateIdeaStatus(store: IdeaStore, ideaId: IdeaId, status: string, notes: Option<string>) returns (r: Outcome)
    modifies store`ideas
    ensures r.Ok? <==> ideaId in old(store.ideas)
    ensures r.Ok? ==> store.ideas == old(store.ideas)[ideaId := old(store.ideas[ideaId]).(status := status, reviewNotes := Some(OrElse(notes, "")))]
    ensures r.Err? ==> store.ideas == old(store.ideas)
  {
    var patch := StatusUpdate(status, notes);
    r := store.SetStatus(ideaId, patch.status, Some(patch.reviewNotes));
  }
}
