/**
 * The multi-step submission form of components/features/submit/SubmitWizard.tsx: the step
 * counter and its gated Next buttons, field edits, the attached-file list, and the record
 * written on submit.
 */
module Wizard {
  import opened Base
  import opened Types
  import opened Schema

  /** The step ids, in order. */
  const Steps: seq<string> := ["intro", "title", "problem", "metrics", "solution", "review"]

  /** The options of the frequency drop-down and the impact-type buttons. */
  const FrequencyOptions: seq<string> := ["Hourly", "Daily", "Weekly", "Monthly", "Ad-hoc"]
  const ImpactButtons: seq<string> := ["Time", "Cost", "Quality", "Risk", "Revenue", "CX", "Other"]

  /** A picked file (its bytes are not modelled). */
  datatype File = File(name: string, mime: string, size: nat)

  /** The form offers exactly the schema's choices. */
  lemma OptionsMatchSchema()
    ensures FrequencyOptions == Frequencies
    ensures ImpactButtons == ImpactTypes
  {
  }

  predicate Present(form: FormData, f: Field)
  {
    f in form && Truthy(form[f])
  }

  /**
   * Whether the Next button of step `step` is enabled; steps without a gate always allow it, and
   * on an empty form exactly the four gated steps block.
   */
  predicate NextEnabled(step: nat, form: FormData)
    ensures form == map[] ==> (NextEnabled(step, form) <==> !(1 <= step <= 4))
  {
    if step == 1 then Present(form, Title) && Present(form, CategoryId) && Present(form, Department)
    else if step == 2 then Present(form, Problem) && (form[Problem].Str? ==> |form[Problem].s| >= 20)
    else if step == 3 then Present(form, ProcessFrequency)
    else if step == 4 then Present(form, DesiredOutcome)
    else true
  }

  /** The step whose gate reads field `f`, or 0 when no gate reads it. */
  function GatedAt(f: Field): nat
  {
    match f
    case Title => 1
    case CategoryId => 1
    case Department => 1
    case Problem => 2
    case ProcessFrequency => 3
    case DesiredOutcome => 4
    case _ => 0
  }

  /** Editing a field only affects the gate that reads it. */
  lemma EditTouchesOneGate(form: FormData, f: Field, v: FormValue, step: nat)
    requires step != GatedAt(f)
    ensures NextEnabled(step, form[f := v]) == NextEnabled(step, form)
  {
  }

  /** For a text answer, the problem step's gate is exactly the schema's rule for `problem`. */
  lemma ProblemGateIsSchemaRule(form: FormData)
    requires Problem in form && form[Problem].Str?
    ensures NextEnabled(2, form) <==> FieldValid(Problem, form[Problem])
  {
  }

  /** The title and outcome gates are weaker than the schema: a four-letter title and a short outcome get through. */
  lemma GatesWeakerThanSchema()
    ensures
      var form := map[Title := Str("Idea"), CategoryId := Str("Internal Tools"), Department := Str("Legal"),
                       Problem := Str("Manual entry takes a full day"), ProcessFrequency := Str("Daily"),
                       DesiredOutcome := Str("Faster")];
      (forall s: nat :: NextEnabled(s, form)) && !FormValid(form)
  {
    var form := map[Title := Str("Idea"), CategoryId := Str("Internal Tools"), Department := Str("Legal"),
                     Problem := Str("Manual entry takes a full day"), ProcessFrequency := Str("Daily"),
                     DesiredOutcome := Str("Faster")];
    assert !FieldValid(Title, form[Title]);
  }

  /**
   * A form the schema accepts passes the title, problem and outcome gates, but the frequency gate
   * demands an answer the schema leaves optional: a valid form without one is stuck at step 3.
   */
  lemma SchemaValidPassesGatesButFrequency(form: FormData)
    requires FormValid(form)
    ensures NextEnabled(1, form) && NextEnabled(2, form) && NextEnabled(4, form)
    ensures NextEnabled(3, form) <==> ProcessFrequency in form
  {
    assert FieldValid(Problem, form[Problem]);
    if ProcessFrequency in form {
      assert FieldValid(ProcessFrequency, form[ProcessFrequency]);
    }
  }

  /** Keep every element whose position differs from `index` (the `filter((_, i) => i !== index)`). */
  function DropIndex(s: seq<File>, index: int): seq<File>
    decreases |s|
  {
    if s == [] then []
    else DropIndex(s[..|s| - 1], index) + (if |s| - 1 == index then [] else [s[|s| - 1]])
  }

  /** Removing a position takes out exactly that element, in order; an out-of-range index changes nothing. */
  lemma {:induction false} DropIndexRemovesOne(s: seq<File>, index: int)
    ensures DropIndex(s, index) == if 0 <= index < |s| then s[..index] + s[index + 1..] else s
    decreases |s|
  {
    if s != [] {
      var p := s[..|s| - 1];
      DropIndexRemovesOne(p, index);
      if 0 <= index < |s| - 1 {
        assert s[..index] == p[..index];
        assert s[index + 1..] == p[index + 1..] + [s[|s| - 1]];
      } else if index == |s| - 1 {
        assert s[index + 1..] == [];
      } else {
        assert p + [s[|s| - 1]] == s;
      }
    }
  }

  /** One attachment per file, in file order, with the URL the storage backend gave for it. */
  function AttachmentsFor(files: seq<File>, upload: File -> string): (r: seq<Attachment>)
    ensures |r| == |files|
    ensures forall k :: 0 <= k < |r| ==>
      r[k].name == files[k].name && r[k].url == upload(files[k]) && r[k].mime == files[k].mime && r[k].size == files[k].size
  {
    seq(|files|, k requires 0 <= k < |files| => Attachment(files[k].name, upload(files[k]), files[k].mime, files[k].size))
  }

  /** The document the wizard writes (its server timestamp is not modelled). */
  datatype WizardRecord = WizardRecord(
    data: FormData,
    status: string,
    voteCount: int,
    authorName: string,
    authorId: Uid,
    authorPhoto: Option<string>,
    attachments: seq<Attachment>)

  /**
   * The submitted record: the form spread first, then fixed status and count, the author, the
   * impact type and automation fit defaulted when falsy, and the attachments.
   */
  function SubmittedRecord(form: FormData, user: User, attachments: seq<Attachment>): (r: WizardRecord)
    ensures r.status == "Submitted" && r.voteCount == 0
    ensures r.authorId == user.uid && r.authorPhoto == user.photoURL && r.attachments == attachments
    ensures r.authorName != ""
    ensures user.displayName.Some? && user.displayName.value != "" ==> r.authorName == user.displayName.value
    ensures (user.displayName.None? || user.displayName.value == "") ==> r.authorName == "Anonymous"
    ensures ImpactType in r.data && Truthy(r.data[ImpactType])
    ensures r.data[ImpactType] == if Present(form, ImpactType) then form[ImpactType] else Str("Other")
    ensures AiAutomationFit in r.data && Truthy(r.data[AiAutomationFit])
    ensures r.data[AiAutomationFit] == if Present(form, AiAutomationFit) then form[AiAutomationFit] else Str("Unsure")
    ensures forall f :: f != ImpactType && f != AiAutomationFit ==> (f in r.data <==> f in form) && (f in form ==> r.data[f] == form[f])
  {
    WizardRecord(
      form[ImpactType := OrDefault(form, ImpactType, Str("Other"))][AiAutomationFit := OrDefault(form, AiAutomationFit, Str("Unsure"))],
      "Submitted", 0, OrElse(user.displayName, "Anonymous"), user.uid, user.photoURL, attachments)
  }

  datatype SubmitOutcome = SignInRequested | Written(record: WizardRecord) | Failed(message: string)

  class SubmitWizard {
    var currentStep: nat
    var form: FormData
    var files: seq<File>
    var isSubmitting: bool
    var uploadingFiles: bool

    /** The step is in range and every gate before the current step has been passed with the current answers. */
    ghost predicate Valid()
      reads this
    {
      currentStep < |Steps| && forall s: nat :: 1 <= s < currentStep ==> NextEnabled(s, form)
    }

    constructor ()
      ensures Valid()
      ensures currentStep == 0 && form == map[] && files == [] && !isSubmitting && !uploadingFiles
    {
      currentStep := 0;
      form := map[];
      files := [];
      isSubmitting := false;
      uploadingFiles := false;
    }

    /** The Next handler: advance unless on the last step. */
    method HandleNext()
      modifies this`currentStep
      ensures currentStep == if old(currentStep) < |Steps| - 1 then old(currentStep) + 1 else old(currentStep)
    {
      if currentStep < |Steps| - 1 {
        currentStep := currentStep + 1;
      }
    }

    /** The Back handler: go back unless on the first step. */
    method HandleBack()
      requires Valid()
      modifies this`currentStep
      ensures Valid()
      ensures currentStep == if old(currentStep) > 0 then old(currentStep) - 1 else old(currentStep)
    {
      if currentStep > 0 {
        currentStep := currentStep - 1;
      }
    }

    /** A click on the current step's Next button, which does nothing while the button is disabled. */
    method ClickNext()
      requires Valid()
      modifies this`currentStep
      ensures Valid()
      ensures currentStep == if NextEnabled(old(currentStep), form) && old(currentStep) < |Steps| - 1 then old(currentStep) + 1 else old(currentStep)
    {
      if NextEnabled(currentStep, form) {
        HandleNext();
      }
    }

    /** Set one field, leaving the others; an edit on the field's own step or earlier keeps the passed gates. */
    method UpdateField(f: Field, v: FormValue)
      modifies this`form
      ensures form == old(form)[f := v]
      ensures forall g :: g != f ==> (g in form <==> g in old(form)) && (g in form ==> form[g] == old(form)[g])
      ensures old(Valid()) && (GatedAt(f) == 0 || currentStep <= GatedAt(f)) ==> Valid()
    {
      form := form[f := v];
      forall s: nat | 1 <= s < currentStep && s != GatedAt(f)
        ensures NextEnabled(s, form) == NextEnabled(s, old(form))
      {
        EditTouchesOneGate(old(form), f, v, s);
      }
    }

    /** Picked or dropped files go after the ones already listed. */
    method AddFiles(picked: seq<File>)
      modifies this`files
      ensures files == old(files) + picked
    {
      files := files + picked;
    }

    method RemoveFile(index: int)
      modifies this`files
      ensures files == if 0 <= index < |old(files)| then old(files)[..index] + old(files)[index + 1..] else old(files)
    {
      files := DropIndex(files, index);
      DropIndexRemovesOne(old(files), index);
    }

    /**
     * Submit: without a user, only ask for sign-in. Otherwise upload the files (`upload` stands for
     * the storage backend's download URL per file) and write the record; `failure` stands for an
     * upload or write error, after which no record exists and both busy flags are off.
     */
    method Submit(user: Option<User>, upload: File -> string, failure: Option<string>) returns (outcome: SubmitOutcome)
      modifies this`isSubmitting, this`uploadingFiles
      ensures user.None? ==> outcome == SignInRequested && isSubmitting == old(isSubmitting) && uploadingFiles == old(uploadingFiles)
      ensures user.Some? && failure.Some? ==> outcome == Failed(failure.value) && !isSubmitting && !uploadingFiles
      ensures user.Some? && failure.None? ==>
        && outcome == Written(SubmittedRecord(form, user.value, AttachmentsFor(files, upload)))
        && isSubmitting
        && uploadingFiles == (if |files| > 0 then false else old(uploadingFiles))
    {
      if user.None? {
        return SignInRequested;
      }
      isSubmitting := true;
      var attachments: seq<Attachment> := [];
      if |files| > 0 {
        uploadingFiles := true;
        attachments := AttachmentsFor(files, upload);
        uploadingFiles := false;
      }
      if failure.Some? {
        isSubmitting := false;
        uploadingFiles := false;
        return Failed(failure.value);
      }
      outcome := Written(SubmittedRecord(form, user.value, attachments));
    }
  }

  /**
   * A wizard that has reached the review step through its Next and Back buttons holds an answer
   * for every field the schema requires, and a frequency as well, with a long enough problem text.
   */
  lemma ReviewStepHasAnswers(w: SubmitWizard)
    requires w.Valid() && w.currentStep == |Steps| - 1
    ensures forall f :: Required(f) ==> Present(w.form, f)
    ensures Present(w.form, ProcessFrequency)
    ensures Problem in w.form && (w.form[Problem].Str? ==> |w.form[Problem].s| >= 20)
  {
    assert NextEnabled(1, w.form) && NextEnabled(2, w.form) && NextEnabled(3, w.form) && NextEnabled(4, w.form);
  }
}
