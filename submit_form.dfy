/** The submission form: two text fields, a sending flag, an error message
    and a done flag, and the submit handler that validates the comment,
    calls the store's add operation and reacts to how it ends. */
module SubmitForm {
  import opened Comments
  import MockStore

  /** Shown when the comment is empty or all white space. */
  const EnterCommentMessage := "コメントを入力してください。"
  /** Shown when the add operation fails. */
  const RetryMessage := "送信に失敗しました。時間をおいて再度お試しください。"

  /** The arguments handed to the store's add operation. */
  datatype Submission = Submission(name: string, comment: string)

  /** How the awaited add operation ended. */
  datatype AddOutcome = Added(id: string) | AddFailed

  /** The handler's only check: the trimmed comment is not empty, that is,
      the comment is not all white space. The name is not checked. */
  predicate IsSubmittable(comment: string)
    ensures IsSubmittable(comment) <==> !AllSpace(comment)
  {
    TrimEmptyIffBlank(comment);
    Trim(comment) != ""
  }

  lemma SubmittableIffVisibleChar(comment: string)
    ensures IsSubmittable(comment) <==> exists k :: 0 <= k < |comment| && !IsSpace(comment[k])
  {
  }

  /** The form hands the store the raw fields; the store trims them, so an
      accepted comment is stored non-empty and an empty or blank name is
      stored as anonymous. The document store's add operation
      (src/lib/firestore.ts:30-31) trims the name and the comment the same
      way, with an absent name stored as null, so this carries over to it. */
  lemma AcceptedSubmissionStored(s: Submission, now: nat, suffix: string)
    requires IsSubmittable(s.comment)
    ensures MockStore.NewItem(Some(s.name), s.comment, now, suffix).comment != ""
    ensures AllSpace(s.name) ==> MockStore.NewItem(Some(s.name), s.comment, now, suffix).name == None
    ensures !AllSpace(s.name) ==> MockStore.NewItem(Some(s.name), s.comment, now, suffix).name == Some(Trim(s.name))
  {
    MockStore.TrimmedNameKept(Some(s.name));
  }

  class Form {
    var name: string
    var comment: string
    var sending: bool
    var error: Option<string>
    var done: bool
    /** The calls made to the store's add operation, oldest first. */
    var submissions: seq<Submission>

    constructor ()
      ensures name == "" && comment == "" && !sending && error == None && !done && submissions == []
    {
      name := "";
      comment := "";
      sending := false;
      error := None;
      done := false;
      submissions := [];
    }

    /** onSubmit up to the await: clear the error; reject a blank comment
        with a message and without calling the store; otherwise set the
        sending flag and call the store with the fields as typed. */
    method BeginSubmit() returns (started: bool)
      modifies this
      ensures started <==> IsSubmittable(old(comment))
      ensures name == old(name) && comment == old(comment) && done == old(done)
      ensures !started ==> error == Some(EnterCommentMessage) && sending == old(sending) && submissions == old(submissions)
      ensures started ==> error == None && sending && submissions == old(submissions) + [Submission(old(name), old(comment))]
    {
      error := None;
      if Trim(comment) == "" {
        error := Some(EnterCommentMessage);
        return false;
      }
      sending := true;
      submissions := submissions + [Submission(name, comment)];
      return true;
    }

    /** onSubmit after the await: on success clear both fields and show the
        done message; on failure keep the fields and show the retry
        message; either way clear the sending flag. */
    method FinishSubmit(outcome: AddOutcome)
      modifies this
      ensures !sending && submissions == old(submissions)
      ensures outcome.Added? ==> name == "" && comment == "" && done && error == old(error)
      ensures outcome.AddFailed? ==>
        error == Some(RetryMessage) && name == old(name) && comment == old(comment) && done == old(done)
    {
      if outcome.Added? {
        name := "";
        comment := "";
        done := true;
      } else {
        error := Some(RetryMessage);
      }
      sending := false;
    }

    /** onSubmit, with `outcome` standing for how the add operation ends. */
    method OnSubmit(outcome: AddOutcome) returns (started: bool)
      modifies this
      ensures started <==> IsSubmittable(old(comment))
      ensures !started ==>
        error == Some(EnterCommentMessage) && name == old(name) && comment == old(comment) &&
        sending == old(sending) && done == old(done) && submissions == old(submissions)
      ensures started ==> !sending && submissions == old(submissions) + [Submission(old(name), old(comment))]
      ensures started && outcome.Added? ==> name == "" && comment == "" && done && error == None
      ensures started && outcome.AddFailed? ==>
        error == Some(RetryMessage) && name == old(name) && comment == old(comment) && done == old(done)
    {
      started := BeginSubmit();
      if started {
        FinishSubmit(outcome);
      }
    }
  }
}
