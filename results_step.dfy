/** The e-mail form of `components/quiz/steps/results-step.tsx`: the state the
    form keeps, its validity test and its submit handler. The `onSubmit`
    callback is asynchronous, so a submission is split into the part before
    the `await` (`StartSubmit`) and the part after it (`FinishSubmit`), whose
    argument says whether the callback's promise was rejected. */
module ResultsStep {
  import opened Wrappers
  import opened Text

  /** The message shown when the callback fails. */
  const SubmitFailedMessage := "Failed to send results. Please try again."

  class ResultsForm {
    /** The text typed into the e-mail field, as typed. */
    var email: string
    var isSubmitting: bool
    /** Empty when no error is shown. */
    var error: string

    /** The form as first shown. */
    constructor()
      ensures email == [] && !isSubmitting && error == []
    {
      email := [];
      isSubmitting := false;
      error := [];
    }

    /** `setEmail(e.target.value)` on every keystroke. */
    method SetEmail(typed: string)
      modifies this
      ensures email == typed && isSubmitting == old(isSubmitting) && error == old(error)
    {
      email := typed;
    }

    /** `isValidEmail`: the untrimmed text contains an `@` and a `.`. */
    predicate IsValidEmail()
      reads this
      ensures IsValidEmail() <==> '@' in email && '.' in email
    {
      ContainsCharIff(email, '@');
      ContainsCharIff(email, '.');
      Contains(email, "@") && Contains(email, ".")
    }

    /** `disabled` of the submit button. */
    predicate SubmitDisabled()
      reads this
      ensures !SubmitDisabled() <==> '@' in email && '.' in email && !isSubmitting
    {
      !IsValidEmail() || isSubmitting
    }

    /** `handleSubmit` up to the `await`: nothing happens for a blank field;
        otherwise the form turns busy, clears its error and hands the trimmed
        text to `onSubmit` (`request`). */
    method StartSubmit() returns (request: Option<string>)
      modifies this
      ensures email == old(email)
      ensures Trim(email) == [] ==> request == None && isSubmitting == old(isSubmitting) && error == old(error)
      ensures Trim(email) != [] ==> request == Some(Trim(email)) && isSubmitting && error == []
      ensures Trim(email) != [] ==> SubmitDisabled()
    {
      var trimmed := Trim(email);
      if trimmed == [] {
        return None;
      }
      isSubmitting := true;
      error := [];
      request := Some(trimmed);
    }

    /** `handleSubmit` after the `await`: the `finally` always ends the busy
        state, and the `catch` sets the error message when the callback failed. */
    method FinishSubmit(rejected: bool)
      modifies this
      ensures email == old(email) && !isSubmitting
      ensures error == (if rejected then SubmitFailedMessage else old(error))
    {
      if rejected {
        error := SubmitFailedMessage;
      }
      isSubmitting := false;
    }
  }

  /** The validity test is character membership: it holds exactly when the
      text has an `@` and a `.` somewhere. */
  lemma ValidEmailChars(form: ResultsForm)
    ensures form.IsValidEmail() <==> '@' in form.email && '.' in form.email
  {
    ContainsCharIff(form.email, '@');
    ContainsCharIff(form.email, '.');
  }

  /** An address the button accepts is never blank: its trimmed text is what
      `onSubmit` receives, and it still holds the `@` and the `.`. */
  lemma ValidEmailIsSent(form: ResultsForm)
    requires form.IsValidEmail()
    ensures Trim(form.email) != []
    ensures '@' in Trim(form.email) && '.' in Trim(form.email)
  {
    ValidEmailChars(form);
    KeptChars(form.email);
  }

  lemma KeptChars(email: string)
    requires '@' in email && '.' in email
    ensures '@' in Trim(email) && '.' in Trim(email)
  {
    TrimKeeps(email, '@');
    TrimKeeps(email, '.');
  }

  /** A failed session: an address without surrounding white space that has
      an `@` and a `.` is typed and sent as it is, the callback fails, and the
      form shows the message and is ready to be sent again. */
  method FailedSubmission(typed: string) returns (form: ResultsForm, request: Option<string>)
    requires '@' in typed && '.' in typed
    requires !IsSpace(typed[0]) && !IsSpace(typed[|typed| - 1])
    ensures request == Some(typed)
    ensures form.email == typed && form.error == SubmitFailedMessage && !form.isSubmitting && !form.SubmitDisabled()
  {
    TrimFixed(typed);
    form := new ResultsForm();
    form.SetEmail(typed);
    request := form.StartSubmit();
    form.FinishSubmit(true);
    assert '@' in form.email && '.' in form.email && !form.isSubmitting;
  }
}
