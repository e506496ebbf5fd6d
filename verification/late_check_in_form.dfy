/**
 * The late check-in form: a name and a reason, stored as entered with a
 * timestamp, and the stored visitor reported to the screen controller.
 * Unlike the check-in form it trims nothing and shows nothing when a field
 * is empty.
 */
module LateCheckIn {
  import opened Wrappers
  import opened Text
  import opened VisitorTypes
  import opened RecordStore

  /** The row inserted into the `late_checkins` table. */
  datatype LateRow = LateRow(fullName: string, reasonForLate: string, timestamp: int)

  /** `!fullName || !reasonForLate` is false: both fields are non-empty strings, spaces included. */
  predicate Accepts(fullName: string, reasonForLate: string) {
    fullName != "" && reasonForLate != ""
  }

  /**
   * `error?.message ?? 'Could not save…'` for an insert that answered
   * without a stored id: the store's own message, even an empty one, or
   * the default when there was no error object.
   */
  function LateFailureMessage(o: InsertOutcome): (r: string)
    requires StoredId(o).None? && !o.InsertThrew?
    ensures o.InsertError? ==> r == o.message
    ensures !o.InsertError? ==> r == "Could not save to Supabase. Please try again."
    ensures r == "" <==> o == InsertError("")
  {
    if o.InsertError? then o.message else "Could not save to Supabase. Please try again."
  }

  /** A name of spaces alone is accepted here although the check-in form's trimmed test rejects it. */
  lemma BlankNameAccepted(fullName: string, reasonForLate: string)
    requires fullName != "" && reasonForLate != ""
    requires forall i :: 0 <= i < |fullName| ==> IsWhitespace(fullName[i])
    ensures Accepts(fullName, reasonForLate) && Trim(fullName) == []
  {
  }

  class LateCheckInForm {
    var fullName: string
    var reasonForLate: string
    var submitting: bool
    var submitError: string

    constructor ()
      ensures fullName == "" && reasonForLate == "" && !submitting && submitError == ""
    {
      fullName, reasonForLate, submitting, submitError := "", "", false, "";
    }

    /** `handleInputChange` for either field. */
    method Edit(name: string, reason: string)
      modifies this`fullName, this`reasonForLate
      ensures fullName == name && reasonForLate == reason
    {
      fullName, reasonForLate := name, reason;
    }

    /**
     * `handleSubmit`. `row` is what is sent to the store; `submitted` is
     * what is passed to `onSubmit`. A thrown insert escapes the handler:
     * the form stays submitting and shows no error.
     */
    method HandleSubmit(now: int, insert: InsertOutcome) returns (row: Option<LateRow>, submitted: Option<VisitorRef>)
      modifies this`submitting, this`submitError
      ensures !Accepts(fullName, reasonForLate) ==>
                row.None? && submitted.None? && submitError == "" && submitting == old(submitting)
      ensures Accepts(fullName, reasonForLate) ==> row == Some(LateRow(fullName, reasonForLate, now))
      ensures Accepts(fullName, reasonForLate) && insert.InsertThrew? ==>
                submitting && submitError == "" && submitted.None?
      ensures Accepts(fullName, reasonForLate) && !insert.InsertThrew? ==> !submitting
      ensures Accepts(fullName, reasonForLate) && !insert.InsertThrew? && StoredId(insert).None? ==>
                submitError == LateFailureMessage(insert) && submitted.None?
      ensures Accepts(fullName, reasonForLate) && StoredId(insert).Some? ==>
                submitError == "" && submitted == Some(VisitorRef(StoredId(insert).value, fullName))
    {
      submitError := "";
      row, submitted := None, None;
      if !Accepts(fullName, reasonForLate) {
        return;
      }
      submitting := true;
      row := Some(LateRow(fullName, reasonForLate, now));
      if insert.InsertThrew? {
        return;
      }
      submitting := false;
      var id := StoredId(insert);
      if id.None? {
        submitError := LateFailureMessage(insert);
        return;
      }
      submitted := Some(VisitorRef(id.value, fullName));
    }
  }
}
