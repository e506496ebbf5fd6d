/**
 * The check-in form: the visitor's details, a photo, the "person to meet"
 * box with directory suggestions, and the submit handler, which validates
 * the form in a fixed order, stores the visit, notifies the host on Slack
 * when Slack is configured, and reports the stored visitor to the screen
 * controller.
 */
module CheckIn {
  import opened Wrappers
  import opened Text
  import opened VisitorTypes
  import opened SlackDirectory
  import opened SlackUtils
  import opened RecordStore
  import Seqs

  /** The form's text fields; an unselected reason is `None`. */
  datatype FormData = FormData(
    fullName: string,
    reasonForVisit: Option<ReasonForVisit>,
    otherReason: string,
    personToMeet: string,
    phoneNumber: string)

  // ---------------------------------------------------------------------
  // Validation
  // ---------------------------------------------------------------------

  /** The five checks, in the order the handler makes them. */
  datatype ValidationError = MissingName | MissingReason | MissingOtherReason | MissingPersonToMeet | MissingPhoto

  function Rank(e: ValidationError): nat {
    match e
    case MissingName => 0
    case MissingReason => 1
    case MissingOtherReason => 2
    case MissingPersonToMeet => 3
    case MissingPhoto => 4
  }

  function ErrorMessage(e: ValidationError): string {
    match e
    case MissingName => "Please enter the visitor's full name"
    case MissingReason => "Please select a reason for visit"
    case MissingOtherReason => "Please specify the reason for visit"
    case MissingPersonToMeet => "Please enter who the visitor is meeting"
    case MissingPhoto => "Please take a photo before submitting"
  }

  /** Each check on its own, independent of the others. */
  predicate Fails(f: FormData, photo: string, e: ValidationError) {
    match e
    case MissingName => Trim(f.fullName) == []
    case MissingReason => f.reasonForVisit.None?
    case MissingOtherReason => f.reasonForVisit == Some(Other) && Trim(f.otherReason) == []
    case MissingPersonToMeet => Trim(f.personToMeet) == []
    case MissingPhoto => photo == []
  }

  /** Every check passes. */
  predicate Passes(f: FormData, photo: string) {
    && Trim(f.fullName) != []
    && f.reasonForVisit.Some?
    && (f.reasonForVisit == Some(Other) ==> Trim(f.otherReason) != [])
    && Trim(f.personToMeet) != []
    && photo != []
  }

  /** The validation cascade: the first check, in order, that fails; none when all pass. */
  function Validate(f: FormData, photo: string): (r: Option<ValidationError>)
    ensures r.Some? ==> Fails(f, photo, r.value)
    ensures r.Some? ==> forall e :: Rank(e) < Rank(r.value) ==> !Fails(f, photo, e)
    ensures r.None? ==> forall e :: !Fails(f, photo, e)
    ensures r.None? <==> Passes(f, photo)
  {
    if Trim(f.fullName) == [] then Some(MissingName)
    else if f.reasonForVisit.None? then Some(MissingReason)
    else if f.reasonForVisit == Some(Other) && Trim(f.otherReason) == [] then Some(MissingOtherReason)
    else if Trim(f.personToMeet) == [] then Some(MissingPersonToMeet)
    else if photo == [] then Some(MissingPhoto)
    else None
  }

  /** Each failed check shows its own message. */
  lemma ErrorMessagesDistinct(a: ValidationError, b: ValidationError)
    requires a != b
    ensures ErrorMessage(a) != ErrorMessage(b)
  {
    assert |ErrorMessage(a)| != |ErrorMessage(b)|;
  }

  // ---------------------------------------------------------------------
  // The stored row
  // ---------------------------------------------------------------------

  /** The row inserted into the `visitors` table. */
  datatype VisitorRow = VisitorRow(
    fullName: string,
    reasonForVisit: string,
    personToMeet: string,
    photoBase64: string,
    phoneNumber: Option<string>,
    checkedInAt: int)

  /** The purpose stored and sent: the trimmed free text for `other`, else the reason's value. */
  function Purpose(f: FormData): (r: string)
    requires f.reasonForVisit.Some?
    ensures f.reasonForVisit.value == Other ==> r == Trim(f.otherReason)
    ensures f.reasonForVisit.value != Other ==> ParseReason(r) == f.reasonForVisit
  {
    ParseReasonValue(f.reasonForVisit.value);
    if f.reasonForVisit.value == Other then Trim(f.otherReason) else ReasonValue(f.reasonForVisit.value)
  }

  /** `phoneNumber.trim() || null`. */
  function OptionalPhone(phone: string): (r: Option<string>)
    ensures r.None? <==> Trim(phone) == []
    ensures r.Some? ==> r.value == Trim(phone)
  {
    var t := Trim(phone);
    if t == [] then None else Some(t)
  }

  function BuildRow(f: FormData, photo: string, now: int): VisitorRow
    requires f.reasonForVisit.Some?
  {
    VisitorRow(Trim(f.fullName), Purpose(f), Trim(f.personToMeet), photo, OptionalPhone(f.phoneNumber), now)
  }

  // A form that passes validation (`Validate` answers none exactly when
  // `Passes` holds) yields a row with no blank or untrimmed text.

  /** The stored name is non-blank and trimmed, and a photo is present. */
  lemma ValidRowName(f: FormData, photo: string, now: int)
    requires Passes(f, photo)
    ensures BuildRow(f, photo, now).fullName == Trim(f.fullName)
    ensures NoOuterSpace(BuildRow(f, photo, now).fullName)
    ensures BuildRow(f, photo, now).photoBase64 != []
  {
    TrimNonBlank(f.fullName);
    assert BuildRow(f, photo, now).fullName == Trim(f.fullName);
  }

  /** The stored host is non-blank and trimmed. */
  lemma ValidRowHost(f: FormData, photo: string, now: int)
    requires Passes(f, photo)
    ensures BuildRow(f, photo, now).personToMeet == Trim(f.personToMeet)
    ensures NoOuterSpace(BuildRow(f, photo, now).personToMeet)
  {
    TrimNonBlank(f.personToMeet);
    assert BuildRow(f, photo, now).personToMeet == Trim(f.personToMeet);
  }

  /** The stored phone is absent or non-blank and trimmed. */
  lemma ValidRowPhone(f: FormData, photo: string, now: int)
    requires Passes(f, photo)
    ensures var row := BuildRow(f, photo, now); row.phoneNumber.Some? ==> NoOuterSpace(row.phoneNumber.value)
  {
    var p := OptionalPhone(f.phoneNumber);
    assert BuildRow(f, photo, now).phoneNumber == p;
    if p.Some? {
      TrimNonBlank(f.phoneNumber);
    }
  }

  /** A listed reason reads back from the stored purpose. */
  lemma ValidRowListedReason(f: FormData, photo: string, now: int)
    requires Passes(f, photo)
    ensures f.reasonForVisit.value != Other ==> ParseReason(BuildRow(f, photo, now).reasonForVisit) == f.reasonForVisit
  {
    if f.reasonForVisit.value != Other {
      ParseReasonValue(f.reasonForVisit.value);
    }
  }

  /** For `other`, the stored purpose is the free text, non-blank and trimmed. */
  lemma ValidRowOtherReason(f: FormData, photo: string, now: int)
    requires Passes(f, photo)
    ensures f.reasonForVisit.value == Other ==> BuildRow(f, photo, now).reasonForVisit == Trim(f.otherReason)
    ensures f.reasonForVisit.value == Other ==> NoOuterSpace(BuildRow(f, photo, now).reasonForVisit)
  {
    if f.reasonForVisit.value == Other {
      TrimNonBlank(f.otherReason);
      assert BuildRow(f, photo, now).reasonForVisit == Trim(f.otherReason);
    }
  }

  // ---------------------------------------------------------------------
  // Outcomes
  // ---------------------------------------------------------------------

  /** The message a failed insert leaves in `submitError`. */
  function InsertFailureMessage(o: InsertOutcome): (r: string)
    requires StoredId(o).None?
    ensures o.InsertError? && o.message != "" ==> r == o.message
    ensures o.InsertThrew? && o.thrownMessage.Some? ==> r == o.thrownMessage.value
    ensures (o.Inserted? || o.NoRow? || (o.InsertError? && o.message == "")) ==> r == "Failed to save visitor data"
    ensures o == InsertThrew(None) ==> r == "Failed to complete check-in. Please try again."
  {
    match o
    case InsertError(message) => if message != "" then message else "Failed to save visitor data"
    case InsertThrew(thrown) =>
      (match thrown
       case Some(message) => message
       case None => "Failed to complete check-in. Please try again.")
    case _ => "Failed to save visitor data"
  }

  /** `slackNotificationStatus`. */
  datatype NotifyStatus = Idle | Sending | Success | NotifyError

  /**
   * The status after a stored check-in: untouched when Slack is not
   * configured; an error when the host is not in the directory or the send
   * throws; success otherwise, even when no channel delivered.
   */
  function NotifyOutcome(env: SlackEnv, users: seq<SlackUser>, personToMeet: string,
                         dm: DirectReply, hook: WebhookReply): (r: NotifyStatus)
    ensures r != Sending
    ensures r == Idle <==> !IsSlackConfigured(env)
    ensures r == Success ==> FindSlackUserByName(users, Trim(personToMeet)).Some? && !SendThrows(env, dm, hook)
    ensures (IsSlackConfigured(env) && FindSlackUserByName(users, Trim(personToMeet)).None?) ==> r == NotifyError
    ensures IsSlackConfigured(env) && SendThrows(env, dm, hook) ==> r == NotifyError
    ensures IsSlackConfigured(env) && FindSlackUserByName(users, Trim(personToMeet)).Some? && !SendThrows(env, dm, hook) ==>
              r == Success
  {
    if !IsSlackConfigured(env) then Idle
    else if FindSlackUserByName(users, Trim(personToMeet)).None? then NotifyError
    else if SendThrows(env, dm, hook) then NotifyError
    else Success
  }

  /**
   * With Slack configured and a host the directory knows, the host is
   * reported notified exactly when no call the send makes throws, whether
   * or not a channel delivered.
   */
  lemma KnownHostIsNotified(env: SlackEnv, users: seq<SlackUser>, personToMeet: string, dm: DirectReply, hook: WebhookReply)
    requires IsSlackConfigured(env)
    requires FindSlackUserByName(users, Trim(personToMeet)).Some?
    ensures NotifyOutcome(env, users, personToMeet, dm, hook) == Success <==> !SendThrows(env, dm, hook)
    ensures NotifyOutcome(env, users, personToMeet, DirectReplied(false), WebhookResponded(false)) == Success
    ensures IsBotToken(env.botToken) ==> NotifyOutcome(env, users, personToMeet, DirectReplied(true), hook) == Success
  {
    assert !SendThrows(env, DirectReplied(false), WebhookResponded(false));
    assert IsBotToken(env.botToken) ==> !SendThrows(env, DirectReplied(true), hook);
  }

  // ---------------------------------------------------------------------
  // Suggestions
  // ---------------------------------------------------------------------

  /** The suggestion test: the typed value, lower-cased, occurs in the lower-cased real name or handle. */
  predicate SuggestHit(u: SlackUser, value: string) {
    Contains(Lower(u.realName), Lower(value)) || Contains(Lower(u.name), Lower(value))
  }

  function Suggests(value: string): SlackUser -> bool {
    (u: SlackUser) => SuggestHit(u, value)
  }

  /** The directory entries suggested for a typed value, in directory order. */
  function Suggestions(users: seq<SlackUser>, value: string): (r: seq<SlackUser>)
    ensures |r| <= |users|
    ensures forall i :: 0 <= i < |r| ==> r[i] in users && SuggestHit(r[i], value)
    ensures forall i :: 0 <= i < |users| && SuggestHit(users[i], value) ==> users[i] in r
  {
    Seqs.Filter(users, Suggests(value))
  }

  /** The suggestions for two directory parts are those of the first part followed by those of the second. */
  lemma SuggestionsAppend(a: seq<SlackUser>, b: seq<SlackUser>, value: string)
    ensures Suggestions(a + b, value) == Suggestions(a, value) + Suggestions(b, value)
  {
    Seqs.FilterAppend(a, b, Suggests(value));
  }

  // ---------------------------------------------------------------------
  // The form
  // ---------------------------------------------------------------------

  class CheckInForm {
    var formData: FormData
    var photo: string
    var submitting: bool
    var submitError: string
    var slackUsers: seq<SlackUser>
    var filteredUsers: seq<SlackUser>
    var showUserSuggestions: bool
    var slackStatus: NotifyStatus

    /** Suggestions are shown only when there are some. */
    predicate Valid()
      reads this
    {
      showUserSuggestions ==> filteredUsers != []
    }

    constructor ()
      ensures Valid()
      ensures formData == FormData("", None, "", "", "") && photo == ""
      ensures !submitting && submitError == "" && slackStatus == Idle
      ensures slackUsers == [] && filteredUsers == [] && !showUserSuggestions
    {
      formData := FormData("", None, "", "", "");
      photo := "";
      submitting := false;
      submitError := "";
      slackUsers := [];
      filteredUsers := [];
      showUserSuggestions := false;
      slackStatus := Idle;
    }

    /** The directory load on mount: the live roster, or the demo roster when it cannot be read. */
    method LoadSlackUsers(env: SlackEnv, call: SlackCall)
      modifies this
      requires Valid()
      ensures Valid()
      ensures IsBotToken(env.botToken) && LiveRoster(call) ==> slackUsers == RosterFilter(call.body.members.value)
      ensures !(IsBotToken(env.botToken) && LiveRoster(call)) ==> slackUsers == MockSlackUsers
      ensures formData == old(formData) && photo == old(photo) && submitting == old(submitting)
      ensures submitError == old(submitError) && slackStatus == old(slackStatus)
      ensures filteredUsers == old(filteredUsers) && showUserSuggestions == old(showUserSuggestions)
    {
      var users := FetchSlackUsers(env, call);
      slackUsers := users;
    }

    /** `handlePersonToMeetChange`: the new value, and suggestions once more than one character is typed. */
    method HandlePersonToMeetChange(value: string)
      modifies this
      requires Valid()
      ensures Valid()
      ensures formData == old(formData).(personToMeet := value)
      ensures |value| > 1 ==>
                (filteredUsers == Suggestions(old(slackUsers), value) && (showUserSuggestions <==> filteredUsers != []))
      ensures |value| <= 1 ==> !showUserSuggestions && filteredUsers == old(filteredUsers)
      ensures slackUsers == old(slackUsers) && photo == old(photo) && submitting == old(submitting)
      ensures submitError == old(submitError) && slackStatus == old(slackStatus)
    {
      formData := formData.(personToMeet := value);
      if |value| > 1 {
        var filtered := Suggestions(slackUsers, value);
        filteredUsers := filtered;
        showUserSuggestions := |filtered| > 0;
      } else {
        showUserSuggestions := false;
      }
    }

    /** `selectSlackUser`: the host box takes the entry's real name and the suggestions close. */
    method SelectSlackUser(u: SlackUser)
      modifies this
      requires Valid()
      ensures Valid()
      ensures formData == old(formData).(personToMeet := u.realName) && !showUserSuggestions
      ensures slackUsers == old(slackUsers) && filteredUsers == old(filteredUsers) && photo == old(photo)
      ensures submitting == old(submitting) && submitError == old(submitError) && slackStatus == old(slackStatus)
    {
      formData := formData.(personToMeet := u.realName);
      showUserSuggestions := false;
    }

    /**
     * `handleSubmit`. `row` is what is sent to the store (nothing when
     * validation fails); `submitted` is what is passed to `onSubmit`.
     */
    method HandleSubmit(env: SlackEnv, now: int, insert: InsertOutcome, dm: DirectReply, hook: WebhookReply)
      returns (row: Option<VisitorRow>, submitted: Option<VisitorRef>)
      modifies this`submitError, this`slackStatus, this`submitting
      requires Valid()
      ensures Valid()
      ensures Validate(old(formData), old(photo)).Some? ==>
                (row.None? && submitted.None? && slackStatus == Idle && submitting == old(submitting)
                 && submitError == ErrorMessage(Validate(old(formData), old(photo)).value))
      ensures Validate(old(formData), old(photo)).None? ==>
                (row == Some(BuildRow(old(formData), old(photo), now)) && !submitting)
      ensures (Validate(old(formData), old(photo)).None? && StoredId(insert).None?) ==>
                (submitted.None? && slackStatus == Idle && submitError == InsertFailureMessage(insert))
      ensures (Validate(old(formData), old(photo)).None? && StoredId(insert).Some?) ==>
                (submitted == Some(VisitorRef(StoredId(insert).value, Trim(old(formData).fullName)))
                 && submitError == ""
                 && slackStatus == NotifyOutcome(env, old(slackUsers), old(formData).personToMeet, dm, hook))
    {
      var f, p, users := formData, photo, slackUsers;
      var invalid := Validate(f, p);
      row, submitted := None, None;
      if invalid.Some? {
        submitError, slackStatus := ErrorMessage(invalid.value), Idle;
        return;
      }
      row := Some(BuildRow(f, p, now));
      submitted := Complete(env, insert, dm, hook, Trim(f.fullName), f.personToMeet, users);
    }

    /**
     * The part of `handleSubmit` after the insert is sent: on a stored row,
     * notify the host and report the visitor; otherwise show the failure.
     * Either way the form stops submitting.
     */
    method Complete(env: SlackEnv, insert: InsertOutcome, dm: DirectReply, hook: WebhookReply,
                    fullName: string, personToMeet: string, users: seq<SlackUser>)
      returns (submitted: Option<VisitorRef>)
      modifies this`submitError, this`slackStatus, this`submitting
      requires Valid()
      ensures Valid()
      ensures !submitting
      ensures StoredId(insert).None? ==>
                (submitted.None? && slackStatus == Idle && submitError == InsertFailureMessage(insert))
      ensures StoredId(insert).Some? ==>
                (submitted == Some(VisitorRef(StoredId(insert).value, fullName)) && submitError == ""
                 && slackStatus == NotifyOutcome(env, users, personToMeet, dm, hook))
    {
      submitting := true;
      var id := StoredId(insert);
      if id.None? {
        submitError, slackStatus, submitting := InsertFailureMessage(insert), Idle, false;
        return None;
      }
      var status := NotifyHost(env, users, personToMeet, dm, hook);
      submitError, slackStatus, submitting := "", status, false;
      submitted := Some(VisitorRef(id.value, fullName));
    }
  }

  /**
   * The notification step of a stored check-in, which only reads the
   * directory: look the host up and send when Slack is configured.
   */
  method NotifyHost(env: SlackEnv, users: seq<SlackUser>, personToMeet: string, dm: DirectReply, hook: WebhookReply)
    returns (status: NotifyStatus)
    ensures status == NotifyOutcome(env, users, personToMeet, dm, hook)
  {
    status := Idle;
    if IsSlackConfigured(env) {
      status := Sending;
      var host := FindSlackUserByName(users, Trim(personToMeet));
      if host.Some? {
        var sent, _ := SendSlackNotification(env, dm, hook);
        status := if sent then Success else NotifyError;
      } else {
        status := NotifyError;
      }
    }
  }
}
