/**
 * The visitor vocabulary shared by the forms: the closed set of reasons
 * for a visit, the option table the reason picker is built from, and the
 * `{ id, fullName }` pair the forms hand back to the screen controller.
 */
module VisitorTypes {
  import opened Wrappers

  datatype ReasonForVisit = ClientMeeting | Interview | Delivery | InternalGuest | Other

  /** The string value each reason carries in the picker and in the record store. */
  function ReasonValue(r: ReasonForVisit): string {
    match r
    case ClientMeeting => "client-meeting"
    case Interview => "interview"
    case Delivery => "delivery"
    case InternalGuest => "internal-guest"
    case Other => "other"
  }

  /**
   * The picker's `e.target.value as ReasonForVisit`: the placeholder option
   * has the empty value and reads as "nothing selected".
   */
  function ParseReason(s: string): (r: Option<ReasonForVisit>)
    ensures r.Some? ==> ReasonValue(r.value) == s
    ensures r.None? ==> forall x :: ReasonValue(x) != s
  {
    if s == "client-meeting" then Some(ClientMeeting)
    else if s == "interview" then Some(Interview)
    else if s == "delivery" then Some(Delivery)
    else if s == "internal-guest" then Some(InternalGuest)
    else if s == "other" then Some(Other)
    else None
  }

  /** Every reason's value reads back as that reason. */
  lemma ParseReasonValue(r: ReasonForVisit)
    ensures ParseReason(ReasonValue(r)) == Some(r)
  {
    ReasonValuesDistinct();
  }

  /** No two reasons share a value. */
  lemma ReasonValuesDistinct()
    ensures forall a, b :: ReasonValue(a) == ReasonValue(b) ==> a == b
  {
    assert "client-meeting"[0] != "internal-guest"[0];
  }

  datatype ReasonOption = ReasonOption(value: ReasonForVisit, caption: string)

  /** `REASON_OPTIONS`: the picker's entries, in display order. */
  const ReasonOptions: seq<ReasonOption> := [
    ReasonOption(ClientMeeting, "Client Meeting"),
    ReasonOption(Interview, "Interview"),
    ReasonOption(Delivery, "Delivery"),
    ReasonOption(InternalGuest, "Internal Guest"),
    ReasonOption(Other, "Other")
  ]

  /** Position of a reason in the declaration of the type. */
  function Ordinal(r: ReasonForVisit): nat {
    match r
    case ClientMeeting => 0
    case Interview => 1
    case Delivery => 2
    case InternalGuest => 3
    case Other => 4
  }

  /** The table lists every reason exactly once, in declaration order, with distinct values. */
  lemma ReasonOptionsComplete()
    ensures |ReasonOptions| == 5
    ensures forall r :: Ordinal(r) < |ReasonOptions| && ReasonOptions[Ordinal(r)].value == r
    ensures forall i, j :: 0 <= i < j < |ReasonOptions| ==> ReasonOptions[i].value != ReasonOptions[j].value
    ensures forall i, j :: 0 <= i < j < |ReasonOptions| ==>
      ReasonValue(ReasonOptions[i].value) != ReasonValue(ReasonOptions[j].value)
  {
    ReasonValuesDistinct();
  }

  /** `{ id, fullName }`: what a form reports once its record is stored. */
  datatype VisitorRef = VisitorRef(id: string, fullName: string)
}
