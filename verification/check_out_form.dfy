/**
 * The checkout screen: the list of visitors still on site, a search over
 * it by name, phone or host, and the checkout button, which records the
 * checkout in the record store and then hands the id to the screen
 * controller. Also the two display helpers, the visit purpose and the
 * elapsed-time label.
 */
module CheckOut {
  import opened Wrappers
  import opened Text
  import opened VisitorStorage
  import opened VisitorTypes
  import Seqs

  // ---------------------------------------------------------------------
  // Active visitors and the search
  // ---------------------------------------------------------------------

  function IsActive(): LocalVisitor -> bool {
    (v: LocalVisitor) => v.checkOutTime.None?
  }

  /** `visitors.filter(v => !v.checkOutTime)`: those not checked out, in order. */
  function ActiveVisitors(vs: seq<LocalVisitor>): (r: seq<LocalVisitor>)
    ensures |r| <= |vs|
    ensures forall i :: 0 <= i < |r| ==> r[i] in vs && r[i].checkOutTime.None?
    ensures forall i :: 0 <= i < |vs| && vs[i].checkOutTime.None? ==> vs[i] in r
  {
    Seqs.Filter(vs, IsActive())
  }

  /** The active list of a concatenation is the two active lists in turn, so the cache's order is kept. */
  lemma ActiveVisitorsAppend(a: seq<LocalVisitor>, b: seq<LocalVisitor>)
    ensures ActiveVisitors(a + b) == ActiveVisitors(a) + ActiveVisitors(b)
  {
    Seqs.FilterAppend(a, b, IsActive());
  }

  /**
   * The search test: the lower-cased trimmed term occurs in the lower-cased
   * name or host, or the trimmed term as typed occurs in the phone number.
   */
  predicate SearchHit(v: LocalVisitor, term: string) {
    var needle := Trim(Lower(term));
    || Contains(Lower(v.fullName), needle)
    || (Truthy(v.phoneNumber) && Contains(v.phoneNumber.value, Trim(term)))
    || (Truthy(v.personToMeet) && Contains(Lower(v.personToMeet.value), needle))
  }

  function Hit(term: string): LocalVisitor -> bool {
    (v: LocalVisitor) => SearchHit(v, term)
  }

  /** The first active visitor the term hits, if any. */
  function FindActive(vs: seq<LocalVisitor>, term: string): (r: Option<LocalVisitor>)
    ensures r.Some? ==> r.value in vs && r.value.checkOutTime.None?
  {
    Seqs.Find(ActiveVisitors(vs), Hit(term))
  }

  /** The search finds a visitor exactly when some active visitor is hit, and what it finds is hit. */
  lemma FindActiveHits(vs: seq<LocalVisitor>, term: string)
    ensures FindActive(vs, term).Some? ==> SearchHit(FindActive(vs, term).value, term)
    ensures FindActive(vs, term).None? <==> forall i :: 0 <= i < |vs| && vs[i].checkOutTime.None? ==> !SearchHit(vs[i], term)
  {
    var active := ActiveVisitors(vs);
    var r := FindActive(vs, term);
    assert r.Some? ==> Hit(term)(r.value);
    if r.None? {
      forall i | 0 <= i < |vs| && vs[i].checkOutTime.None?
        ensures !SearchHit(vs[i], term)
      {
        var j :| 0 <= j < |active| && active[j] == vs[i];
        assert !Hit(term)(active[j]);
      }
    } else {
      var k :| 0 <= k < |vs| && vs[k] == r.value;
      assert SearchHit(vs[k], term) by { assert Hit(term)(r.value); }
    }
  }

  /** Among the active visitors, every one listed before the found one is missed by the term. */
  lemma FindActiveFirst(vs: seq<LocalVisitor>, term: string)
    requires FindActive(vs, term).Some?
    ensures exists k ::
              && 0 <= k < |ActiveVisitors(vs)| && ActiveVisitors(vs)[k] == FindActive(vs, term).value
              && forall j :: 0 <= j < k ==> !SearchHit(ActiveVisitors(vs)[j], term)
  {
    var active := ActiveVisitors(vs);
    var k := Seqs.FirstIndex(active, Hit(term)).value;
    assert forall j :: 0 <= j < k ==> !Hit(term)(active[j]);
  }

  /** Once the cache has stamped an id checked out, no search finds a record with that id. */
  lemma CheckedOutNeverFound(vs: seq<LocalVisitor>, id: string, t: int, term: string)
    ensures FindActive(StampCheckOut(vs, id, t), term).Some? ==> FindActive(StampCheckOut(vs, id, t), term).value.id != id
  {
    var after := StampCheckOut(vs, id, t);
    var r := FindActive(after, term);
    if r.Some? {
      var k :| 0 <= k < |after| && after[k] == r.value;
      assert vs[k].id == after[k].id;
    }
  }

  /** A visitor the kiosk has just added is active, so a search by its exact name can find it. */
  lemma JustAddedIsActive(vs: seq<LocalVisitor>, id: string, fullName: string, now: int)
    requires !HasId(vs, id)
    ensures NewVisitor(id, fullName, now) in ActiveVisitors(WithVisitor(vs, id, fullName, now))
  {
    var r := WithVisitor(vs, id, fullName, now);
    assert r[|vs|] == NewVisitor(id, fullName, now);
  }

  // ---------------------------------------------------------------------
  // Display helpers
  // ---------------------------------------------------------------------

  /** A character `\w` matches: an ASCII letter or digit, or `_`. */
  predicate IsWordChar(c: char) {
    IsAsciiUpper(c) || IsAsciiLower(c) || ('0' <= c <= '9') || c == '_'
  }

  /** `\b\w` matches at `i`: a word character not preceded by one. */
  predicate WordStart(s: string, i: int)
    requires 0 <= i < |s|
  {
    IsWordChar(s[i]) && (i == 0 || !IsWordChar(s[i - 1]))
  }

  /** `replace(/-/g, ' ')`. */
  function Dehyphen(s: string): (r: string)
    ensures |r| == |s| && '-' !in r
    ensures forall i :: 0 <= i < |s| ==> r[i] == if s[i] == '-' then ' ' else s[i]
  {
    seq(|s|, i requires 0 <= i < |s| => if s[i] == '-' then ' ' else s[i])
  }

  /** `replace(/\b\w/g, l => l.toUpperCase())`. */
  function CapitalizeWords(s: string): (r: string)
    ensures |r| == |s|
    ensures forall i :: 0 <= i < |s| && WordStart(s, i) ==> !IsAsciiLower(r[i]) && LowerChar(r[i]) == LowerChar(s[i])
    ensures forall i :: 0 <= i < |s| && !WordStart(s, i) ==> r[i] == s[i]
  {
    seq(|s|, i requires 0 <= i < |s| => if WordStart(s, i) then UpperChar(s[i]) else s[i])
  }

  /** The placeholder the source writes for a missing purpose: an em dash as its UTF-8 bytes read as Windows-1252. */
  const NoPurpose: string := "\U{00E2}\U{20AC}\U{201D}"

  /** `formatPurpose`: the free-text reason for `other`, else the reason value written as words. */
  function FormatPurpose(v: LocalVisitor): (r: string)
    ensures v.reasonForVisit == Some("other") ==> r == if v.otherReason.Some? then v.otherReason.value else "Other"
    ensures !Truthy(v.reasonForVisit) ==> r == NoPurpose
    ensures Truthy(v.reasonForVisit) && v.reasonForVisit != Some("other") ==>
              (|r| == |v.reasonForVisit.value| && '-' !in r
               && forall i :: 0 <= i < |r| ==> LowerChar(r[i]) == LowerChar(Dehyphen(v.reasonForVisit.value)[i]))
    ensures Truthy(v.reasonForVisit) && v.reasonForVisit != Some("other") ==>
              r == CapitalizeWords(Dehyphen(v.reasonForVisit.value))
  {
    if v.reasonForVisit == Some("other") then
      match v.otherReason
      case Some(text) => text
      case None => "Other"
    else if Truthy(v.reasonForVisit) then
      var r := CapitalizeWords(Dehyphen(v.reasonForVisit.value));
      assert '-' !in r by {
        forall i | 0 <= i < |r|
          ensures r[i] != '-'
        {
          var d := Dehyphen(v.reasonForVisit.value);
          assert d[i] != '-';
          assert WordStart(d, i) ==> IsWordChar(UpperChar(d[i]));
        }
      }
      r
    else NoPurpose
  }

  /** Title-casing a dehyphenated value, character by character. */
  lemma TitleCased(value: string, caption: string)
    requires |value| == |caption|
    requires forall i :: 0 <= i < |value| ==>
      caption[i] == (if WordStart(Dehyphen(value), i) then UpperChar(Dehyphen(value)[i]) else Dehyphen(value)[i])
    ensures CapitalizeWords(Dehyphen(value)) == caption
  {
  }

  // Each caption of the picker, checked character by character against its value.

  lemma CaptionClientMeeting(value: string, caption: string)
    requires value == "client-meeting" && caption == "Client Meeting"
    ensures CapitalizeWords(Dehyphen(value)) == caption
  {
    TitleCased(value, caption);
  }

  lemma CaptionInterview(value: string, caption: string)
    requires value == "interview" && caption == "Interview"
    ensures CapitalizeWords(Dehyphen(value)) == caption
  {
    TitleCased(value, caption);
  }

  lemma CaptionDelivery(value: string, caption: string)
    requires value == "delivery" && caption == "Delivery"
    ensures CapitalizeWords(Dehyphen(value)) == caption
  {
    TitleCased(value, caption);
  }

  lemma CaptionInternalGuest(value: string, caption: string)
    requires value == "internal-guest" && caption == "Internal Guest"
    ensures CapitalizeWords(Dehyphen(value)) == caption
  {
    TitleCased(value, caption);
  }

  /** The picker's caption of every reason but `other` is what the checkout screen shows for its value. */
  lemma CaptionsMatchFormatPurpose(v: LocalVisitor, r: ReasonForVisit)
    requires r != Other && v.reasonForVisit == Some(ReasonValue(r))
    ensures FormatPurpose(v) == ReasonOptions[Ordinal(r)].caption
  {
    var value, caption := ReasonValue(r), ReasonOptions[Ordinal(r)].caption;
    match r
    case ClientMeeting => CaptionClientMeeting(value, caption);
    case Interview => CaptionInterview(value, caption);
    case Delivery => CaptionDelivery(value, caption);
    case InternalGuest => CaptionInternalGuest(value, caption);
  }

  const MINUTE_MS: int := 60_000

  /** The quotient rounded toward zero, the one JavaScript's `%` pairs its remainder with. */
  function TruncQuot(a: int, b: int): int
    requires b > 0
  {
    if a >= 0 then a / b else -((-a) / b)
  }

  /** JavaScript's `%`: the remainder takes the sign of the dividend. */
  function JsRem(a: int, b: int): (r: int)
    requires b > 0
    ensures a >= 0 ==> 0 <= r < b
    ensures a < 0 ==> -b < r <= 0
    ensures a >= 0 ==> r == a % b
    ensures a == TruncQuot(a, b) * b + r
  {
    if a >= 0 then a % b
    else
      var q := (-a) / b;
      assert -a == q * b + (-a) % b;
      assert (-q) * b == -(q * b);
      -((-a) % b)
  }

  /** `Math.floor(ms / 3_600_000)` and `Math.floor((ms % 3_600_000) / 60_000)`. */
  function DurationParts(ms: int): (hm: (int, int)) {
    (ms / HOUR_MS, JsRem(ms, HOUR_MS) / MINUTE_MS)
  }

  /** For a non-negative span, whole hours and the minutes left over, under a minute short of the span. */
  lemma DurationPartsBounds(ms: int)
    requires ms >= 0
    ensures var (h, m) := DurationParts(ms);
      && h >= 0 && 0 <= m < 60
      && h * HOUR_MS + m * MINUTE_MS <= ms < h * HOUR_MS + m * MINUTE_MS + MINUTE_MS
  {
    var (h, m) := DurationParts(ms);
    var rest := ms % HOUR_MS;
    assert ms == h * HOUR_MS + rest;
    assert rest == m * MINUTE_MS + rest % MINUTE_MS;
  }

  /** `getVisitDuration`: `"Mm"` for under an hour, else `"Hh Mm"`. */
  function VisitDuration(checkInTime: int, now: int): (r: string)
    ensures 'h' in r <==> (now - checkInTime) / HOUR_MS != 0
    ensures |r| > 0 && r[|r| - 1] == 'm'
  {
    var (h, m) := DurationParts(now - checkInTime);
    var ms := IntToString(m) + "m";
    if h == 0 then
      assert 'h' !in ms by { IntToStringHasNoH(m); }
      ms
    else
      var r := IntToString(h) + "h " + ms;
      assert r[|IntToString(h)|] == 'h';
      r
  }

  lemma DigitIsNotH(d: nat)
    requires d < 10
    ensures DigitChar(d) != 'h'
  {
  }

  lemma {:induction false} NatToStringHasNoH(n: nat)
    ensures 'h' !in NatToString(n)
  {
    DigitIsNotH(n % 10);
    if n >= 10 {
      NatToStringHasNoH(n / 10);
    }
  }

  lemma IntToStringHasNoH(n: int)
    ensures 'h' !in IntToString(n)
  {
    if n < 0 {
      NatToStringHasNoH(-n);
    } else {
      NatToStringHasNoH(n);
    }
  }

  /** Under an hour, the label is the number of whole minutes followed by `m`, and reading the digits back gives that number. */
  lemma ShortVisitLabel(checkInTime: int, now: int)
    requires 0 <= now - checkInTime < HOUR_MS
    ensures var r := VisitDuration(checkInTime, now);
      DecimalValue(r[..|r| - 1]) == (now - checkInTime) / MINUTE_MS
  {
    var ms := now - checkInTime;
    var m := JsRem(ms, HOUR_MS) / MINUTE_MS;
    var r := VisitDuration(checkInTime, now);
    assert r == NatToString(m) + "m";
    assert r[..|r| - 1] == NatToString(m);
    NatToStringRoundTrip(m);
  }

  // ---------------------------------------------------------------------
  // The form
  // ---------------------------------------------------------------------

  /** What the record store's `update` of `checked_out_at` ended in. */
  datatype UpdateOutcome = Updated | UpdateFailed | UpdateThrew

  const UpdateFailedMessage: string := "Failed to update checkout time in database. Please try again."
  const UnexpectedMessage: string := "An unexpected error occurred. Please try again."

  class CheckOutForm {
    var searchTerm: string
    var foundVisitor: Option<LocalVisitor>
    var notFound: bool
    var checkingOut: bool
    var checkoutError: string
    var checkoutSuccess: bool

    /** A search result is either a visitor or "not found", never both. */
    predicate Valid()
      reads this
    {
      !(foundVisitor.Some? && notFound)
    }

    constructor ()
      ensures Valid()
      ensures searchTerm == "" && foundVisitor.None? && !notFound && !checkingOut
      ensures checkoutError == "" && !checkoutSuccess
    {
      searchTerm := "";
      foundVisitor := None;
      notFound := false;
      checkingOut := false;
      checkoutError := "";
      checkoutSuccess := false;
    }

    /** `resetSearch`. */
    method ResetSearch()
      modifies this
      ensures Valid()
      ensures searchTerm == "" && foundVisitor.None? && !notFound && checkoutError == "" && !checkoutSuccess
      ensures checkingOut == old(checkingOut)
    {
      searchTerm := "";
      foundVisitor := None;
      notFound := false;
      checkoutError := "";
      checkoutSuccess := false;
    }

    /** Typing in the search box: the new term, and a full reset when it is blank. */
    method EditSearchTerm(value: string)
      modifies this
      requires Valid()
      ensures Valid()
      ensures Trim(value) != [] ==>
                (searchTerm == value && foundVisitor == old(foundVisitor) && notFound == old(notFound)
                 && checkoutError == old(checkoutError) && checkoutSuccess == old(checkoutSuccess))
      ensures Trim(value) == [] ==>
                (searchTerm == "" && foundVisitor.None? && !notFound && checkoutError == "" && !checkoutSuccess)
      ensures checkingOut == old(checkingOut)
    {
      searchTerm := value;
      if Trim(value) == [] {
        ResetSearch();
      }
    }

    /** `handleSearch`: a blank term does nothing; otherwise the first active hit, or "not found". */
    method HandleSearch(visitors: seq<LocalVisitor>)
      modifies this`foundVisitor, this`notFound, this`checkoutError, this`checkoutSuccess
      requires Valid()
      ensures Valid()
      ensures Trim(searchTerm) == [] ==>
                (foundVisitor == old(foundVisitor) && notFound == old(notFound)
                 && checkoutError == old(checkoutError) && checkoutSuccess == old(checkoutSuccess))
      ensures Trim(searchTerm) != [] ==>
                (foundVisitor == FindActive(visitors, searchTerm) && notFound == foundVisitor.None?
                 && checkoutError == "" && !checkoutSuccess)
    {
      if Trim(searchTerm) != [] {
        ShowResult(FindActive(visitors, searchTerm));
      }
    }

    /** Shows a search result: the visitor found, or "not found", with any earlier outcome cleared. */
    method ShowResult(vis: Option<LocalVisitor>)
      modifies this`foundVisitor, this`notFound, this`checkoutError, this`checkoutSuccess
      ensures Valid()
      ensures foundVisitor == vis && notFound == vis.None? && checkoutError == "" && !checkoutSuccess
    {
      checkoutError := "";
      checkoutSuccess := false;
      foundVisitor := vis;
      notFound := vis.None?;
    }

    /** Clicking a row of the active list: that visitor, with its name as the term. */
    method SelectVisitor(v: LocalVisitor)
      modifies this
      ensures Valid()
      ensures searchTerm == v.fullName && foundVisitor == Some(v) && !notFound && checkoutError == ""
      ensures checkingOut == old(checkingOut) && checkoutSuccess == old(checkoutSuccess)
    {
      searchTerm := v.fullName;
      foundVisitor := Some(v);
      notFound := false;
      checkoutError := "";
    }

    /**
     * `handleCheckOutClick`. Returns the id handed to `onCheckOut`, which
     * happens only when a visitor is selected, no checkout is in flight
     * and the store accepted the update.
     */
    method HandleCheckOutClick(outcome: UpdateOutcome) returns (checkedOut: Option<string>)
      modifies this
      requires Valid()
      ensures Valid()
      ensures (old(foundVisitor).None? || old(checkingOut)) ==>
                (checkedOut.None? && checkingOut == old(checkingOut) && checkoutError == old(checkoutError)
                 && checkoutSuccess == old(checkoutSuccess))
      ensures (old(foundVisitor).Some? && !old(checkingOut)) ==>
                (!checkingOut
                 && (checkedOut.Some? <==> outcome == Updated)
                 && (checkedOut.Some? ==> checkedOut.value == old(foundVisitor).value.id)
                 && (checkoutSuccess <==> outcome == Updated)
                 && checkoutError == match outcome
                                     case Updated => ""
                                     case UpdateFailed => UpdateFailedMessage
                                     case UpdateThrew => UnexpectedMessage)
      ensures searchTerm == old(searchTerm) && foundVisitor == old(foundVisitor) && notFound == old(notFound)
    {
      checkedOut := None;
      if foundVisitor.None? || checkingOut {
        return;
      }
      checkingOut := true;
      checkoutError := "";
      checkoutSuccess := false;
      match outcome {
        case UpdateFailed =>
          checkoutError := UpdateFailedMessage;
          checkingOut := false;
          return;
        case Updated =>
          checkedOut := Some(foundVisitor.value.id);
          checkoutSuccess := true;
        case UpdateThrew =>
          checkoutError := UnexpectedMessage;
      }
      checkingOut := false;
    }

    /** The timer two seconds after a successful checkout: back to an empty search. */
    method AutoReset()
      modifies this
      requires Valid()
      ensures Valid()
      ensures foundVisitor.None? && searchTerm == "" && !checkoutSuccess
      ensures notFound == old(notFound) && checkingOut == old(checkingOut) && checkoutError == old(checkoutError)
    {
      foundVisitor := None;
      searchTerm := "";
      checkoutSuccess := false;
    }
  }
}
