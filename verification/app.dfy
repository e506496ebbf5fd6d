/**
 * The kiosk's screen controller: which of the five screens is shown, the
 * confirmation being displayed, and the local visitor cache that check-in
 * feeds and check-out reads.
 */
module App {
  import opened Wrappers
  import opened VisitorTypes
  import opened VisitorStorage

  datatype Screen = Welcome | CheckInScreen | CheckOutScreen | LateCheckInScreen | ConfirmationScreen

  /** The screens the welcome actions lead to, each of which has a back button. */
  predicate IsForm(s: Screen) {
    s.CheckInScreen? || s.CheckOutScreen? || s.LateCheckInScreen?
  }

  /** `ConfirmationData.type`. */
  datatype ConfirmationKind = CheckedIn | CheckedOut | LateCheckedIn

  datatype Confirmation = Confirmation(kind: ConfirmationKind, visitor: VisitorRef)

  /** What the router renders; `Blank` is the `null` of a confirmation screen without data. */
  datatype View =
    | WelcomeView
    | CheckInView
    | CheckOutView(visitors: seq<LocalVisitor>)
    | LateCheckInView
    | ConfirmationView(confirmation: Confirmation)
    | Blank

  class Kiosk {
    var screen: Screen
    var confirm: Option<Confirmation>
    var cache: VisitorStore

    /** The confirmation screen always has something to confirm. */
    predicate Valid()
      reads this
    {
      screen == ConfirmationScreen ==> confirm.Some?
    }

    /** The start: the welcome screen, no confirmation, and the cache as loaded and swept. */
    constructor (stored: Stored, now: int)
      ensures Valid()
      ensures screen == Welcome && confirm.None?
      ensures fresh(cache) && cache.visitors == SweepExpired(LoadVisitors(stored), now)
    {
      screen := Welcome;
      confirm := None;
      cache := new VisitorStore(stored, now);
    }

    /** The router: the component for the current screen, or nothing for a confirmation without data. */
    function Render(): (v: View)
      reads this, cache
      ensures v.Blank? <==> screen == ConfirmationScreen && confirm.None?
      ensures Valid() ==> !v.Blank?
      ensures v.ConfirmationView? ==> screen == ConfirmationScreen && confirm == Some(v.confirmation)
      ensures v.CheckOutView? ==> screen == CheckOutScreen && v.visitors == cache.visitors
      ensures screen == Welcome ==> v == WelcomeView
      ensures screen == CheckInScreen ==> v == CheckInView
      ensures screen == LateCheckInScreen ==> v == LateCheckInView
      ensures screen == CheckOutScreen ==> v == CheckOutView(cache.visitors)
    {
      match screen
      case CheckInScreen => CheckInView
      case CheckOutScreen => CheckOutView(cache.visitors)
      case LateCheckInScreen => LateCheckInView
      case ConfirmationScreen => if confirm.Some? then ConfirmationView(confirm.value) else Blank
      case Welcome => WelcomeView
    }

    /** `handleCheckInSuccess`: cache the visitor, then confirm the check-in. */
    method HandleCheckInSuccess(v: VisitorRef, now: int)
      modifies this`screen, this`confirm, cache
      ensures Valid()
      ensures cache.visitors == WithVisitor(old(cache.visitors), v.id, v.fullName, now)
      ensures UniqueIds(old(cache.visitors)) ==> UniqueIds(cache.visitors)
      ensures screen == ConfirmationScreen && confirm == Some(Confirmation(CheckedIn, v))
    {
      cache.AddVisitor(v.id, v.fullName, now);
      confirm := Some(Confirmation(CheckedIn, v));
      screen := ConfirmationScreen;
    }

    /** `handleLateCheckInSuccess`: confirm the late check-in; the cache is not touched. */
    method HandleLateCheckInSuccess(v: VisitorRef)
      modifies this`screen, this`confirm
      ensures Valid()
      ensures screen == ConfirmationScreen && confirm == Some(Confirmation(LateCheckedIn, v))
    {
      confirm := Some(Confirmation(LateCheckedIn, v));
      screen := ConfirmationScreen;
    }

    /**
     * `handleCheckOut`: stamp the cache, and confirm with the record the
     * cache held for the id, if any; otherwise the screen stays as it was.
     */
    method HandleCheckOut(id: string, now: int)
      modifies this`screen, this`confirm, cache
      requires Valid()
      ensures Valid()
      ensures cache.visitors == StampCheckOut(old(cache.visitors), id, now)
      ensures UniqueIds(old(cache.visitors)) ==> UniqueIds(cache.visitors)
      ensures HasId(old(cache.visitors), id) ==>
                var v := FindById(old(cache.visitors), id).value;
                screen == ConfirmationScreen && confirm == Some(Confirmation(CheckedOut, VisitorRef(v.id, v.fullName)))
      ensures !HasId(old(cache.visitors), id) ==> screen == old(screen) && confirm == old(confirm)
    {
      var found := cache.CheckOutVisitor(id, now);
      if found.Some? {
        confirm := Some(Confirmation(CheckedOut, VisitorRef(found.value.id, found.value.fullName)));
        screen := ConfirmationScreen;
      }
    }

    /** `goHome`: drop the confirmation and show the welcome screen. */
    method GoHome()
      modifies this`screen, this`confirm
      ensures Valid()
      ensures screen == Welcome && confirm.None?
    {
      confirm := None;
      screen := Welcome;
    }

    /** A form's back button: the welcome screen; the confirmation is left as it was. */
    method Back()
      modifies this`screen
      requires IsForm(screen)
      ensures Valid()
      ensures screen == Welcome
    {
      screen := Welcome;
    }

    /** A welcome action: open one of the three forms. */
    method Open(form: Screen)
      modifies this`screen
      requires screen == Welcome && IsForm(form)
      ensures Valid()
      ensures screen == form
    {
      screen := form;
    }
  }
}
