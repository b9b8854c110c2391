/** The privacy settings page (src/pages/PrivacySecurity.jsx): two switches
    saved to the user's row, reverted when the save fails, and an account
    deletion behind two confirmations. */
module PrivacySecurity {
  import opened Wrappers

  /** The two switches. */
  datatype Field = HidePhone | VacationMode

  /** The two columns of the user's `users` row. */
  datatype Flags = Flags(hide_phone: bool, vacation_mode: bool)

  /** `profile.x || false` for a column that is absent or null (`None`). */
  function OrFalse(b: Option<bool>): (r: bool)
    ensures r <==> b == Some(true)
  {
    b.Some? && b.value
  }

  /** A flag of a row. */
  function Get(f: Flags, field: Field): bool {
    if field == HidePhone then f.hide_phone else f.vacation_mode
  }

  /** A row with one flag replaced. */
  function Set(f: Flags, field: Field, value: bool): (r: Flags)
    ensures Get(r, field) == value
    ensures forall other: Field :: other != field ==> Get(r, other) == Get(f, other)
  {
    if field == HidePhone then f.(hide_phone := value) else f.(vacation_mode := value)
  }

  /** Setting a flag to the value it has leaves the row as it was, and
      setting it twice keeps only the second value. */
  lemma SetRules(f: Flags, field: Field, a: bool, b: bool)
    ensures Set(f, field, Get(f, field)) == f
    ensures Set(Set(f, field, a), field, b) == Set(f, field, b)
  {
  }

  /** The delete goes ahead only when the dialog is accepted and the prompt
      answered with exactly 'DELETE' (`None` when the prompt is cancelled). */
  predicate DeleteConfirmed(confirmed: bool, answer: Option<string>) {
    confirmed && answer == Some("DELETE")
  }

  /** A cancelled dialog, a cancelled prompt or any other answer, even one
      differing only in case or spacing, stops the delete. */
  lemma DeleteGate(confirmed: bool, answer: Option<string>)
    ensures !confirmed ==> !DeleteConfirmed(confirmed, answer)
    ensures answer.None? ==> !DeleteConfirmed(confirmed, answer)
    ensures !DeleteConfirmed(true, Some("delete")) && !DeleteConfirmed(true, Some("DELETE "))
    ensures DeleteConfirmed(confirmed, answer) <==> confirmed && answer == Some("DELETE")
  {
    assert "delete" != "DELETE" by { assert "delete"[0] != "DELETE"[0]; }
    assert |"DELETE "| != |"DELETE"|;
  }

  /** The page's switches with the row they save to. */
  class Settings {
    var shown: Flags
    var stored: Flags
    var loading: bool
    var accountDeleted: bool
    var signedOut: bool
    var lastAlert: Option<string>
    var navigatedTo: Option<string>

    /** The switches once the profile is loaded: each flag as stored, a
        missing or null one as off; without a profile both are off. */
    constructor (profile: Option<(Option<bool>, Option<bool>)>, row: Flags)
      ensures shown == (if profile.Some? then Flags(OrFalse(profile.value.0), OrFalse(profile.value.1))
                        else Flags(false, false))
      ensures stored == row && !loading && !accountDeleted && !signedOut && lastAlert.None? && navigatedTo.None?
    {
      shown := if profile.Some? then Flags(OrFalse(profile.value.0), OrFalse(profile.value.1)) else Flags(false, false);
      stored := row;
      loading := false;
      accountDeleted := false;
      signedOut := false;
      lastAlert := None;
      navigatedTo := None;
    }

    /** `handleToggle(field, currentValue)`: only `field` flips at once; the
        update is sent, and an error (or a missing user, whose id the call
        reads) puts `currentValue` back. */
    method HandleToggle(field: Field, currentValue: bool, user: Option<string>, error: bool)
      modifies this
      ensures var ok := user.Some? && !error;
              shown == Set(old(shown), field, if ok then !currentValue else currentValue)
              && stored == (if ok then Set(old(stored), field, !currentValue) else old(stored))
      ensures old(shown) == old(stored) && currentValue == Get(old(shown), field) ==> shown == stored
      ensures loading == old(loading) && accountDeleted == old(accountDeleted) && signedOut == old(signedOut)
      ensures lastAlert == old(lastAlert) && navigatedTo == old(navigatedTo)
    {
      var newValue := !currentValue;
      shown := Set(shown, field, newValue);
      if user.Some? && !error {
        stored := Set(stored, field, newValue);
      } else {
        shown := Set(shown, field, currentValue);
        if old(shown) == old(stored) && currentValue == Get(old(shown), field) {
          SetRules(old(shown), field, newValue, currentValue);
        }
      }
    }

    /** `handleDeleteAccount()`. Behind both confirmations the row is deleted
        (`error` when that fails, as it does without a user); success signs
        out and goes to /welcome, failure alerts and stops loading. */
    method HandleDeleteAccount(confirmed: bool, answer: Option<string>, user: Option<string>, error: bool)
      modifies this
      ensures !DeleteConfirmed(confirmed, answer) ==>
                loading == old(loading) && accountDeleted == old(accountDeleted) && signedOut == old(signedOut)
                && lastAlert == old(lastAlert) && navigatedTo == old(navigatedTo)
      ensures DeleteConfirmed(confirmed, answer) && (user.None? || error) ==>
                !loading && accountDeleted == old(accountDeleted) && signedOut == old(signedOut)
                && lastAlert == Some("Failed to delete account completely. Please contact support if issues persist.")
                && navigatedTo == old(navigatedTo)
      ensures DeleteConfirmed(confirmed, answer) && user.Some? && !error ==>
                loading && accountDeleted && signedOut
                && lastAlert == Some("Your account has been deleted.") && navigatedTo == Some("/welcome")
      ensures accountDeleted ==> old(accountDeleted) || DeleteConfirmed(confirmed, answer)
      ensures shown == old(shown) && stored == old(stored)
    {
      if !confirmed {
        return;
      }
      if answer != Some("DELETE") {
        return;
      }
      loading := true;
      if user.None? || error {
        lastAlert := Some("Failed to delete account completely. Please contact support if issues persist.");
        loading := false;
      } else {
        accountDeleted := true;
        signedOut := true;
        lastAlert := Some("Your account has been deleted.");
        navigatedTo := Some("/welcome");
      }
    }
  }
}
