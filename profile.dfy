/** The signed-in user's profile page (src/pages/Profile.jsx): the worker
    switch, saved optimistically, and the name and avatar shown. */
module Profile {
  import opened Wrappers

  /** A JavaScript text that is truthy: present and not `''`. */
  predicate Truthy(s: Option<string>) {
    s.Some? && s.value != ""
  }

  /** `profile?.display_name || user?.user_metadata?.full_name || 'User'`. */
  function DisplayName(displayName: Option<string>, fullName: Option<string>): string {
    if Truthy(displayName) then displayName.value
    else if Truthy(fullName) then fullName.value
    else "User"
  }

  /** The name shown is never empty: the profile's name when set, else the
      sign-up metadata's, else 'User'; the profile's name always wins. */
  lemma DisplayNameRule(displayName: Option<string>, fullName: Option<string>)
    ensures DisplayName(displayName, fullName) != ""
    ensures Truthy(displayName) ==> DisplayName(displayName, fullName) == displayName.value
    ensures !Truthy(displayName) && Truthy(fullName) ==> DisplayName(displayName, fullName) == fullName.value
    ensures !Truthy(displayName) && !Truthy(fullName) ==> DisplayName(displayName, fullName) == "User"
  {
  }

  /** `profile?.avatar_url || user?.user_metadata?.avatar_url`: the
      metadata's value, whatever it is, when the profile has none. */
  function AvatarUrl(profileAvatar: Option<string>, metadataAvatar: Option<string>): (r: Option<string>)
    ensures Truthy(profileAvatar) ==> r == profileAvatar
    ensures !Truthy(profileAvatar) ==> r == metadataAvatar
  {
    if Truthy(profileAvatar) then profileAvatar else metadataAvatar
  }

  /** The worker switch with the `is_worker` column it saves to. */
  class WorkerSwitch {
    var isWorker: bool
    var loadingWorkerStatus: bool
    var stored: bool

    /** `profile.is_worker || false` once the profile is loaded. */
    constructor (profileIsWorker: Option<bool>, column: bool)
      ensures isWorker == (profileIsWorker == Some(true)) && !loadingWorkerStatus && stored == column
    {
      isWorker := profileIsWorker.Some? && profileIsWorker.value;
      loadingWorkerStatus := false;
      stored := column;
    }

    /** `handleWorkerToggle()`: nothing without a user; otherwise the switch
        flips at once, the update is sent (`error` when it fails), a failure
        flips it back, and the spinner is off at the end either way. */
    method HandleWorkerToggle(user: Option<string>, error: bool)
      modifies this
      ensures user.None? ==> isWorker == old(isWorker) && loadingWorkerStatus == old(loadingWorkerStatus)
                             && stored == old(stored)
      ensures user.Some? ==> !loadingWorkerStatus
      ensures user.Some? && error ==> isWorker == old(isWorker) && stored == old(stored)
      ensures user.Some? && !error ==> isWorker == !old(isWorker) && stored == isWorker
      ensures old(isWorker) == old(stored) ==> isWorker == stored
    {
      if user.None? {
        return;
      }
      var newValue := !isWorker;
      isWorker := newValue;
      loadingWorkerStatus := true;
      if error {
        isWorker := !newValue;
      } else {
        stored := newValue;
      }
      loadingWorkerStatus := false;
    }
  }
}
