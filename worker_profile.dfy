/** A worker's public page (src/pages/WorkerProfile.jsx): values derived from
    the fetched profile (phone, stats, rating badge, review stars) and the
    Message action. */
module WorkerProfile {
  import opened Wrappers

  /** Present and not `''`. */
  predicate Truthy(s: Option<string>) {
    s.Some? && s.value != ""
  }

  /** `(profile.hide_phone ? null : profile.phone) || 'Hidden'`. */
  function Phone(hidePhone: Option<bool>, phone: Option<string>): string {
    if hidePhone == Some(true) then "Hidden"
    else if Truthy(phone) then phone.value
    else "Hidden"
  }

  /** The call button: shown when the phone is not 'Hidden'. */
  predicate ShowCall(hidePhone: Option<bool>, phone: Option<string>) {
    Phone(hidePhone, phone) != "Hidden"
  }

  /** The call button appears iff the phone is not hidden and is present;
      a stored phone that reads literally 'Hidden' also hides it. When it
      appears it dials the stored number. */
  lemma CallRule(hidePhone: Option<bool>, phone: Option<string>)
    ensures ShowCall(hidePhone, phone) <==>
              hidePhone != Some(true) && Truthy(phone) && phone.value != "Hidden"
    ensures ShowCall(hidePhone, phone) ==> Phone(hidePhone, phone) == phone.value
    ensures hidePhone == Some(true) ==> !ShowCall(hidePhone, phone)
  {
  }

  datatype Stats = Stats(jobsPosted: int, jobsDone: int, rating: int, reviews: int)

  /** The stats block: a present value shows as itself (`v || 0` is `v` for
      every number, 0 included) and a missing one as 0. */
  function StatsOf(tasksPosted: Option<int>, completed: Option<int>, average: Option<int>, reviewsCount: Option<int>)
    : (s: Stats)
    ensures tasksPosted.None? ==> s.jobsPosted == 0
    ensures completed.None? ==> s.jobsDone == 0
    ensures average.None? ==> s.rating == 0
    ensures reviewsCount.None? ==> s.reviews == 0
    ensures tasksPosted.Some? ==> s.jobsPosted == tasksPosted.value
    ensures completed.Some? ==> s.jobsDone == completed.value
    ensures average.Some? ==> s.rating == average.value
    ensures reviewsCount.Some? ==> s.reviews == reviewsCount.value
  {
    Stats(OrZero(tasksPosted), OrZero(completed), OrZero(average), OrZero(reviewsCount))
  }

  /** The badge on the avatar. */
  datatype Badge = New | Score(value: int)

  function BadgeOf(rating: int): (b: Badge)
    ensures b == New <==> rating <= 0
    ensures b.Score? ==> b.value == rating
  {
    if rating > 0 then Score(rating) else New
  }

  /** The five stars of a review: star `i` (from 0) is filled iff
      `i < rating`. */
  function Stars(rating: int): (s: seq<bool>)
    ensures |s| == 5 && forall i :: 0 <= i < 5 ==> (s[i] <==> i < rating)
  {
    StarRow(5, rating)
  }

  function StarRow(n: nat, rating: int): (s: seq<bool>)
    ensures |s| == n && forall i :: 0 <= i < n ==> (s[i] <==> i < rating)
  {
    seq(n, i requires 0 <= i < n => i < rating)
  }

  /** The number of filled stars. */
  function Filled(s: seq<bool>): nat
    decreases |s|
  {
    if s == [] then 0 else Filled(s[..|s| - 1]) + (if s[|s| - 1] then 1 else 0)
  }

  function Clamp(r: int, n: nat): nat {
    if r < 0 then 0 else if r > n then n else r
  }

  lemma {:induction false} StarRowFilled(n: nat, rating: int)
    ensures Filled(StarRow(n, rating)) == Clamp(rating, n)
    decreases n
  {
    if n > 0 {
      StarRowFilled(n - 1, rating);
      assert StarRow(n, rating)[..n - 1] == StarRow(n - 1, rating);
    }
  }

  /** A review of r stars shows r filled stars when 0 <= r <= 5, none below
      and all five above; the filled ones come first. */
  lemma StarsFilled(rating: int)
    ensures Filled(Stars(rating)) == Clamp(rating, 5)
    ensures forall i, j :: 0 <= i < j < 5 && Stars(rating)[j] ==> Stars(rating)[i]
  {
    StarRowFilled(5, rating);
  }

  /** Where the Message button leads. */
  datatype MessageOutcome = GoToAuth | CannotMessageSelf | OpenChat(path: string) | ChatFailed

  /** The Message button for the worker `id`; `resolved` is the answer of
      `getOrCreateConversation(user.id, id)`, asked only when it is reached. */
  function OnMessage(user: Option<string>, id: string, resolved: Result<string>): (r: MessageOutcome)
    ensures user.None? <==> r == GoToAuth
    ensures r == CannotMessageSelf <==> user.Some? && user.value == id
    ensures r.OpenChat? <==> user.Some? && user.value != id && resolved.Ok?
    ensures r.OpenChat? ==> r.path == "/messages/" + resolved.value
    ensures r == ChatFailed <==> user.Some? && user.value != id && resolved.Err?
  {
    if user.None? then GoToAuth
    else if user.value == id then CannotMessageSelf
    else if resolved.Ok? then OpenChat("/messages/" + resolved.value)
    else ChatFailed
  }
}
