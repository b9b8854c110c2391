/** The notifications page (src/pages/Notifications.jsx): the cached list of
    the user's notifications, marked read when it loads, with delete,
    clear-all and click-through. */
module Notifications {
  import opened Wrappers
  import opened Strings
  import Seqs

  /** A row of `notifications`; `url` is `data?.url`, `None` when the data
      or the url is absent. */
  datatype Notification = Notification(id: string, title: string, is_read: bool, url: Option<string>)

  function NotId(id: string): Notification -> bool {
    (n: Notification) => n.id != id
  }

  /** The cache after a successful delete: `old.filter(n => n.id !== id)`. */
  function WithoutId(s: seq<Notification>, id: string): seq<Notification> {
    Seqs.Filter(s, NotId(id))
  }

  /** Exactly the entries with that id leave the list, the others stay in
      their order, and deleting an id that is not listed changes nothing. */
  lemma WithoutIdSpec(s: seq<Notification>, id: string)
    ensures forall n :: n in WithoutId(s, id) <==> n in s && n.id != id
    ensures Seqs.IsSubseq(WithoutId(s, id), s)
    ensures (forall k :: 0 <= k < |s| ==> s[k].id != id) ==> WithoutId(s, id) == s
  {
    Seqs.FilterIsSubseq(s, NotId(id));
    if forall k :: 0 <= k < |s| ==> s[k].id != id {
      Seqs.FilterAll(s, NotId(id));
    }
  }

  /** `notifications.some(n => !n.is_read)`: the bulk mark-read is sent. */
  predicate HasUnread(s: seq<Notification>) {
    exists k :: 0 <= k < |s| && !s[k].is_read
  }

  /** Every row after `update({ is_read: true })` on the unread ones. */
  function MarkedRead(s: seq<Notification>): (r: seq<Notification>)
    ensures |r| == |s| && forall k :: 0 <= k < |s| ==> r[k] == s[k].(is_read := true)
  {
    seq(|s|, k requires 0 <= k < |s| => s[k].(is_read := true))
  }

  /** After the update nothing is unread, so the effect is not sent again,
      and a list with nothing unread is left as it is. */
  lemma MarkedReadSpec(s: seq<Notification>)
    ensures !HasUnread(MarkedRead(s))
    ensures !HasUnread(s) ==> MarkedRead(s) == s
  {
    if !HasUnread(s) {
      assert forall k :: 0 <= k < |s| ==> s[k].(is_read := true) == s[k];
    }
  }

  /** `handleNotificationClick`: the place navigated to, only for a
      present, non-empty `data.url`. */
  function ClickTarget(n: Notification): (r: Option<string>)
    ensures r.Some? <==> n.url.Some? && n.url.value != ""
    ensures r.Some? ==> r == n.url
  {
    if n.url.Some? && n.url.value != "" then n.url else None
  }

  /** The three colours of the bell. */
  datatype Icon = ReviewIcon | OfferIcon | DefaultIcon

  /** The bell's colour from the title; 'Review' is checked first. */
  function IconOf(title: string): Icon {
    if Includes(title, "Review") then ReviewIcon
    else if Includes(title, "Offer") then OfferIcon
    else DefaultIcon
  }

  /** A title mentioning a review gets the review colour even when it also
      mentions an offer; the offer colour needs 'Offer' and no 'Review'. */
  lemma IconRule(a: string, b: string)
    ensures IconOf(a + "Review" + b) == ReviewIcon
    ensures IconOf("Review your Offer") == ReviewIcon
    ensures IconOf(a) == OfferIcon <==> !Includes(a, "Review") && Includes(a, "Offer")
  {
    IncludesAt(a + "Review" + b, "Review", |a|);
    IncludesAt("Review your Offer", "Review", 0);
  }

  /** The page's cache and the user's stored rows. */
  class Page {
    var notifications: seq<Notification>
    var stored: seq<Notification>

    /** The list as the query loads it. */
    constructor (rows: seq<Notification>)
      ensures notifications == rows && stored == rows
    {
      notifications := rows;
      stored := rows;
    }

    /** The mark-read effect: when something in the list is unread the update
        is sent (`error` when it fails), and whatever it answers the list is
        fetched again. */
    method MarkAllRead(error: bool) returns (sent: bool)
      modifies this
      ensures sent <==> HasUnread(old(notifications))
      ensures sent ==> stored == (if error then old(stored) else MarkedRead(old(stored))) && notifications == stored
      ensures !sent ==> stored == old(stored) && notifications == old(notifications)
    {
      sent := exists k :: 0 <= k < |notifications| && !notifications[k].is_read;
      if sent {
        if !error {
          stored := MarkedRead(stored);
        }
        notifications := stored;
      }
    }

    /** `handleDelete(id)`: the row is deleted, and only without an error is
        the entry dropped from the cached list. */
    method HandleDelete(id: string, error: bool)
      modifies this
      ensures error ==> notifications == old(notifications) && stored == old(stored)
      ensures !error ==> notifications == WithoutId(old(notifications), id) && stored == WithoutId(old(stored), id)
    {
      if !error {
        stored := WithoutId(stored, id);
        notifications := WithoutId(notifications, id);
      }
    }

    /** `handleClearAll()`: nothing without the confirmation; otherwise every
        row of the user is deleted and, without an error, the list is empty. */
    method HandleClearAll(confirmed: bool, error: bool)
      modifies this
      ensures !confirmed || error ==> notifications == old(notifications) && stored == old(stored)
      ensures confirmed && !error ==> notifications == [] && stored == []
    {
      if !confirmed {
        return;
      }
      if !error {
        stored := [];
        notifications := [];
      }
    }
  }
}
