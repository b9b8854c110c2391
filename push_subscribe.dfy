/** The browser side of web push (src/hooks/usePushNotifications.js): turning
    the base64url VAPID public key into the bytes `pushManager.subscribe`
    wants, and the subscribe flow that asks for permission, subscribes and
    saves the subscription. */
module PushSubscribe {
  import opened Wrappers
  import opened Base64

  /** `(4 - n % 4) % 4`: the fewest `=` that bring a length `n` to a multiple
      of four (below four, only one count does). */
  function PaddingCount(n: nat): (p: nat)
    ensures p <= 3
    ensures (n + p) % 4 == 0
  {
    (4 - n % 4) % 4
  }

  /** `c.repeat(n)`. */
  function Repeat(c: char, n: nat): (s: string)
    ensures |s| == n && forall k :: 0 <= k < n ==> s[k] == c
  {
    seq(n, k requires 0 <= k < n => c)
  }

  /** The character that `.replace(/\-/g, '+').replace(/_/g, '/')` puts in
      place of `c`. */
  function UrlCharToStd(c: char): char {
    if c == '-' then '+' else if c == '_' then '/' else c
  }

  /** Both replacements applied to a whole string. */
  function UrlToStd(s: string): (r: string)
    ensures |r| == |s|
    ensures forall k :: 0 <= k < |s| ==> r[k] == UrlCharToStd(s[k])
  {
    seq(|s|, k requires 0 <= k < |s| => UrlCharToStd(s[k]))
  }

  /** The alphabet of RFC 4648 section 5 (base64url): section 4's with `-`
      for `+` and `_` for `/`. */
  predicate IsUrlAlphabetChar(c: char) {
    ('A' <= c <= 'Z') || ('a' <= c <= 'z') || ('0' <= c <= '9') || c == '-' || c == '_'
  }

  function StdCharToUrl(c: char): char {
    if c == '+' then '-' else if c == '/' then '_' else c
  }

  /** A base64 text written in the URL-safe alphabet. */
  function StdToUrl(s: string): (r: string)
    ensures |r| == |s|
    ensures forall k :: 0 <= k < |s| ==> r[k] == StdCharToUrl(s[k])
  {
    seq(|s|, k requires 0 <= k < |s| => StdCharToUrl(s[k]))
  }

  /** The replacements map the base64url alphabet onto the base64 alphabet,
      leave no `-` or `_`, and undo `StdToUrl`. */
  lemma UrlToStdAlphabet(s: string)
    ensures forall k :: 0 <= k < |s| && IsUrlAlphabetChar(s[k]) ==> IsAlphabetChar(UrlToStd(s)[k])
    ensures forall k :: 0 <= k < |s| ==> UrlToStd(s)[k] != '-' && UrlToStd(s)[k] != '_'
    ensures (forall k :: 0 <= k < |s| ==> IsAlphabetChar(s[k])) ==> UrlToStd(StdToUrl(s)) == s
  {
  }

  /** What `window.atob` returns for the padded, re-alphabeted key, or `None`
      where it throws. */
  function UrlBase64Decode(s: string): Option<string> {
    Atob(UrlToStd(s + Repeat('=', PaddingCount(|s|))))
  }

  /** The unpadded base64url text of `b`, the form a VAPID public key is
      published in. */
  function UrlBase64Encode(b: seq<byte>): string {
    StdToUrl(EncodeCore(b))
  }

  /** A key written in unpadded base64url decodes to its own bytes. */
  lemma UrlBase64RoundTrip(b: seq<byte>)
    ensures UrlBase64Decode(UrlBase64Encode(b)) == Some(Latin1(b))
  {
    var core := EncodeCore(b);
    var s := UrlBase64Encode(b);
    var pad := Repeat('=', PaddingCount(|s|));
    assert pad == Padding(|b|);
    UrlToStdAlphabet(core);
    assert UrlToStd(s + pad) == UrlToStd(s) + pad;
    assert UrlToStd(s + pad) == Btoa(b);
    AtobBtoa(b);
  }

  /** `urlBase64ToUint8Array(s)`: the bytes of the key, or `None` where
      `atob` throws. Byte `i` of the array is the code of character `i` of the
      decoded text. */
  method UrlBase64ToUint8Array(s: string) returns (r: Option<array<byte>>)
    ensures r.None? <==> UrlBase64Decode(s).None?
    ensures r.Some? ==> fresh(r.value) && r.value.Length == |UrlBase64Decode(s).value|
    ensures r.Some? ==> forall i :: 0 <= i < r.value.Length ==> r.value[i] == UrlBase64Decode(s).value[i] as int
  {
    var padding := Repeat('=', PaddingCount(|s|));
    var base64 := UrlToStd(s + padding);
    var rawData := Atob(base64);
    if rawData.None? {
      return None;
    }
    var raw := rawData.value;
    var outputArray := new byte[|raw|];
    for i := 0 to |raw|
      invariant forall k :: 0 <= k < i ==> outputArray[k] == raw[k] as int
    {
      outputArray[i] := raw[i] as int;
    }
    return Some(outputArray);
  }

  /** What `pushManager.subscribe` resolves to: the endpoint and the raw
      bytes of the two keys. */
  datatype BrowserSubscription = BrowserSubscription(endpoint: string, p256dh: seq<byte>, auth: seq<byte>)

  /** A row of the `push_subscriptions` table. */
  datatype SubscriptionRow = SubscriptionRow(
    id: int, user_id: string, endpoint: string, p256dh: string, auth: string, user_agent: string)

  predicate SameKey(a: SubscriptionRow, b: SubscriptionRow) {
    a.user_id == b.user_id && a.endpoint == b.endpoint
  }

  /** No two rows share a (`user_id`, `endpoint`) pair, the conflict target of
      the upsert. */
  predicate KeysUnique(rows: seq<SubscriptionRow>) {
    forall i, j :: 0 <= i < j < |rows| ==> !SameKey(rows[i], rows[j])
  }

  /** `upsert(row, { onConflict: 'user_id, endpoint' })`: the row with the same
      pair has its other columns overwritten and keeps its id; without one
      the row is added. */
  function Upsert(rows: seq<SubscriptionRow>, row: SubscriptionRow): (r: seq<SubscriptionRow>)
    ensures |r| == |rows| || |r| == |rows| + 1
    decreases |rows|
  {
    if rows == [] then [row]
    else if SameKey(rows[0], row) then [row.(id := rows[0].id)] + rows[1..]
    else [rows[0]] + Upsert(rows[1..], row)
  }

  /** The upsert keeps the pairs unique, leaves the saved pair in exactly one
      row carrying the new keys, and keeps every row for another pair. */
  lemma UpsertProperties(rows: seq<SubscriptionRow>, row: SubscriptionRow)
    requires KeysUnique(rows)
    ensures KeysUnique(Upsert(rows, row))
    ensures exists k :: 0 <= k < |Upsert(rows, row)| && Upsert(rows, row)[k] == row.(id := Upsert(rows, row)[k].id)
    ensures forall x :: x in rows && !SameKey(x, row) ==> x in Upsert(rows, row)
    ensures forall x :: x in Upsert(rows, row) && !SameKey(x, row) ==> x in rows
  {
    UpsertMembers(rows, row);
    UpsertSaves(rows, row);
    UpsertKeysUnique(rows, row);
  }

  /** Rows for other pairs are neither lost nor invented. */
  lemma {:induction false} UpsertMembers(rows: seq<SubscriptionRow>, row: SubscriptionRow)
    ensures forall x :: x in rows && !SameKey(x, row) ==> x in Upsert(rows, row)
    ensures forall x :: x in Upsert(rows, row) && !SameKey(x, row) ==> x in rows
    decreases |rows|
  {
    if rows != [] {
      assert rows == [rows[0]] + rows[1..];
      if !SameKey(rows[0], row) {
        UpsertMembers(rows[1..], row);
      }
    }
  }

  /** The saved pair is present with the new columns. */
  lemma {:induction false} UpsertSaves(rows: seq<SubscriptionRow>, row: SubscriptionRow)
    ensures exists k :: 0 <= k < |Upsert(rows, row)| && Upsert(rows, row)[k] == row.(id := Upsert(rows, row)[k].id)
    decreases |rows|
  {
    var r := Upsert(rows, row);
    if rows == [] || SameKey(rows[0], row) {
      assert r[0] == row.(id := r[0].id);
    } else {
      UpsertSaves(rows[1..], row);
      var tail := Upsert(rows[1..], row);
      var k :| 0 <= k < |tail| && tail[k] == row.(id := tail[k].id);
      assert r[k + 1] == tail[k];
    }
  }

  /** Unique pairs stay unique. */
  lemma {:induction false} UpsertKeysUnique(rows: seq<SubscriptionRow>, row: SubscriptionRow)
    requires KeysUnique(rows)
    ensures KeysUnique(Upsert(rows, row))
    decreases |rows|
  {
    var r := Upsert(rows, row);
    if rows == [] {
    } else if SameKey(rows[0], row) {
      forall i, j | 0 <= i < j < |r| ensures !SameKey(r[i], r[j]) {
        assert SameKey(r[i], rows[i]) && SameKey(r[j], rows[j]);
      }
    } else {
      var t := rows[1..];
      assert KeysUnique(t) by {
        forall i, j | 0 <= i < j < |t| ensures !SameKey(t[i], t[j]) {
          assert t[i] == rows[i + 1] && t[j] == rows[j + 1];
        }
      }
      UpsertKeysUnique(t, row);
      UpsertMembers(t, row);
      var tail := Upsert(t, row);
      forall j | 0 <= j < |tail| ensures !SameKey(rows[0], tail[j]) {
        if !SameKey(tail[j], row) {
          var m :| 0 <= m < |t| && t[m] == tail[j];
          assert rows[m + 1] == tail[j];
        }
      }
      forall i, j | 0 <= i < j < |r| ensures !SameKey(r[i], r[j]) {
        assert r[j] == tail[j - 1];
        if i > 0 {
          assert r[i] == tail[i - 1];
        }
      }
    }
  }

  /** The state of `usePushNotifications` along with the table it writes. */
  class PushSubscriber {
    var permission: string
    var loading: bool
    var isSubscribed: bool
    var subscriptions: seq<SubscriptionRow>

    /** `useState('default')`, `useState(false)`, `useState(false)`. */
    constructor (table: seq<SubscriptionRow>)
      ensures permission == "default" && !loading && !isSubscribed
      ensures subscriptions == table
    {
      permission := "default";
      loading := false;
      isSubscribed := false;
      subscriptions := table;
    }

    /** `subscribeToPush()`. `vapidKey` is `VITE_VAPID_PUBLIC_KEY` (`None` when
        unset), `user` the signed-in user's id, `granted` the answer to the
        permission request, `browser` what `pushManager.subscribe` resolves to
        (`None` when it rejects), `upsertFails` whether the upsert reports an
        error and `newId` the id the table gives a new row. */
    method SubscribeToPush(vapidKey: Option<string>, user: Option<string>, granted: string,
                           browser: Option<BrowserSubscription>, userAgent: string,
                           upsertFails: bool, newId: int) returns (ok: bool)
      modifies this
      ensures (vapidKey.None? || vapidKey.value == "") ==>
        !ok && permission == old(permission) && loading == old(loading)
        && isSubscribed == old(isSubscribed) && subscriptions == old(subscriptions)
      ensures vapidKey.Some? && vapidKey.value != "" ==> permission == granted && !loading
      ensures ok <==> vapidKey.Some? && vapidKey.value != "" && granted == "granted"
                      && UrlBase64Decode(vapidKey.value).Some? && browser.Some?
                      && (user.None? || !upsertFails)
      ensures isSubscribed == (old(isSubscribed) || ok)
      ensures subscriptions == (if ok && user.Some? then
                                  Upsert(old(subscriptions), SubscriptionRow(newId, user.value,
                                    browser.value.endpoint, Btoa(browser.value.p256dh),
                                    Btoa(browser.value.auth), userAgent))
                                else old(subscriptions))
      ensures KeysUnique(old(subscriptions)) ==> KeysUnique(subscriptions)
    {
      if vapidKey.None? || vapidKey.value == "" {
        return false;
      }
      loading := true;
      permission := granted;
      if granted != "granted" {
        loading := false;
        return false;
      }
      var applicationServerKey := UrlBase64ToUint8Array(vapidKey.value);
      if applicationServerKey.None? || browser.None? {
        loading := false;
        return false;
      }
      var subscription := browser.value;
      if user.Some? {
        if upsertFails {
          loading := false;
          return false;
        }
        var row := SubscriptionRow(newId, user.value, subscription.endpoint,
          Btoa(subscription.p256dh), Btoa(subscription.auth), userAgent);
        if KeysUnique(subscriptions) {
          UpsertProperties(subscriptions, row);
        }
        subscriptions := Upsert(subscriptions, row);
      }
      isSubscribed := true;
      loading := false;
      return true;
    }
  }
}
