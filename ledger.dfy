/** The inhibitor ledger of the `Caffeine` indicator: three parallel arrays
    (`_apps`, `_cookies`, `_objects`) of confirmed inhibitors, the single
    pending slot (`_last_app`, `_last_cookie`) filled by an Inhibit reply, and
    the aggregate flag `_state`.  The functions here are the transitions the
    class's event methods are proved against. */
module InhibitorLedger {
  import opened Wrappers
  import opened Sequences

  /** Reserved holder names. */
  const UserHolder := "user"
  const FullscreenHolder := "fullscreen"

  datatype Ledger = Ledger(
    apps: seq<string>,
    cookies: seq<nat>,
    objects: seq<string>,
    lastApp: string,
    lastCookie: Option<nat>,
    state: bool)

  /** The ledger's shape: the arrays move in step, `_state` says whether
      anything is held, and a named pending holder always has a cookie. */
  predicate Valid(l: Ledger) {
    && |l.apps| == |l.cookies| == |l.objects|
    && (l.state <==> |l.apps| > 0)
    && (l.lastApp != "" ==> l.lastCookie.Some?)
  }

  /** The ledger as `_init` leaves it. */
  function Empty(): Ledger {
    Ledger([], [], [], "", None, false)
  }

  /** One confirmed inhibitor: holder, cookie and session-manager object path. */
  function Entries(l: Ledger): (es: seq<(string, nat, string)>)
    requires Valid(l)
    ensures |es| == |l.apps|
    ensures forall k :: 0 <= k < |es| ==> es[k] == (l.apps[k], l.cookies[k], l.objects[k])
  {
    seq(|l.apps|, k requires 0 <= k < |l.apps| => (l.apps[k], l.cookies[k], l.objects[k]))
  }

  /** JavaScript's `Array.prototype.indexOf`: the first index of `x`, or -1. */
  function IndexOf<T(==)>(s: seq<T>, x: T): (i: int)
    ensures -1 <= i < |s|
    ensures i == -1 <==> x !in s
    ensures 0 <= i ==> s[i] == x && x !in s[..i]
  {
    if |s| == 0 then -1
    else if s[0] == x then 0
    else
      var j := IndexOf(s[1..], x);
      if j == -1 then -1
      else
        assert s[..j + 1] == [s[0]] + s[1..][..j];
        j + 1
  }

  /** `splice(i, 1)`: the sequence without its element at `i`, the rest in order. */
  function RemoveAt<T>(s: seq<T>, i: nat): (r: seq<T>)
    requires i < |s|
    ensures |r| == |s| - 1
    ensures forall k :: 0 <= k < i ==> r[k] == s[k]
    ensures forall k :: i <= k < |r| ==> r[k] == s[k + 1]
  {
    s[..i] + s[i + 1..]
  }

  /** `splice(i, 1)` takes out exactly one occurrence of `s[i]`. */
  lemma RemoveAtMultiset<T>(s: seq<T>, i: nat)
    requires i < |s|
    ensures multiset(RemoveAt(s, i)) + multiset{s[i]} == multiset(s)
  {
    assert s == s[..i] + [s[i]] + s[i + 1..];
  }

  /** Reading `_cookies[i]`: `undefined` (None) outside the array, -1 included. */
  function CookieAt(cookies: seq<nat>, i: int): (c: Option<nat>)
    ensures c.Some? <==> 0 <= i < |cookies|
    ensures c.Some? ==> c.value == cookies[i]
  {
    if 0 <= i < |cookies| then Some(cookies[i]) else None
  }

  /** The cookie `removeInhibit(appId)` passes to Uninhibit:
      the one stored beside the first entry of `appId`, or `undefined`. */
  function UninhibitTarget(l: Ledger, appId: string): (c: Option<nat>)
    requires Valid(l)
    ensures appId !in l.apps <==> c == None
    ensures appId in l.apps ==> exists k :: 0 <= k < |l.apps| && l.apps[k] == appId && appId !in l.apps[..k] && c == Some(l.cookies[k])
  {
    CookieAt(l.cookies, IndexOf(l.apps, appId))
  }

  /** The cookies `_apps.forEach(appId => this.removeInhibit(appId))` sends, in order. */
  function ReleaseTargets(l: Ledger, holders: seq<string>): (r: seq<Option<nat>>)
    requires Valid(l)
    ensures |r| == |holders|
    ensures forall k :: 0 <= k < |holders| ==> r[k] == UninhibitTarget(l, holders[k])
    decreases |holders|
  {
    if |holders| == 0 then []
    else ReleaseTargets(l, holders[..|holders| - 1]) + [UninhibitTarget(l, holders[|holders| - 1])]
  }

  /** The Inhibit reply callback: the pending slot takes the holder and its
      cookie; the confirmed inhibitors are untouched. */
  function InhibitReplied(l: Ledger, appId: string, cookie: nat): (r: Ledger)
    ensures Valid(l) ==> Valid(r)
    ensures Valid(l) ==> Entries(r) == Entries(l)
    ensures r.apps == l.apps && r.cookies == l.cookies && r.objects == l.objects && r.state == l.state
    ensures r.lastApp == appId && r.lastCookie == Some(cookie)
  {
    l.(lastApp := appId, lastCookie := Some(cookie))
  }

  /** A GetAppId reply is recorded only when it is non-empty and names the pending holder. */
  predicate Matches(l: Ledger, appId: string) {
    appId != "" && appId == l.lastApp
  }

  /** The GetAppId reply callback inside `_inhibitorAdded`, for the signal's
      object path `path`: a matching reply moves the pending slot into a new
      last entry (with the signal's path) and empties the slot. */
  function AppIdReplied(l: Ledger, path: string, appId: string): (r: Ledger)
    requires Valid(l)
    ensures Valid(r)
    ensures !Matches(l, appId) ==> r == l
    ensures Matches(l, appId) ==>
      && Entries(r) == Entries(l) + [(appId, l.lastCookie.value, path)]
      && r.lastApp == "" && r.lastCookie == None && r.state
  {
    if appId != "" && appId == l.lastApp then
      var r := Ledger(l.apps + [l.lastApp], l.cookies + [l.lastCookie.value], l.objects + [path],
                      "", None, if l.state == false then true else l.state);
      assert Entries(r) == Entries(l) + [(appId, l.lastCookie.value, path)];
      r
    else l
  }

  /** `_inhibitorRemoved(path)`: an unknown path changes nothing; a known
      path splices its first index out of all three arrays, and `_state`
      drops to false when nothing is left. */
  function Removed(l: Ledger, path: string): (r: Ledger)
    requires Valid(l)
    ensures Valid(r)
    ensures path !in l.objects ==> r == l
    ensures path in l.objects ==>
      && |r.apps| == |l.apps| - 1
      && r.lastApp == l.lastApp && r.lastCookie == l.lastCookie
  {
    var index := IndexOf(l.objects, path);
    if index != -1 then
      var apps := RemoveAt(l.apps, index);
      Ledger(apps, RemoveAt(l.cookies, index), RemoveAt(l.objects, index),
             l.lastApp, l.lastCookie, if |apps| == 0 then false else l.state)
    else l
  }

  /** Removing a known path takes out exactly the entry at the path's first
      index; every other entry stays, in order. */
  lemma RemovedKnownPath(l: Ledger, path: string)
    requires Valid(l) && path in l.objects
    ensures var i := IndexOf(l.objects, path);
      && 0 <= i < |l.objects| && l.objects[i] == path && path !in l.objects[..i]
      && Entries(Removed(l, path)) == RemoveAt(Entries(l), i)
      && multiset(Entries(Removed(l, path))) + multiset{Entries(l)[i]} == multiset(Entries(l))
  {
    var i := IndexOf(l.objects, path);
    var r := Removed(l, path);
    var es, rs := Entries(l), Entries(r);
    RemoveAtMultiset(es, i);
    assert |rs| == |RemoveAt(es, i)|;
    forall k | 0 <= k < |rs| ensures rs[k] == RemoveAt(es, i)[k] {
      if k < i {
        assert rs[k] == es[k];
      } else {
        assert rs[k] == es[k + 1];
      }
    }
  }

  /** A sequence of GetAppId replies with no Inhibit reply in between records
      at most one entry: the first match empties the pending slot. */
  function RepliesFrom(l: Ledger, replies: seq<(string, string)>): (r: Ledger)
    requires Valid(l)
    ensures Valid(r)
    decreases |replies|
  {
    if |replies| == 0 then l
    else RepliesFrom(AppIdReplied(l, replies[0].0, replies[0].1), replies[1..])
  }

  lemma {:induction false} AtMostOneEntryPerReply(l: Ledger, replies: seq<(string, string)>)
    requires Valid(l)
    ensures |RepliesFrom(l, replies).apps| <= |l.apps| + 1
    ensures l.lastApp == "" ==> RepliesFrom(l, replies) == l
    decreases |replies|
  {
    if |replies| > 0 {
      var next := AppIdReplied(l, replies[0].0, replies[0].1);
      AtMostOneEntryPerReply(next, replies[1..]);
      if Matches(l, replies[0].1) {
        assert next.lastApp == "";
      }
    }
  }

  /** With no holder twice in the ledger, releasing every holder sends each
      entry's own cookie, in ledger order. */
  lemma ReleaseAllDistinct(l: Ledger)
    requires Valid(l)
    requires Distinct(l.apps)
    ensures forall k :: 0 <= k < |l.apps| ==> ReleaseTargets(l, l.apps)[k] == Some(l.cookies[k])
  {
    forall k | 0 <= k < |l.apps| ensures UninhibitTarget(l, l.apps[k]) == Some(l.cookies[k]) {
      assert IndexOf(l.apps, l.apps[k]) == k;
    }
  }

  /** A holder that is not in `_apps` is "released" with the cookie `undefined`. */
  lemma UninhibitUnheld(l: Ledger, appId: string)
    requires Valid(l) && appId !in l.apps
    ensures UninhibitTarget(l, appId) == None
  {
  }

  /** The user toggle's lease, end to end: Inhibit reply, recording, release
      with the same cookie, removal signal; the ledger is empty again. */
  lemma UserLeaseRoundTrip(cookie: nat, path: string)
    ensures var held := AppIdReplied(InhibitReplied(Empty(), UserHolder, cookie), path, UserHolder);
      && Entries(held) == [(UserHolder, cookie, path)] && held.state
      && UninhibitTarget(held, UserHolder) == Some(cookie)
      && Removed(held, path) == Empty()
  {
    var held := AppIdReplied(InhibitReplied(Empty(), UserHolder, cookie), path, UserHolder);
    assert held.apps == [UserHolder];
    assert IndexOf(held.objects, path) == 0;
  }

  /** Two Inhibit requests for the same app, each confirmed, leave that app in
      the ledger twice; releasing every holder then sends the first cookie
      twice and never the second. */
  lemma DuplicateHolderKeepsSecondLease()
    ensures var once := AppIdReplied(InhibitReplied(Empty(), "app", 1), "/inhibitor/1", "app");
      var twice := AppIdReplied(InhibitReplied(once, "app", 2), "/inhibitor/2", "app");
      && twice.apps == ["app", "app"] && twice.cookies == [1, 2]
      && ReleaseTargets(twice, twice.apps) == [Some(1), Some(1)]
  {
    var once := AppIdReplied(InhibitReplied(Empty(), "app", 1), "/inhibitor/1", "app");
    var twice := AppIdReplied(InhibitReplied(once, "app", 2), "/inhibitor/2", "app");
    assert twice.apps == ["app", "app"];
    assert IndexOf(twice.apps, "app") == 0;
  }
}
