/** The application watch list: `_appData`, a map from each watched
    application to its `windows-changed` subscription, reconciled with the
    configured ids by `_updateAppData`. */
module AppWatch {
  import opened Sequences

  /** A `Shell.App` handle: its identity and the id `get_id()` reports. */
  datatype App = App(handle: nat, id: string)

  /** The value `_appData` keeps per app: the signal handler id `connect` returned. */
  datatype AppData = AppData(windowsChangedId: nat)

  /** `Shell.AppState`. */
  datatype AppState = Stopped | Starting | Running

  /** Entries `_updateAppData` keeps: those whose app id is still configured.
      Whether the app still resolves plays no part. */
  function Kept(watched: set<App>, ids: seq<string>): set<App> {
    set a | a in watched && a.id in ids
  }

  /** The apps `lookup_app` resolves for the configured ids. */
  function Resolved(ids: seq<string>, registry: map<string, App>): set<App> {
    set id | id in ids && id in registry :: registry[id]
  }

  /** `ids.map(lookup_app).filter(app => app && !this._appData.has(app))`,
      computed once against the entries present after the removals. */
  function AddedApps(ids: seq<string>, registry: map<string, App>, present: set<App>): (added: seq<App>)
    ensures forall k :: 0 <= k < |added| ==> added[k] !in present
    ensures forall a :: a in added <==> a in Resolved(ids, registry) && a !in present
    decreases |ids|
  {
    if |ids| == 0 then []
    else
      var init, id := ids[..|ids| - 1], ids[|ids| - 1];
      assert ids == init + [id];
      var rest := AddedApps(init, registry, present);
      if id in registry && registry[id] !in present then rest + [registry[id]] else rest
  }

  /** The entries of `data` whose app id is still configured, with their data. */
  function KeptData(data: map<App, AppData>, ids: seq<string>): (kept: map<App, AppData>)
    ensures kept.Keys == Kept(data.Keys, ids)
    ensures forall a :: a in kept ==> kept[a] == data[a]
  {
    map a | a in data && a.id in ids :: data[a]
  }

  /** `addedApps.forEach(app => this._appData.set(app, {windowsChangedId: connect(...)}))`,
      where `connect` hands out the handler ids `next`, `next + 1`, ... */
  function Subscribe(data: map<App, AppData>, added: seq<App>, next: nat): map<App, AppData>
    decreases |added|
  {
    if |added| == 0 then data
    else Subscribe(data[added[0] := AppData(next)], added[1..], next + 1)
  }

  /** `_appData` after `_updateAppData` on configured ids `ids` and app
      registry `registry`, with handler ids handed out from `next`. */
  function Reconciled(data: map<App, AppData>, ids: seq<string>, registry: map<string, App>, next: nat): (r: map<App, AppData>)
    ensures r.Keys == Kept(data.Keys, ids) + Resolved(ids, registry)
  {
    var kept := KeptData(data, ids);
    var added := AddedApps(ids, registry, kept.Keys);
    SubscribeSpec(kept, added, next);
    Subscribe(kept, added, next)
  }

  /** The handler ids of the subscriptions `data` records. */
  function Handlers(data: map<App, AppData>): set<nat> {
    set a | a in data :: data[a].windowsChangedId
  }

  /** The handler ids `connect` hands out for `count` subscriptions from `next`. */
  function HandlerRange(next: nat, count: nat): (r: set<nat>)
    ensures forall h :: h in r <==> next <= h < next + count
    decreases count
  {
    if count == 0 then {} else HandlerRange(next, count - 1) + {next + count - 1}
  }

  /** The handlers `_updateAppData` disconnects: those of the entries whose
      app id left the configuration. */
  function Disconnected(data: map<App, AppData>, ids: seq<string>): set<nat> {
    Handlers(data - Kept(data.Keys, ids))
  }

  /** The `windows-changed` handlers still connected after `_updateAppData`:
      the removed entries' handlers are disconnected, and one handler is
      connected per element of the added list, duplicates included. */
  function ReconciledConnections(connected: set<nat>, data: map<App, AppData>, ids: seq<string>,
                                 registry: map<string, App>, next: nat): set<nat> {
    var kept := KeptData(data, ids);
    connected - Disconnected(data, ids) + HandlerRange(next, |AddedApps(ids, registry, kept.Keys)|)
  }

  /** `_updateAppData` connects only handlers not handed out before, and
      every handler of a removed entry ends up disconnected. */
  lemma ReconciledConnectionsFresh(connected: set<nat>, data: map<App, AppData>, ids: seq<string>,
                                   registry: map<string, App>, next: nat)
    ensures var r := ReconciledConnections(connected, data, ids, registry, next);
      && (forall h :: h in r && h !in connected ==> next <= h)
      && (forall a :: a in data && a.id !in ids && data[a].windowsChangedId < next ==>
            data[a].windowsChangedId !in r)
  {
    assert forall a :: a in data && a.id !in ids ==>
      a in data - Kept(data.Keys, ids) && data[a].windowsChangedId in Disconnected(data, ids);
  }

  /** `lookup_app(id)` returns an app whose `get_id()` is `id`. */
  predicate Consistent(registry: map<string, App>) {
    forall id :: id in registry ==> registry[id].id == id
  }

  /** No two subscriptions share a handler id. */
  predicate DistinctHandlers(data: map<App, AppData>) {
    forall a, b :: a in data && b in data && a != b ==> data[a].windowsChangedId != data[b].windowsChangedId
  }

  /** With no configured id twice, every app is added at most once. */
  lemma {:induction false} AddedAppsDistinct(ids: seq<string>, registry: map<string, App>, present: set<App>)
    requires Consistent(registry) && Distinct(ids)
    ensures Distinct(AddedApps(ids, registry, present))
    ensures forall a :: a in AddedApps(ids, registry, present) ==> a.id in ids
    decreases |ids|
  {
    if |ids| > 0 {
      var init, id := ids[..|ids| - 1], ids[|ids| - 1];
      DistinctSlice(ids, 0, |ids| - 1);
      assert ids[0..|ids| - 1] == init;
      AddedAppsDistinct(init, registry, present);
      assert id !in init by {
        forall k | 0 <= k < |init| ensures init[k] != id {
          assert init[k] == ids[k];
        }
      }
      assert forall x :: x in init ==> x in ids by {
        forall x | x in init ensures x in ids {
          var k :| 0 <= k < |init| && init[k] == x;
          assert ids[k] == x;
        }
      }
    }
  }

  /** Recording one new subscription adds its handler id. */
  lemma HandlersAdd(data: map<App, AppData>, a: App, d: AppData)
    requires a !in data
    ensures Handlers(data[a := d]) == Handlers(data) + {d.windowsChangedId}
  {
    assert d.windowsChangedId in Handlers(data[a := d]) by {
      assert data[a := d][a] == d;
    }
    forall h | h in Handlers(data) ensures h in Handlers(data[a := d]) {
      var b :| b in data && data[b].windowsChangedId == h;
      assert data[a := d][b] == data[b];
    }
    forall h | h in Handlers(data[a := d]) ensures h in Handlers(data) + {d.windowsChangedId} {
      var b :| b in data[a := d] && data[a := d][b].windowsChangedId == h;
      if b != a {
        assert data[b].windowsChangedId == h;
      }
    }
  }

  /** Subscribing distinct new apps connects exactly the handlers
      `next .. next + |added| - 1`. */
  lemma {:induction false} SubscribeHandlers(data: map<App, AppData>, added: seq<App>, next: nat)
    requires Distinct(added)
    requires forall k :: 0 <= k < |added| ==> added[k] !in data
    ensures Handlers(Subscribe(data, added, next)) == Handlers(data) + HandlerRange(next, |added|)
    decreases |added|
  {
    if |added| == 0 {
      assert HandlerRange(next, 0) == {};
    } else {
      var data' := data[added[0] := AppData(next)];
      HandlersAdd(data, added[0], AppData(next));
      DistinctSlice(added, 1, |added|);
      assert added[1..|added|] == added[1..];
      forall k | 0 <= k < |added[1..]| ensures added[1..][k] !in data' {
        assert added[1..][k] == added[k + 1] && added[0] != added[k + 1];
      }
      SubscribeHandlers(data', added[1..], next + 1);
      assert HandlerRange(next + 1, |added| - 1) + {next} == HandlerRange(next, |added|);
    }
  }

  /** When no id is configured twice and the connected handlers are exactly
      those of the watched apps, `_updateAppData` keeps it that way: every
      handler it leaves connected belongs to a watched app and the reverse. */
  lemma ConnectionsMatchWatch(connected: set<nat>, data: map<App, AppData>, ids: seq<string>,
                              registry: map<string, App>, next: nat)
    requires connected == Handlers(data) && DistinctHandlers(data)
    requires forall a :: a in data ==> data[a].windowsChangedId < next
    requires Consistent(registry) && Distinct(ids)
    ensures ReconciledConnections(connected, data, ids, registry, next) == Handlers(Reconciled(data, ids, registry, next))
  {
    var kept := KeptData(data, ids);
    var added := AddedApps(ids, registry, kept.Keys);
    AddedAppsDistinct(ids, registry, kept.Keys);
    SubscribeHandlers(kept, added, next);
    assert Handlers(kept) == connected - Disconnected(data, ids) by {
      forall h | h in connected - Disconnected(data, ids) ensures h in Handlers(kept) {
        var a :| a in data && data[a].windowsChangedId == h;
        var gone := data - Kept(data.Keys, ids);
        assert forall b :: b in gone ==> gone[b].windowsChangedId in Handlers(gone);
        assert h !in Handlers(gone);
        assert a !in gone;
        assert a in Kept(data.Keys, ids);
      }
      forall h | h in Handlers(kept) ensures h in connected - Disconnected(data, ids) {
        var a :| a in kept && kept[a].windowsChangedId == h;
      }
    }
  }

  /** A configured id listed twice is subscribed twice: both handlers are
      connected but `_appData` keeps only the second, and once the
      configuration is emptied (as `destroy` does) the first is still
      connected, never to be disconnected. */
  lemma DuplicateConfigLeaksHandler(app: App, next: nat)
    requires app.id == "x"
    ensures var registry := map["x" := app];
      var watched := Reconciled(map[], ["x", "x"], registry, next);
      var connected := ReconciledConnections({}, map[], ["x", "x"], registry, next);
      && watched == map[app := AppData(next + 1)]
      && connected == {next, next + 1}
      && ReconciledConnections(connected, watched, [], registry, next + 2) == {next}
  {
    var registry := map["x" := app];
    var empty: map<App, AppData> := map[];
    assert KeptData(empty, ["x", "x"]) == empty;
    assert AddedApps(["x", "x"], registry, {}) == [app, app] by {
      assert ["x", "x"][..1] == ["x"];
      assert ["x"][..0] == [];
    }
    assert Subscribe(empty, [app, app], next) == Subscribe(map[app := AppData(next)], [app], next + 1);
    assert Subscribe(map[app := AppData(next)], [app], next + 1) == Subscribe(map[app := AppData(next + 1)], [], next + 2);
    assert HandlerRange(next, 2) == {next, next + 1};
    var watched := map[app := AppData(next + 1)];
    assert Kept(watched.Keys, []) == {};
    assert Disconnected(watched, []) == {next + 1} by {
      assert watched - {} == watched;
      assert watched[app].windowsChangedId == next + 1;
    }
    assert KeptData(watched, []).Keys == {};
    assert AddedApps([], registry, {}) == [];
    assert HandlerRange(next + 2, 0) == {};
  }

  /** Subscribing adds exactly the given apps, leaves the other entries alone,
      and gives each new one an id in `[next, next + |added|)`. */
  lemma {:induction false} SubscribeSpec(data: map<App, AppData>, added: seq<App>, next: nat)
    ensures Subscribe(data, added, next).Keys == data.Keys + set a | a in added
    ensures forall a :: a in data && a !in added ==> Subscribe(data, added, next)[a] == data[a]
    ensures forall a :: a in added ==>
      next <= Subscribe(data, added, next)[a].windowsChangedId < next + |added|
    decreases |added|
  {
    if |added| > 0 {
      var data' := data[added[0] := AppData(next)];
      SubscribeSpec(data', added[1..], next + 1);
      assert (set a | a in added) == {added[0]} + set a | a in added[1..];
      forall a | a in added
        ensures next <= Subscribe(data, added, next)[a].windowsChangedId < next + |added|
      {
        if a !in added[1..] {
          assert a == added[0];
        }
      }
    }
  }

  /** The property the source's `_updateAppData` exists for: afterwards the
      watched apps are exactly the old ones whose id is still configured
      (resolvable or not) plus every app the configured ids resolve to;
      retained entries keep their subscription, and every new one has a
      handler id not handed out before. */
  lemma ReconciledSpec(data: map<App, AppData>, ids: seq<string>, registry: map<string, App>, next: nat)
    ensures var r := Reconciled(data, ids, registry, next);
      && r.Keys == Kept(data.Keys, ids) + Resolved(ids, registry)
      && (forall a :: a in Kept(data.Keys, ids) ==> r[a] == data[a])
      && (forall a :: a in r && a !in Kept(data.Keys, ids) ==> next <= r[a].windowsChangedId)
  {
    var kept := KeptData(data, ids);
    var added := AddedApps(ids, registry, kept.Keys);
    SubscribeSpec(kept, added, next);
  }

  /** An empty configuration, as `destroy` sets it, empties the watch list. */
  lemma ReconciledEmpty(data: map<App, AppData>, registry: map<string, App>, next: nat)
    ensures Reconciled(data, [], registry, next) == map[]
    ensures forall connected :: ReconciledConnections(connected, data, [], registry, next) == connected - Handlers(data)
  {
    assert data - Kept(data.Keys, []) == data;
    assert HandlerRange(next, 0) == {};
    var kept := KeptData(data, []);
    assert kept == map[];
    assert AddedApps([], registry, kept.Keys) == [];
  }

  /** Reconfiguring from `{A, B}` to `{B, C}` drops A, adds C and leaves B's
      subscription untouched. */
  lemma ReconfigureExample(a: App, b: App, c: App, next: nat)
    requires a.id == "a" && b.id == "b" && c.id == "c"
    ensures var registry := map["a" := a, "b" := b, "c" := c];
      var r := Reconciled(map[a := AppData(7), b := AppData(8)], ["b", "c"], registry, next);
      r == map[b := AppData(8), c := AppData(next)]
  {
    var registry := map["a" := a, "b" := b, "c" := c];
    var data := map[a := AppData(7), b := AppData(8)];
    var kept := KeptData(data, ["b", "c"]);
    assert kept == map[b := AppData(8)];
    assert AddedApps(["b", "c"], registry, kept.Keys) == [c] by {
      assert ["b", "c"][..1] == ["b"];
      assert ["b"][..0] == [];
    }
    assert Subscribe(kept, [c], next) == Subscribe(kept[c := AppData(next)], [], next + 1);
  }

  /** The signal side of `_appData`: the subscription recorded per watched
      app, the next handler id `connect` hands out, and the `windows-changed`
      handlers connected and not yet disconnected. */
  class Subscriptions {
    var appData: map<App, AppData>
    var nextHandler: nat
    var connected: set<nat>

    /** Every subscription's handler id is below the next one handed out. */
    ghost predicate Valid()
      reads this
    {
      forall a :: a in appData ==> appData[a].windowsChangedId < nextHandler
    }

    /** `this._appData = new Map()`, before any handler is connected. */
    constructor ()
      ensures Valid()
      ensures appData == map[] && connected == {} && nextHandler == 1
    {
      appData, nextHandler, connected := map[], 1, {};
    }

    /** The first half of `_updateAppData`: disconnect and forget every entry
        whose app id is not among `ids`. */
    method DisconnectRemoved(ids: seq<string>)
      requires Valid()
      modifies this`appData, this`connected
      ensures Valid()
      ensures appData == KeptData(old(appData), ids)
      ensures connected == old(connected) - Disconnected(old(appData), ids)
    {
      var removedApps := set a | a in appData && a.id !in ids;
      ghost var gone: map<App, AppData> := map[];
      while removedApps != {}
        invariant removedApps <= appData.Keys
        invariant appData.Keys == Kept(old(appData).Keys, ids) + removedApps
        invariant forall a :: a in appData ==> a in old(appData) && appData[a] == old(appData)[a]
        invariant gone == old(appData) - appData.Keys
        invariant connected == old(connected) - Handlers(gone)
        decreases removedApps
      {
        var app :| app in removedApps;
        connected := connected - {appData[app].windowsChangedId};
        HandlersAdd(gone, app, appData[app]);
        gone := gone[app := appData[app]];
        appData := appData - {app};
        removedApps := removedApps - {app};
      }
    }

    /** The second half of `_updateAppData`: connect `windows-changed` for
        each added app, in order, and record the handler id. */
    method ConnectAdded(addedApps: seq<App>)
      requires Valid()
      modifies this
      ensures Valid()
      ensures appData == Subscribe(old(appData), addedApps, old(nextHandler))
      ensures connected == old(connected) + HandlerRange(old(nextHandler), |addedApps|)
      ensures nextHandler == old(nextHandler) + |addedApps|
    {
      for k := 0 to |addedApps|
        invariant Subscribe(appData, addedApps[k..], nextHandler) == Subscribe(old(appData), addedApps, old(nextHandler))
        invariant nextHandler == old(nextHandler) + k
        invariant Valid()
        invariant connected == old(connected) + HandlerRange(old(nextHandler), k)
      {
        var data := AppData(nextHandler);
        assert addedApps[k..][1..] == addedApps[k + 1..];
        connected := connected + {nextHandler};
        nextHandler := nextHandler + 1;
        appData := appData[addedApps[k] := data];
      }
      assert addedApps[|addedApps|..] == [];
    }
  }
}
