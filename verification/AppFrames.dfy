/** What a stretch of requests leaves alone, and what it makes of the app it works on. */
module AppFrames {
  import opened Wrappers
  import opened Rewind
  import opened CloudController
  import opened AppResource

  function Elems(xs: seq<string>): set<string> { set x | x in xs }

  ghost predicate Same(a: Apps, b: Apps, h: Guid) {
    (h in a <==> h in b) && (h in a ==> a[h] == b[h])
  }

  ghost predicate SameBut(a: Apps, b: Apps, g: Guid) {
    forall h: Guid :: h != g ==> Same(a, b, h)
  }

  /** b differs from a at most in app g, which is in both under the same name or in neither. */
  ghost predicate Near(a: Apps, b: Apps, g: Guid) {
    SameBut(a, b, g) && (g in a <==> g in b) && (g in a ==> a[g].name == b[g].name)
  }

  lemma NearTrans(a: Apps, b: Apps, c: Apps, g: Guid)
    requires Near(a, b, g) && Near(b, c, g)
    ensures Near(a, c, g)
  {
    SameButTrans(a, b, c, g);
  }

  /** Every state from w to w' is near w. */
  ghost predicate Kept(w: World, w': World, g: Guid) {
    && w.log <= w'.log && w'.id == w.id && w'.issued == w.issued
    && Near(w.apps, w'.apps, g)
    && forall k :: |w.log| <= k < |w'.log| ==> Near(w.apps, w'.log[k].apps, g)
  }

  lemma SameButTrans(a: Apps, b: Apps, c: Apps, g: Guid)
    requires SameBut(a, b, g) && SameBut(b, c, g)
    ensures SameBut(a, c, g)
  {
    forall h: Guid | h != g
      ensures Same(a, c, h)
    {
      assert Same(a, b, h) && Same(b, c, h);
    }
  }

  lemma KeptTrans(w: World, w1: World, w2: World, g: Guid)
    requires Kept(w, w1, g) && Kept(w1, w2, g)
    ensures Kept(w, w2, g)
  {
    NearTrans(w.apps, w1.apps, w2.apps, g);
    forall k | |w.log| <= k < |w2.log|
      ensures Near(w.apps, w2.log[k].apps, g)
    {
      if k < |w1.log| {
        assert w2.log[k] == w1.log[k];
      } else {
        NearTrans(w.apps, w1.apps, w2.log[k].apps, g);
      }
    }
  }

  // ----- Routes -----

  ghost predicate RoutedWithin(apps: Apps, g: Guid, app: App, lo: set<string>, hi: set<string>) {
    && g in apps
    && apps[g] == app.(routes := apps[g].routes)
    && lo <= Elems(apps[g].routes) <= hi
  }

  /** From w to w' only the routes of g change, and in every state they lie between lo and hi. */
  ghost predicate Rerouted(w: World, w': World, g: Guid, app: App, lo: set<string>, hi: set<string>) {
    && Kept(w, w', g)
    && RoutedWithin(w'.apps, g, app, lo, hi)
    && forall k :: |w.log| <= k < |w'.log| ==> RoutedWithin(w'.log[k].apps, g, app, lo, hi)
  }

  lemma ReroutedTrans(w: World, w1: World, w2: World, g: Guid, app: App, lo: set<string>, hi: set<string>)
    requires Rerouted(w, w1, g, app, lo, hi) && Rerouted(w1, w2, g, app, lo, hi)
    ensures Rerouted(w, w2, g, app, lo, hi)
  {
    KeptTrans(w, w1, w2, g);
    forall k | |w.log| <= k < |w2.log|
      ensures RoutedWithin(w2.log[k].apps, g, app, lo, hi)
    {
      if k < |w1.log| {
        assert w2.log[k] == w1.log[k];
      }
    }
  }

  lemma {:induction false} BindAllSpec(s: Schedule, w: World, g: Guid, routes: seq<string>, app: App,
                                       lo: set<string>, hi: set<string>)
    requires RoutedWithin(w.apps, g, app, lo, hi) && Elems(routes) <= hi
    ensures var e := BindAll(s, w, g, routes);
            && Rerouted(w, e.state, g, app, lo, hi)
            && (e.status.Ok? ==> Elems(e.state.apps[g].routes) == Elems(w.apps[g].routes) + Elems(routes))
            && !e.status.Panicked?
    decreases |routes|
  {
    if routes != [] {
      var e := Bind(s, w, g, routes[0]);
      assert Elems(w.apps[g].routes + [routes[0]]) == Elems(w.apps[g].routes) + {routes[0]};
      assert routes[0] in Elems(routes);
      assert Rerouted(w, e.state, g, app, lo, hi);
      if e.status.Ok? {
        assert Elems(routes) == {routes[0]} + Elems(routes[1..]);
        BindAllSpec(s, e.state, g, routes[1..], app, lo, hi);
        ReroutedTrans(w, e.state, BindAll(s, e.state, g, routes[1..]).state, g, app, lo, hi);
      }
    }
  }

  lemma {:induction false} UnbindAllSpec(s: Schedule, w: World, g: Guid, routes: seq<string>, app: App,
                                         lo: set<string>, hi: set<string>)
    requires RoutedWithin(w.apps, g, app, lo, hi) && Elems(routes) !! lo
    ensures var e := UnbindAll(s, w, g, routes);
            && Rerouted(w, e.state, g, app, lo, hi)
            && (e.status.Ok? ==> Elems(e.state.apps[g].routes) == Elems(w.apps[g].routes) - Elems(routes))
            && !e.status.Panicked?
    decreases |routes|
  {
    if routes != [] {
      var e := Unbind(s, w, g, routes[0]);
      assert Elems(Without(w.apps[g].routes, routes[0])) == Elems(w.apps[g].routes) - {routes[0]};
      assert routes[0] in Elems(routes);
      assert Rerouted(w, e.state, g, app, lo, hi);
      if e.status.Ok? {
        assert Elems(routes) == {routes[0]} + Elems(routes[1..]);
        UnbindAllSpec(s, e.state, g, routes[1..], app, lo, hi);
        ReroutedTrans(w, e.state, UnbindAll(s, e.state, g, routes[1..]).state, g, app, lo, hi);
      }
    }
  }

  lemma ReroutedWeaken(w: World, w': World, g: Guid, app: App, lo: set<string>, lo': set<string>, hi: set<string>)
    requires Rerouted(w, w', g, app, lo', hi) && lo <= lo'
    ensures Rerouted(w, w', g, app, lo, hi)
  {
  }

  /** On the way from w to w' no state lacks both a route that was bound and one that is wanted: whatever
      is bound is bound before anything is unbound. */
  ghost predicate BindsFirst(w: World, w': World, g: Guid, bound: set<string>, wanted: set<string>) {
    forall k :: |w.log| <= k < |w'.log| ==>
      g in w'.log[k].apps && (bound <= Elems(w'.log[k].apps[g].routes) || wanted <= Elems(w'.log[k].apps[g].routes))
  }

  lemma BindsThenUnbinds(w: World, w1: World, w2: World, g: Guid, app: App, bound: set<string>, wanted: set<string>,
                         lo: set<string>, hi: set<string>)
    requires Rerouted(w, w1, g, app, bound, hi) && Rerouted(w1, w2, g, app, lo, hi) && wanted <= lo
    ensures BindsFirst(w, w2, g, bound, wanted)
  {
    forall k | |w.log| <= k < |w2.log|
      ensures g in w2.log[k].apps
              && (bound <= Elems(w2.log[k].apps[g].routes) || wanted <= Elems(w2.log[k].apps[g].routes))
    {
      if k < |w1.log| {
        assert w2.log[k] == w1.log[k];
      }
    }
  }

  /** Route reconciliation.  Whatever fails, no route is ever unbound that is wanted or that Terraform
      did not manage, none is bound that is not wanted, and none unbound before all wanted ones are
      bound.  On success with a non-empty wanted list the app has the wanted routes and its unmanaged
      ones; an empty wanted list changes nothing. */
  lemma BindRoutesSpec(s: Schedule, w: World, g: Guid, wanted: seq<string>, managed: seq<string>)
    requires g in w.apps
    ensures var app := w.apps[g];
            var bound := Elems(app.routes);
            var e := BindRoutes(s, w, g, app.routes, wanted, managed);
            && Rerouted(w, e.state, g, app, bound - (Elems(managed) - Elems(wanted)), bound + Elems(wanted))
            && BindsFirst(w, e.state, g, bound, Elems(wanted))
            && (wanted == [] ==> e == Effect(w, Ok))
            && (wanted != [] && e.status.Ok? ==>
                  Elems(e.state.apps[g].routes) == Elems(wanted) + (bound - Elems(managed)))
            && !e.status.Panicked?
  {
    if wanted != [] {
      var app := w.apps[g];
      var bound := Elems(app.routes);
      var lo, hi := bound - (Elems(managed) - Elems(wanted)), bound + Elems(wanted);
      var missing := Missing(wanted, app.routes);
      BindAllSpec(s, w, g, missing, app, bound, hi);
      var e := BindAll(s, w, g, missing);
      ReroutedWeaken(w, e.state, g, app, lo, bound, hi);
      if e.status.Ok? {
        assert Elems(e.state.apps[g].routes) == hi;
        UnbindStale(s, e.state, g, app, wanted, managed);
        var last := UnbindAll(s, e.state, g, Stale(app.routes, wanted, managed)).state;
        var lo' := Elems(wanted) + (bound - Elems(managed));
        BindsThenUnbinds(w, e.state, last, g, app, bound, Elems(wanted), lo', hi);
        ReroutedWeaken(e.state, last, g, app, lo, lo', hi);
        ReroutedTrans(w, e.state, last, g, app, lo, hi);
      }
    }
  }

  /** The second half: everything wanted is bound, and the stale routes go. */
  lemma UnbindStale(s: Schedule, w: World, g: Guid, app: App, wanted: seq<string>, managed: seq<string>)
    requires wanted != [] && g in w.apps && w.apps[g] == app.(routes := w.apps[g].routes)
    requires Elems(w.apps[g].routes) == Elems(app.routes) + Elems(wanted)
    ensures var bound := Elems(app.routes);
            var kept := Elems(wanted) + (bound - Elems(managed));
            var e := UnbindAll(s, w, g, Stale(app.routes, wanted, managed));
            && Rerouted(w, e.state, g, app, kept, bound + Elems(wanted))
            && (e.status.Ok? ==> Elems(e.state.apps[g].routes) == kept)
            && !e.status.Panicked?
  {
    var bound, stale := Elems(app.routes), Stale(app.routes, wanted, managed);
    var kept := Elems(wanted) + (bound - Elems(managed));
    forall x | x in stale
      ensures x !in kept
    {
      assert wanted[0] in wanted;
    }
    UnbindAllSpec(s, w, g, stale, app, kept, bound + Elems(wanted));
    assert Elems(stale) == (bound * Elems(managed)) - Elems(wanted) by {
      forall x | x in bound && x in managed && x !in wanted
        ensures x in stale
      {
      }
    }
  }

  // ----- Filling a new app -----

  /** The app the configuration asks for, with the given bits and confirmed run state. */
  ghost predicate IsFilled(app: App, cfg: Config, bits: Option<string>, run: RunState) {
    && app.name == cfg.name && app.settings == cfg.settings && app.instances == cfg.instances
    && app.bits == bits && app.run == run
    && Elems(app.routes) == Elems(cfg.routes)
  }

  /** The run state StartApp confirms, for a caller that knows the given instance count. */
  function Confirmed(started: bool, instances: int): RunState {
    if !started then Stopped else if instances == 0 then Staged else Running
  }

  lemma StartAppSpec(s: Schedule, w: World, g: Guid, instances: int)
    ensures var e := StartApp(s, w, g, instances);
            && Kept(w, e.state, g)
            && !e.status.Panicked?
            && (e.status.Ok? ==> g in w.apps && e.state.apps[g] == w.apps[g].(run := Confirmed(true, instances)))
  {
    var e1 := SetRun(s, w, g, Starting);
    assert Kept(w, e1.state, g);
    if e1.status.Ok? {
      var e2 := SetRun(s, e1.state, g, Staged);
      assert Kept(e1.state, e2.state, g);
      KeptTrans(w, e1.state, e2.state, g);
      if e2.status.Ok? {
        var e3 := if instances == 0 then Probe(s, e2.state) else SetRun(s, e2.state, g, Running);
        assert Kept(e2.state, e3.state, g);
        KeptTrans(w, e2.state, e3.state, g);
      }
    }
  }

  lemma SendBitsSpec(s: Schedule, w: World, cfg: Config)
    ensures var e := SendBits(s, w, cfg);
            && Kept(w, e.state, w.id)
            && (e.status.Ok? ==> w.id in w.apps && e.state.apps[w.id] == w.apps[w.id].(bits := Some(cfg.path)))
  {
    var g := w.id;
    var e1 := Probe(s, w);
    assert Kept(w, e1.state, g);
    if e1.status.Ok? {
      var e2 := SetBits(s, e1.state, g, Some(cfg.path));
      assert Kept(e1.state, e2.state, g);
      KeptTrans(w, e1.state, e2.state, g);
      if e2.status.Ok? {
        var e3 := Probe(s, e2.state);
        assert Kept(e2.state, e3.state, g);
        KeptTrans(w, e2.state, e3.state, g);
        if e3.status.Ok? {
          var e4 := Probe(s, e3.state);
          assert Kept(e3.state, e4.state, g);
          KeptTrans(w, e3.state, e4.state, g);
        }
      }
    }
  }

  /** The last two stages of FillApp. */
  lemma SendAndStartSpec(s: Schedule, w: World, cfg: Config, started: bool, sendBits: bool)
    requires w.id in w.apps
    ensures var sent := if sendBits then SendBits(s, w, cfg) else Effect(w, Ok);
            var e := if !sent.status.Ok? then sent
                     else if started then StartApp(s, sent.state, w.id, cfg.instances) else sent;
            && Kept(w, e.state, w.id)
            && (e.status.Panicked? ==> sendBits)
            && (e.status.Ok? ==> e.state.apps[w.id] == w.apps[w.id].(
                  bits := if sendBits then Some(cfg.path) else w.apps[w.id].bits,
                  run := if started then Confirmed(true, cfg.instances) else w.apps[w.id].run))
  {
    var sent := if sendBits then SendBits(s, w, cfg) else Effect(w, Ok);
    if sendBits {
      SendBitsSpec(s, w, cfg);
    }
    if sent.status.Ok? && started {
      StartAppSpec(s, sent.state, w.id, cfg.instances);
      KeptTrans(w, sent.state, StartApp(s, sent.state, w.id, cfg.instances).state, w.id);
    }
  }

  /** Filling a new app changes that app only, and only the upload can panic. */
  lemma FillAppSpec(s: Schedule, w: World, cfg: Config, started: bool, sendBits: bool)
    requires w.id in w.apps && w.apps[w.id] == NewApp(cfg)
    ensures var e := FillApp(s, w, cfg, w.id, started, sendBits);
            && Kept(w, e.state, w.id)
            && (e.status.Panicked? ==> sendBits)
            && (e.status.Ok? ==> IsFilled(e.state.apps[w.id], cfg, if sendBits then Some(cfg.path) else None,
                                          Confirmed(started, cfg.instances)))
  {
    var g := w.id;
    BindRoutesSpec(s, w, g, cfg.routes, cfg.ManagedRoutes());
    var e1 := BindRoutes(s, w, g, [], cfg.routes, cfg.ManagedRoutes());
    if e1.status.Ok? {
      assert Elems(e1.state.apps[g].routes) == Elems(cfg.routes);
      var e2 := BindServices(s, e1.state, cfg);
      assert Kept(e1.state, e2.state, g);
      KeptTrans(w, e1.state, e2.state, g);
      if e2.status.Ok? {
        SendAndStartSpec(s, e2.state, cfg, started, sendBits);
        KeptTrans(w, e2.state, FillApp(s, w, cfg, g, started, sendBits).state, g);
      }
    }
  }
}
