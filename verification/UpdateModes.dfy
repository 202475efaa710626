/** createOrUpdate: which kind of update is chosen, what it keeps running, and what it achieves. */
module UpdateModes {
  import opened Wrappers
  import opened Rewind
  import opened CloudController
  import opened AppResource
  import opened AppFrames
  import opened RequestCounts
  import opened BlueGreen
  import opened BlueGreenRollback
  import opened BlueGreenOutcome

  /** The changes made on the spot: the routes alone, or the name, the instance count or both. */
  predicate OnTheSpot(cfg: Config) {
    cfg.changed == {"routes"} || (cfg.changed != {} && cfg.changed <= {"instances", "name"})
  }

  /** The bits are known to differ, from the Terraform diff or from the last read. */
  predicate BitsChanged(cfg: Config) { "bits_has_changed" in cfg.changed || cfg.bitsHasChanged != "" }

  /** The provider's README, line 750: blue-green deployment when the bits changed, rename and scale on
      the spot, and blue-green restage for everything else, unless they are switched off. */
  lemma ModeChosen(cfg: Config, id: Guid)
    requires id != NO_ID
    ensures ModeOf(cfg, id) == Routes <==> cfg.changed == {"routes"}
    ensures ModeOf(cfg, id) == Scale <==> cfg.changed == {"instances"}
    ensures ModeOf(cfg, id) == RenameIt <==> cfg.changed == {"name"}
    ensures ModeOf(cfg, id) == ScaleAndRename <==> cfg.changed == {"instances", "name"}
    ensures ModeOf(cfg, id) in {Routes, Scale, RenameIt, ScaleAndRename} <==> OnTheSpot(cfg)
    ensures !OnTheSpot(cfg) && BitsChanged(cfg) ==>
              ModeOf(cfg, id) == if cfg.noBlueGreenDeploy then DeployInPlace else BlueGreenDeploy
    ensures !OnTheSpot(cfg) && !BitsChanged(cfg) ==>
              ModeOf(cfg, id) == if cfg.noBlueGreenRestage then RestageInPlace else BlueGreenRestage
  {
    var changed := cfg.changed;
    if changed != {} && changed <= {"instances", "name"} {
      if "instances" !in changed {
        assert changed == {"name"};
      } else if "name" !in changed {
        assert changed == {"instances"};
      } else {
        assert changed == {"instances", "name"};
      }
    }
  }

  /** The app still exists with its bits and run state, or has been replaced by a complete one. */
  ghost predicate Up(w0: World, snap: Snapshot, cfg: Config, bits: Option<string>, run: RunState)
    requires w0.id in w0.apps
  {
    || (w0.id in snap.apps && snap.apps[w0.id].bits == w0.apps[w0.id].bits &&
            snap.apps[w0.id].run == w0.apps[w0.id].run)
    || Ready(w0, snap, cfg, bits, run)
  }

  ghost predicate StaysUp(w0: World, w: World, cfg: Config, bits: Option<string>, run: RunState)
    requires w0.id in w0.apps
  {
    forall k :: |w0.log| <= k < |w.log| ==> Up(w0, w.log[k], cfg, bits, run)
  }

  /** The bits and the run state of a complete new app, the same for every update: the uploaded bits or
      the original's, and running if the configuration wants it started with some instance. */
  function NewBits(cfg: Config, w: World): Option<string>
    requires w.id in w.apps
  {
    if ModeOf(cfg, w.id) == BlueGreenDeploy then Some(cfg.path) else w.apps[w.id].bits
  }

  function NewRun(cfg: Config): RunState { Confirmed(cfg.started, cfg.instances) }

  ghost predicate IsUp(w0: World, w: World, cfg: Config)
    requires w0.id in w0.apps
  {
    StaysUp(w0, w, cfg, NewBits(cfg, w0), NewRun(cfg))
  }

  /** A blue-green update loses the original before the state points to another app. */
  ghost predicate LosesApp(s: Schedule, w: World, cfg: Config) {
    ModeOf(cfg, w.id) in {BlueGreenDeploy, BlueGreenRestage} && LosesOriginal(s, w, cfg)
  }

  /** A blue-green restage replaces an app that is wanted running by one that was never seen running:
      the start step passes a copy of the app without an instance count, so the wait is skipped. */
  ghost predicate ReplacesUnseen(s: Schedule, w: World, cfg: Config) {
    && ModeOf(cfg, w.id) == BlueGreenRestage
    && cfg.started && cfg.instances != 0
    && DeletesOriginal(s, w, cfg, RESTAGE_STEPS)
  }

  /** "By default, when updating, your app will never shutdown": with neither blue-green update
      switched off, an update of an existing app keeps it up in every state, except exactly the
      blue-green runs that lose the original, and the restages that delete the original of an app
      wanted running. */
  lemma DefaultUpdateStaysUp(s: Schedule, w0: World, cfg: Config)
    requires Tracked(w0)
    requires !cfg.noBlueGreenDeploy && !cfg.noBlueGreenRestage
    ensures IsUp(w0, CreateOrUpdate(s, w0, cfg).state, cfg)
            <==> !LosesApp(s, w0, cfg) && !ReplacesUnseen(s, w0, cfg)
  {
    var out := CreateOrUpdate(s, w0, cfg);
    match ModeOf(cfg, w0.id)
    case Routes =>
      var e := Probe(s, w0);
      assert forall k :: 0 <= k < |e.state.log| && k < |w0.log| ==> e.state.log[k] == w0.log[k];
      if e.status.Ok? {
        BindRoutesSpec(s, e.state, w0.id, cfg.routes, cfg.ManagedRoutes());
      }
    case Scale =>
    case RenameIt =>
    case ScaleAndRename =>
    case BlueGreenDeploy =>
      DeployNeverDown(s, w0, cfg);
      SafeIsUp(w0, out, cfg, Some(cfg.path), Confirmed(cfg.started, cfg.instances));
    case BlueGreenRestage =>
      RestageStaysUp(s, w0, cfg);
  }

  /** For a restage, whatever the run state of the new app is compared with. */
  lemma RestageStaysUp(s: Schedule, w0: World, cfg: Config)
    requires Tracked(w0)
    ensures var out := UpdateBg(s, cfg, RESTAGE_STEPS, w0);
            StaysUp(w0, out.state, cfg, w0.apps[w0.id].bits, NewRun(cfg))
            <==> !LosesOriginal(s, w0, cfg)
                 && !(cfg.started && cfg.instances != 0 && DeletesOriginal(s, w0, cfg, RESTAGE_STEPS))
  {
    var out, bits := UpdateBg(s, cfg, RESTAGE_STEPS, w0), w0.apps[w0.id].bits;
    RestageNeverDown(s, w0, cfg);
    SafeIsUp(w0, out, cfg, bits, Confirmed(cfg.started, 0));
    if cfg.started && cfg.instances != 0 {
      IntactIff(s, w0, cfg, RESTAGE_STEPS);
      if DeletesOriginal(s, w0, cfg, RESTAGE_STEPS) {
        assert !Up(w0, out.state.log[|out.state.log| - 1], cfg, bits, NewRun(cfg));
      } else if !LosesOriginal(s, w0, cfg) {
        assert StaysUp(w0, out.state, cfg, bits, NewRun(cfg));
      }
      SafeIsUp(w0, out, cfg, bits, NewRun(cfg));
    }
  }

  /** For a restage that succeeds the promise holds exactly if no running instance is wanted. */
  lemma SuccessfulRestageStaysUpIff(s: Schedule, w0: World, cfg: Config)
    requires Tracked(w0) && ModeOf(cfg, w0.id) == BlueGreenRestage
    requires CreateOrUpdate(s, w0, cfg).status.Ok?
    ensures IsUp(w0, CreateOrUpdate(s, w0, cfg).state, cfg) <==> !cfg.started || cfg.instances == 0
  {
    RestageStaysUp(s, w0, cfg);
    SucceedsIff(s, w0, cfg, RESTAGE_STEPS);
    AllRequestsDone(s, w0, cfg, RESTAGE_STEPS);
    RequestsAreCounted(cfg);
    NotLost(s, w0, cfg, RequestsOf(cfg, RESTAGE_STEPS));
  }

  lemma SafeIsUp(w0: World, out: Effect<World>, cfg: Config, bits: Option<string>, run: RunState)
    requires w0.id in w0.apps
    ensures NeverDown(w0, out.state, cfg, bits, run) ==> StaysUp(w0, out.state, cfg, bits, run)
    ensures OriginalLost(w0, out) ==> !StaysUp(w0, out.state, cfg, bits, run)
  {
  }

  /** With a blue-green update switched off, an app that is not stopped is stopped on the way, unless
      the first request is refused or, for a restage, was not allowed or not even sent. */
  lemma InPlaceUpdateStops(s: Schedule, w0: World, cfg: Config, bits: Option<string>, run: RunState)
    requires Tracked(w0) && w0.apps[w0.id].run != Stopped
    requires ModeOf(cfg, w0.id) == DeployInPlace || ModeOf(cfg, w0.id) == RestageInPlace
    ensures var out := CreateOrUpdate(s, w0, cfg);
            StaysUp(w0, out.state, cfg, bits, run)
            <==> s(w0.calls).Refused?
                 || (ModeOf(cfg, w0.id) == RestageInPlace && !(cfg.paramsOk && NameFree(w0.apps, cfg.name, w0.id)))
  {
    if ModeOf(cfg, w0.id) == DeployInPlace {
      DeployInPlaceLog(s, w0, cfg);
      FirstRequestDecides(s, w0, StopApp(s, w0, w0.id), CreateOrUpdate(s, w0, cfg), cfg, bits, run);
    } else if cfg.paramsOk {
      RestageInPlaceLog(s, w0, cfg);
      FirstRequestDecides(s, w0, Reconfigure(s, w0, cfg), CreateOrUpdate(s, w0, cfg), cfg, bits, run);
    }
  }

  /** The run starts with a request that, if carried out, stops the app. */
  lemma FirstRequestDecides(s: Schedule, w0: World, first: Effect<World>, out: Effect<World>, cfg: Config,
                            bits: Option<string>, run: RunState)
    requires Tracked(w0) && w0.apps[w0.id].run != Stopped
    requires w0.log < first.state.log <= out.state.log && first.state.log[|w0.log|] == Snapshot(first.state.apps, w0.id)
    requires first.state.apps == w0.apps || (w0.id in first.state.apps && first.state.apps[w0.id].run == Stopped)
    requires first.state.apps == w0.apps ==> out == first && |first.state.log| == |w0.log| + 1
    ensures StaysUp(w0, out.state, cfg, bits, run) <==> first.state.apps == w0.apps
  {
    var snap := out.state.log[|w0.log|];
    assert snap == Snapshot(first.state.apps, w0.id);
    assert first.state.apps != w0.apps ==> !Up(w0, snap, cfg, bits, run);
  }

  lemma DeployInPlaceLog(s: Schedule, w0: World, cfg: Config)
    requires Tracked(w0)
    ensures var first, out := StopApp(s, w0, w0.id), DeployInPlaceNow(s, w0, cfg);
            first.state.log <= out.state.log && (!first.status.Ok? ==> out == first)
  {
    var first := StopApp(s, w0, w0.id);
    if first.status.Ok? {
      LogGrows(s, first.state, cfg);
    }
  }

  lemma RestageInPlaceLog(s: Schedule, w0: World, cfg: Config)
    requires Tracked(w0) && cfg.paramsOk
    ensures var first, out := Reconfigure(s, w0, cfg), RestageInPlaceNow(s, w0, cfg);
            first.state.log <= out.state.log && (!first.status.Ok? ==> out == first)
  {
    var first := Reconfigure(s, w0, cfg);
    if first.status.Ok? {
      LogGrows(s, first.state, cfg);
    }
  }

  lemma LogGrows(s: Schedule, w: World, cfg: Config)
    ensures var e := SendBits(s, w, cfg);
            w.log <= e.state.log && (e.status.Ok? ==> w.log <= StartApp(s, e.state, e.state.id, 0).state.log)
    ensures var e := StopApp(s, w, w.id);
            w.log <= e.state.log && (e.status.Ok? ==> w.log <= StartApp(s, e.state, e.state.id, 0).state.log)
  {
    SendBitsSpec(s, w, cfg);
    StartAppSpec(s, SendBits(s, w, cfg).state, w.id, 0);
    StartAppSpec(s, StopApp(s, w, w.id).state, w.id, 0);
  }

  /** The exact outcome of a blue-green update whose parameters do not parse: creation fails without a
      request, and the compensation deletes the original. */
  lemma BadParamsDeleteTheApp(s: Schedule, w0: World, cfg: Config)
    requires Tracked(w0) && !cfg.paramsOk && RenameAllowed(w0, cfg)
    requires ModeOf(cfg, w0.id) in {BlueGreenDeploy, BlueGreenRestage}
    requires s(w0.calls).Done? && !s(w0.calls + 1).Refused?
    ensures CreateOrUpdate(s, w0, cfg).state.apps == w0.apps - {w0.id}
    ensures CreateOrUpdate(s, w0, cfg).state.id == w0.id
  {
    if ModeOf(cfg, w0.id) == BlueGreenDeploy {
      BadParamsRun(s, w0, cfg, DeploySteps(cfg), cfg.started, true, [DeleteOriginal]);
    } else {
      BadParamsRun(s, w0, cfg, RESTAGE_STEPS, false, false, [CopyBits, StartNew, DeleteOriginal]);
    }
  }

  lemma BadParamsRun(s: Schedule, w0: World, cfg: Config, steps: seq<Step>, started: bool, sendBits: bool,
                     rest: seq<Step>)
    requires Tracked(w0) && !cfg.paramsOk && RenameAllowed(w0, cfg)
    requires steps == [RenameOriginal, CreateNew(started, sendBits)] + rest
    requires s(w0.calls).Done? && !s(w0.calls + 1).Refused?
    ensures UpdateBg(s, cfg, steps, w0).state.apps == w0.apps - {w0.id}
    ensures UpdateBg(s, cfg, steps, w0).state.id == w0.id
  {
    RunIsRunSteps(s, cfg, w0.id, steps, w0);
    FirstTwo(s, w0, cfg, started, sendBits, rest);
    RenameStep(s, w0, cfg);
    var e1 := Forward(s, cfg, w0.id, RenameOriginal, w0);
    UndoBeforeSetId(s, w0, cfg, e1.state);
    assert e1.state.apps - {w0.id} == w0.apps - {w0.id};
  }

  /** The promise does fail: with every request carried out, changing the memory of the only app to a
      value that does not parse deletes it, and nothing takes its place. */
  lemma UnparsableQuotaDeletesTheApp() returns (s: Schedule, w0: World, cfg: Config)
    ensures Tracked(w0) && !cfg.noBlueGreenDeploy && !cfg.noBlueGreenRestage
    ensures forall i: nat :: s(i).Done?
    ensures w0.apps.Keys == {w0.id} && w0.apps[w0.id].run == Running
    ensures CreateOrUpdate(s, w0, cfg).state.apps == map[]
  {
    s, w0, cfg := i => Done, ShopWorld(), ShopConfig({"memory"}, false);
    MemoryIsRestaged(cfg, w0.id);
    assert w0.apps.Keys == {w0.id} && w0.apps[w0.id].name == cfg.OrigName();
    BadParamsDeleteTheApp(s, w0, cfg);
    assert w0.apps - {w0.id} == map[];
  }

  /** And it fails in an update that reports no error: changing the memory of a running app of two
      instances to another value deletes it before an instance of the new app was seen running. */
  lemma MemoryChangeReplacesUnseen() returns (s: Schedule, w0: World, cfg: Config)
    ensures Tracked(w0) && !cfg.noBlueGreenDeploy && !cfg.noBlueGreenRestage
    ensures forall i: nat :: s(i).Done?
    ensures w0.apps.Keys == {w0.id} && w0.apps[w0.id].run == Running
    ensures CreateOrUpdate(s, w0, cfg).status.Ok?
    ensures !IsUp(w0, CreateOrUpdate(s, w0, cfg).state, cfg)
  {
    s, w0, cfg := i => Done, ShopWorld(), ShopConfig({"memory"}, true);
    MemoryIsRestaged(cfg, w0.id);
    ShopNamesFree({"memory"});
    UndisturbedRestage(s, w0, cfg);
  }

  lemma UndisturbedRestage(s: Schedule, w0: World, cfg: Config)
    requires Tracked(w0) && ModeOf(cfg, w0.id) == BlueGreenRestage && cfg.started && cfg.instances != 0
    requires RenameAllowed(w0, cfg) && CreateAllowed(w0, cfg) && forall i: nat :: s(i).Done?
    ensures CreateOrUpdate(s, w0, cfg).status.Ok? && !IsUp(w0, CreateOrUpdate(s, w0, cfg).state, cfg)
  {
    SucceedsIff(s, w0, cfg, RESTAGE_STEPS);
    SuccessfulRestageStaysUpIff(s, w0, cfg);
  }

  lemma ShopNamesFree(changed: set<string>)
    ensures Tracked(ShopWorld())
    ensures RenameAllowed(ShopWorld(), ShopConfig(changed, true))
    ensures CreateAllowed(ShopWorld(), ShopConfig(changed, true))
  {
    VenerableDiffers("shop");
  }

  /** A compensation can be skipped: with one refused request, the upload, a change of the bits leaves
      both apps behind, the original under its venerable name, and the new one without bits. */
  lemma RefusedUploadPanics() returns (s: Schedule, w0: World, cfg: Config)
    ensures Tracked(w0) && ModeOf(cfg, w0.id) == BlueGreenDeploy
    ensures forall i: nat :: s(i).Done? <==> i != UploadCall(w0, cfg)
    ensures var out := CreateOrUpdate(s, w0, cfg);
            && out.status.Panicked? && out.state.id != w0.id && out.state.id in out.state.apps
            && w0.id in out.state.apps && out.state.apps[w0.id].name == Venerable(w0.apps[w0.id].name)
  {
    w0, cfg := ShopWorld(), ShopConfig({"bits_has_changed"}, true);
    var u := UploadCall(w0, cfg);
    s := i => if i == u then Refused else Done;
    assert BitsChanged(cfg);
    ModeChosen(cfg, w0.id);
    ShopNamesFree({"bits_has_changed"});
    RefusedUpload(s, w0, cfg);
  }

  lemma RefusedUpload(s: Schedule, w0: World, cfg: Config)
    requires Tracked(w0) && ModeOf(cfg, w0.id) == BlueGreenDeploy
    requires RenameAllowed(w0, cfg) && CreateAllowed(w0, cfg)
    requires forall i: nat :: s(i).Done? <==> i != UploadCall(w0, cfg)
    ensures var out := CreateOrUpdate(s, w0, cfg);
            && out.status.Panicked? && out.state.id != w0.id && out.state.id in out.state.apps
            && w0.id in out.state.apps && out.state.apps[w0.id].name == Venerable(cfg.OrigName())
  {
    DeployPanicsIff(s, w0, cfg);
    assert Same(RenamedApps(w0, cfg), CreateOrUpdate(s, w0, cfg).state.apps, w0.id);
  }

  /** A space with one running app, and a configuration of it. */
  function ShopWorld(): World {
    World(map[1 := App("shop", "512M", 2, Running, Some("v1"), ["r1"])], 1, 2, 0, [])
  }

  function ShopConfig(changed: set<string>, paramsOk: bool): Config {
    Config(changed, paramsOk, "shop", "shop", "1G", 2, true, ["r1"], [], [], "v1", "", false, false)
  }

  lemma MemoryIsRestaged(cfg: Config, id: Guid)
    requires id != NO_ID && cfg.changed == {"memory"} && cfg.bitsHasChanged == "" && !cfg.noBlueGreenRestage
    ensures ModeOf(cfg, id) == BlueGreenRestage
  {
    assert "memory" in cfg.changed;
    ModeChosen(cfg, id);
  }

  // ----- What the other modes achieve -----

  /** The app after a successful update in place. */
  function UpdatedApp(cfg: Config, mode: Mode, app: App): App {
    match mode
    case Scale => app.(instances := cfg.instances)
    case RenameIt => app.(name := cfg.name)
    case ScaleAndRename => app.(name := cfg.name, instances := cfg.instances)
    case DeployInPlace => app.(bits := Some(cfg.path), run := Staged)
    case RestageInPlace => app.(name := cfg.name, settings := cfg.settings, instances := cfg.instances, run := Staged)
    case _ => app
  }

  /** A successful update in place changes the app as configured, keeps its guid and touches no other
      app.  The two that stop the app start it again whether or not the configuration wants it started,
      and leave it staged, not confirmed running. */
  lemma InPlaceEndState(s: Schedule, w0: World, cfg: Config)
    requires Tracked(w0)
    requires ModeOf(cfg, w0.id) !in {BlueGreenDeploy, BlueGreenRestage, Routes}
    requires CreateOrUpdate(s, w0, cfg).status.Ok?
    ensures var out := CreateOrUpdate(s, w0, cfg).state;
            && out.id == w0.id
            && out.apps == w0.apps[w0.id := UpdatedApp(cfg, ModeOf(cfg, w0.id), w0.apps[w0.id])]
  {
    var out := CreateOrUpdate(s, w0, cfg).state;
    match ModeOf(cfg, w0.id)
    case DeployInPlace =>
      var w1 := StopApp(s, w0, w0.id).state;
      var w2 := SendBits(s, w1, cfg).state;
      SendBitsSpec(s, w1, cfg);
      StartAppSpec(s, w2, w2.id, 0);
      OnlyThisApp(w0.apps, w1.apps, w2.apps, out.apps, w0.id);
    case RestageInPlace =>
      var w1 := Reconfigure(s, w0, cfg).state;
      var w2 := StopApp(s, w1, w1.id).state;
      StartAppSpec(s, w2, w2.id, 0);
      OnlyThisApp(w0.apps, w1.apps, w2.apps, out.apps, w0.id);
    case _ =>
  }

  lemma OnlyThisApp(a: Apps, b: Apps, c: Apps, d: Apps, g: Guid)
    requires g in a && g in d && SameBut(a, b, g) && SameBut(b, c, g) && SameBut(c, d, g)
    ensures d == a[g := d[g]]
  {
    SameButTrans(a, b, c, g);
    SameButTrans(a, c, d, g);
    var updated := a[g := d[g]];
    forall h: Guid
      ensures Same(updated, d, h)
    {
      assert h != g ==> Same(a, d, h);
    }
    SameEverywhere(updated, d);
  }

  /** A successful update of the routes alone gives the app the wanted routes and keeps the ones
      Terraform did not manage; nothing else changes. */
  lemma RoutesEndState(s: Schedule, w0: World, cfg: Config)
    requires Tracked(w0) && ModeOf(cfg, w0.id) == Routes
    ensures var out := CreateOrUpdate(s, w0, cfg);
            var bound := Elems(w0.apps[w0.id].routes);
            && SameBut(w0.apps, out.state.apps, w0.id) && w0.id in out.state.apps
            && out.state.apps[w0.id] == w0.apps[w0.id].(routes := out.state.apps[w0.id].routes)
            && bound - (Elems(cfg.oldRoutes) - Elems(cfg.routes)) <= Elems(out.state.apps[w0.id].routes)
            && Elems(out.state.apps[w0.id].routes) <= bound + Elems(cfg.routes)
            && (out.status.Ok? ==>
                  Elems(out.state.apps[w0.id].routes) ==
                  if cfg.routes == [] then bound else Elems(cfg.routes) + (bound - Elems(cfg.oldRoutes)))
  {
    var e := Probe(s, w0);
    assert "routes" in cfg.changed;
    if e.status.Ok? {
      BindRoutesSpec(s, e.state, w0.id, cfg.routes, cfg.ManagedRoutes());
    }
  }

  /** A successful creation points the state to a new complete app and touches no other. */
  lemma CreateEndState(s: Schedule, w0: World, cfg: Config)
    requires w0.id == NO_ID && forall g :: g in w0.apps ==> NO_ID < g < w0.issued
    requires CreateOrUpdate(s, w0, cfg).status.Ok?
    ensures var out := CreateOrUpdate(s, w0, cfg).state;
            && out.id == w0.issued && out.id in out.apps
            && IsFilled(out.apps[out.id], cfg, Some(cfg.path), Confirmed(cfg.started, cfg.instances))
            && SameBut(w0.apps, out.apps, out.id)
  {
    var created := Create(s, w0, NewApp(cfg)).state;
    var pointed := SetId(created, w0.issued);
    FillAppSpec(s, pointed, cfg, cfg.started, true);
    SameButTrans(w0.apps, pointed.apps, CreateOrUpdate(s, w0, cfg).state.apps, w0.issued);
  }

  // ----- What a successful update achieves, from the configuration's fields -----

  /** Only the app that w0 points to has changed, and this is what it is now. */
  ghost predicate Became(w0: World, w: World, app: App) {
    w.id == w0.id && w.apps == w0.apps[w0.id := app]
  }

  /** A new app has taken the place of the one w0 points to. */
  ghost predicate GaveWayTo(w0: World, w: World, cfg: Config, bits: Option<string>, run: RunState) {
    && w.id == w0.issued && w.apps.Keys == w0.apps.Keys - {w0.id} + {w.id}
    && (forall h :: h in w0.apps && h != w0.id ==> h in w.apps && w.apps[h] == w0.apps[h])
    && w.id in w.apps && w.apps[w.id] == App(cfg.name, cfg.settings, cfg.instances, run, bits, w.apps[w.id].routes)
    && Elems(w.apps[w.id].routes) == Elems(cfg.routes)
  }

  /** The routes of a routes-only update: the wanted ones and those Terraform did not manage. */
  ghost predicate RoutesBecame(w0: World, w: World, cfg: Config)
    requires w0.id in w0.apps
  {
    var bound := Elems(w0.apps[w0.id].routes);
    && w0.id in w.apps && Became(w0, w, w0.apps[w0.id].(routes := w.apps[w0.id].routes))
    && Elems(w.apps[w0.id].routes) ==
       if cfg.routes == [] then bound else Elems(cfg.routes) + (bound - Elems(cfg.oldRoutes))
  }

  /** What an update of an existing app is for: the changed keys and the two switches decide between a
      change on the spot, a change in place and a replacement. */
  ghost predicate Achieved(w0: World, w: World, cfg: Config)
    requires w0.id in w0.apps
  {
    var app := w0.apps[w0.id];
    if cfg.changed == {"routes"} then RoutesBecame(w0, w, cfg)
    else if cfg.changed == {"instances"} then Became(w0, w, app.(instances := cfg.instances))
    else if cfg.changed == {"name"} then Became(w0, w, app.(name := cfg.name))
    else if cfg.changed == {"instances", "name"} then
      Became(w0, w, app.(name := cfg.name, instances := cfg.instances))
    else if "bits_has_changed" in cfg.changed || cfg.bitsHasChanged != "" then
      if cfg.noBlueGreenDeploy then Became(w0, w, app.(bits := Some(cfg.path), run := Staged))
      else GaveWayTo(w0, w, cfg, Some(cfg.path),
                     if !cfg.started then Stopped else if cfg.instances == 0 then Staged else Running)
    else if cfg.noBlueGreenRestage then
      Became(w0, w, app.(name := cfg.name, settings := cfg.settings, instances := cfg.instances, run := Staged))
    else GaveWayTo(w0, w, cfg, app.bits, if cfg.started then Staged else Stopped)
  }

  lemma UpdateAchieves(s: Schedule, w0: World, cfg: Config)
    requires Tracked(w0) && CreateOrUpdate(s, w0, cfg).status.Ok?
    ensures Achieved(w0, CreateOrUpdate(s, w0, cfg).state, cfg)
  {
    var out := CreateOrUpdate(s, w0, cfg).state;
    ModeChosen(cfg, w0.id);
    match ModeOf(cfg, w0.id)
    case Routes => RoutesAchieved(s, w0, cfg);
    case BlueGreenDeploy =>
      DeployNeverDown(s, w0, cfg);
      ReplacedGaveWay(w0, out, cfg, Some(cfg.path), Confirmed(cfg.started, cfg.instances));
    case BlueGreenRestage =>
      RestageNeverDown(s, w0, cfg);
      ReplacedGaveWay(w0, out, cfg, w0.apps[w0.id].bits, Confirmed(cfg.started, 0));
    case _ => InPlaceEndState(s, w0, cfg);
  }

  lemma RoutesAchieved(s: Schedule, w0: World, cfg: Config)
    requires Tracked(w0) && ModeOf(cfg, w0.id) == Routes && CreateOrUpdate(s, w0, cfg).status.Ok?
    ensures RoutesBecame(w0, CreateOrUpdate(s, w0, cfg).state, cfg)
  {
    var out := CreateOrUpdate(s, w0, cfg).state;
    RoutesEndState(s, w0, cfg);
    SameEverywhereBut(w0.apps, out.apps, w0.id);
    KeepsId(s, w0, cfg);
  }

  lemma KeepsId(s: Schedule, w0: World, cfg: Config)
    requires Tracked(w0)
    ensures UpdateRoutes(s, w0, cfg).state.id == w0.id
  {
    var e := Probe(s, w0);
    if e.status.Ok? {
      BindRoutesSpec(s, e.state, w0.id, cfg.routes, cfg.ManagedRoutes());
    }
  }

  lemma ReplacedGaveWay(w0: World, w: World, cfg: Config, bits: Option<string>, run: RunState)
    requires Replaced(w0, w, cfg, bits, run)
    ensures GaveWayTo(w0, w, cfg, bits, run)
  {
  }

  /** A successful creation makes one new app, as configured. */
  lemma CreationAchieves(s: Schedule, w0: World, cfg: Config)
    requires w0.id == NO_ID && (forall g :: g in w0.apps ==> NO_ID < g < w0.issued)
    requires CreateOrUpdate(s, w0, cfg).status.Ok?
    ensures var w := CreateOrUpdate(s, w0, cfg).state;
            && w.id == w0.issued && w.id in w.apps && w.apps == w0.apps[w.id := w.apps[w.id]]
            && w.apps[w.id] ==
               App(cfg.name, cfg.settings, cfg.instances,
                   if !cfg.started then Stopped else if cfg.instances == 0 then Staged else Running,
                   Some(cfg.path), w.apps[w.id].routes)
            && Elems(w.apps[w.id].routes) == Elems(cfg.routes)
  {
    CreateEndState(s, w0, cfg);
    var w := CreateOrUpdate(s, w0, cfg).state;
    SameEverywhereBut(w0.apps, w.apps, w.id);
  }

  // ----- Other apps -----

  /** Whatever the mode and whatever fails, an update touches no other app, in any state. */
  lemma UpdateSparesOthers(s: Schedule, w0: World, cfg: Config)
    requires Tracked(w0)
    ensures OthersUntouched(w0, CreateOrUpdate(s, w0, cfg).state)
  {
    match ModeOf(cfg, w0.id)
    case Routes =>
      var e := Probe(s, w0);
      if e.status.Ok? {
        BindRoutesSpec(s, e.state, w0.id, cfg.routes, cfg.ManagedRoutes());
        OthersKept(w0, e.state, UpdateRoutes(s, w0, cfg).state, w0.id);
      }
    case DeployInPlace => DeployInPlaceSparesOthers(s, w0, cfg);
    case RestageInPlace => RestageInPlaceSparesOthers(s, w0, cfg);
    case BlueGreenDeploy => NoOtherAppTouched(s, cfg, DeploySteps(cfg), w0);
    case BlueGreenRestage => NoOtherAppTouched(s, cfg, RESTAGE_STEPS, w0);
    case _ =>
  }

  lemma DeployInPlaceSparesOthers(s: Schedule, w0: World, cfg: Config)
    requires Tracked(w0)
    ensures OthersUntouched(w0, DeployInPlaceNow(s, w0, cfg).state)
  {
    var e1 := StopApp(s, w0, w0.id);
    assert OthersUntouched(w0, e1.state);
    if e1.status.Ok? {
      var e2 := SendBits(s, e1.state, cfg);
      SendBitsSpec(s, e1.state, cfg);
      OthersKept(w0, e1.state, e2.state, w0.id);
      if e2.status.Ok? {
        StartAppSpec(s, e2.state, w0.id, 0);
        OthersKept(w0, e2.state, StartApp(s, e2.state, w0.id, 0).state, w0.id);
      }
    }
  }

  lemma RestageInPlaceSparesOthers(s: Schedule, w0: World, cfg: Config)
    requires Tracked(w0)
    ensures OthersUntouched(w0, RestageInPlaceNow(s, w0, cfg).state)
  {
    if cfg.paramsOk {
      var e1 := Reconfigure(s, w0, cfg);
      assert OthersUntouched(w0, e1.state);
      if e1.status.Ok? {
        var e2 := StopApp(s, e1.state, w0.id);
        assert OthersUntouched(w0, e2.state);
        if e2.status.Ok? {
          StartAppSpec(s, e2.state, w0.id, 0);
          OthersKept(w0, e2.state, StartApp(s, e2.state, w0.id, 0).state, w0.id);
        }
      }
    }
  }
}
