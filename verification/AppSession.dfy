/** The app resource as it runs: one object holds the Cloud Controller's apps and the id in the
    Terraform state, and every method changes them request by request.  The methods are tied to the
    functions of AppResource, and the two entry points to what is proved about whole runs. */
module AppSession {
  import opened Wrappers
  import opened Rewind
  import opened CloudController
  import opened AppResource
  import opened RequestCounts
  import opened BlueGreen
  import opened BlueGreenRollback
  import opened BlueGreenOutcome
  import opened UpdateModes

  class Session {
    const schedule: Schedule
    const cfg: Config
    var apps: Apps
    var id: Guid
    var issued: Guid
    var calls: nat
    var log: seq<Snapshot>

    constructor (schedule: Schedule, cfg: Config, apps: Apps, id: Guid, issued: Guid)
      ensures this.schedule == schedule && this.cfg == cfg
      ensures State() == World(apps, id, issued, 0, [])
    {
      this.schedule, this.cfg := schedule, cfg;
      this.apps, this.id, this.issued := apps, id, issued;
      this.calls, this.log := 0, [];
    }

    function State(): World
      reads this
    {
      World(apps, id, issued, calls, log)
    }

    /** Sends one request. */
    method Send(legal: bool, updated: Apps) returns (status: Status)
      modifies this
      ensures Effect(State(), status) == Request(schedule, old(State()), legal, updated)
    {
      var verdict := schedule(calls);
      if legal && verdict != Refused {
        apps := updated;
      }
      calls := calls + 1;
      log := log + [Snapshot(apps, id)];
      status := if legal && verdict == Done then Ok else Failed(REQUEST_FAILED);
    }

    method SendProbe() returns (status: Status)
      modifies this
      ensures Effect(State(), status) == Probe(schedule, old(State()))
    {
      status := Send(true, apps);
    }

    method RenameApplication(g: Guid, name: string) returns (status: Status)
      modifies this
      ensures Effect(State(), status) == Rename(schedule, old(State()), g, name)
    {
      status := Send(g in apps && NameFree(apps, name, g), apps[g := At(apps, g).(name := name)]);
    }

    method DeleteApplication(g: Guid) returns (status: Status)
      modifies this
      ensures Effect(State(), status) == Delete(schedule, old(State()), g)
    {
      status := Send(g in apps, apps - {g});
    }

    method SendPut(g: Guid, app: App) returns (status: Status)
      modifies this
      ensures Effect(State(), status) == Put(schedule, old(State()), g, app)
    {
      status := Send(g in apps, apps[g := app]);
    }

    method PointTo(g: Guid)
      modifies this
      ensures State() == SetId(old(State()), g)
    {
      id := g;
      log := log + [Snapshot(apps, g)];
    }

    /** Binds what is wanted and not bound, then unbinds what is bound, managed and not wanted. */
    method BindAppRoutes(g: Guid, actual: seq<string>, wanted: seq<string>, managed: seq<string>)
      returns (status: Status)
      modifies this
      ensures Effect(State(), status) == BindRoutes(schedule, old(State()), g, actual, wanted, managed)
    {
      if wanted == [] {
        return Ok;
      }
      ghost var w0 := State();
      var toAdd := Missing(wanted, actual);
      for i := 0 to |toAdd|
        invariant BindAll(schedule, w0, g, toAdd) == BindAll(schedule, State(), g, toAdd[i..])
      {
        var app := At(apps, g);
        status := SendPut(g, if toAdd[i] in app.routes then app else app.(routes := app.routes + [toAdd[i]]));
        if status != Ok {
          return;
        }
        assert toAdd[i..][1..] == toAdd[i + 1..];
      }
      ghost var w1 := State();
      var toDelete := Stale(actual, wanted, managed);
      for i := 0 to |toDelete|
        invariant UnbindAll(schedule, w1, g, toDelete) == UnbindAll(schedule, State(), g, toDelete[i..])
      {
        var app := At(apps, g);
        status := SendPut(g, app.(routes := Without(app.routes, toDelete[i])));
        if status != Ok {
          return;
        }
        assert toDelete[i..][1..] == toDelete[i + 1..];
      }
      status := Ok;
    }

    method StartApplication(g: Guid, instances: int) returns (status: Status)
      modifies this
      ensures Effect(State(), status) == StartApp(schedule, old(State()), g, instances)
    {
      status := SendPut(g, At(apps, g).(run := Starting));
      if status != Ok { return; }
      status := SendPut(g, At(apps, g).(run := Staged));
      if status != Ok { return; }
      if instances == 0 {
        status := SendProbe();
      } else {
        status := SendPut(g, At(apps, g).(run := Running));
      }
    }

    method StopApplication(g: Guid) returns (status: Status)
      modifies this
      ensures Effect(State(), status) == StopApp(schedule, old(State()), g)
    {
      status := SendPut(g, At(apps, g).(run := Stopped));
    }

    method SendAppBits() returns (status: Status)
      modifies this
      ensures Effect(State(), status) == SendBits(schedule, old(State()), cfg)
    {
      status := SendProbe();
      if status != Ok { return; }
      status := SendPut(id, At(apps, id).(bits := Some(cfg.path)));
      if status.Failed? { return Panicked(status.message); }
      status := SendProbe();
      if status != Ok { return; }
      status := SendProbe();
    }

    method CreateApplication(started: bool, sendBits: bool) returns (status: Status)
      modifies this
      ensures Effect(State(), status) == CreateApp(schedule, old(State()), cfg, started, sendBits)
    {
      if !cfg.paramsOk { return Failed(BAD_PARAMS); }
      var g := issued;
      status := Send(NameFree(apps, cfg.name, g), apps[g := NewApp(cfg)]);
      issued := issued + 1;
      if status != Ok { return; }
      PointTo(g);
      status := BindAppRoutes(g, [], cfg.routes, cfg.ManagedRoutes());
      if status != Ok { return; }
      if cfg.services != [] {
        status := SendProbe();
        if status != Ok { return; }
      }
      if sendBits {
        status := SendAppBits();
        if status != Ok { return; }
      }
      if !started { return Ok; }
      status := StartApplication(g, cfg.instances);
    }

    method RunForward(orig: Guid, step: Step) returns (status: Status)
      modifies this
      ensures Effect(State(), status) == Forward(schedule, cfg, orig, step, old(State()))
    {
      match step
      case RenameOriginal => status := RenameApplication(orig, Venerable(cfg.OrigName()));
      case CreateNew(started, sendBits) => status := CreateApplication(started, sendBits);
      case CopyBits =>
        status := Send(orig in apps && id in apps, apps[id := At(apps, id).(bits := At(apps, orig).bits)]);
      case StartNew =>
        if !cfg.started { return Ok; }
        status := StartApplication(id, 0);
      case DeleteOriginal => status := DeleteApplication(orig);
    }

    method RunReverse(orig: Guid) returns (status: Status)
      modifies this
      ensures Effect(State(), status) == Undo(schedule, cfg, orig, old(State()))
    {
      var _ := DeleteApplication(id);
      status := RenameApplication(orig, cfg.OrigName());
    }

    /** The loop of Actions.Execute. */
    method RunActions(steps: seq<Step>) returns (status: Status)
      modifies this
      ensures Effect(State(), status) == UpdateBg(schedule, cfg, steps, old(State()))
    {
      var orig := id;
      ghost var w0 := State();
      ghost var actions := ActionsOf(schedule, cfg, orig, steps);
      for i := 0 to |steps|
        invariant Run(actions, REWIND_FAILURE, w0) == Run(actions[i..], REWIND_FAILURE, State())
      {
        ghost var w := State();
        status := RunForward(orig, steps[i]);
        assert actions[i..][0].forward(w) == Effect(State(), status);
        assert actions[i..][1..] == actions[i + 1..];
        if status.Panicked? {
          return;
        }
        if status.Failed? {
          if !HasUndo(steps[i]) {
            return;
          }
          ghost var failed := State();
          var reverseStatus := RunReverse(orig);
          assert actions[i..][0].reversePrevious.value(failed) == Effect(State(), reverseStatus);
          if reverseStatus.Failed? {
            status := Failed(RewindFailure(REWIND_FAILURE, reverseStatus.message));
          }
          return;
        }
      }
      status := Ok;
    }

    /** Actions.Execute over a list of steps; its states are those the interpreter prescribes.  No state
        of any list touches another app.  A blue-green list keeps the original, or a complete new app,
        in every state unless it loses the original before d.SetId; it reports no error exactly when the
        two names are free, the parameters parse and every request is acknowledged, and then the new
        app has replaced the original; a middle failure that is fully compensated leaves the apps as
        they were. */
    method Execute(steps: seq<Step>) returns (status: Status)
      modifies this
      ensures Effect(State(), status) == UpdateBg(schedule, cfg, steps, old(State()))
      ensures Tracked(old(State())) ==> OthersUntouched(old(State()), State())
      ensures Tracked(old(State())) && IsBlueGreen(steps, cfg) ==>
                (NeverDown(old(State()), State(), cfg, FinalBits(old(State()), cfg, steps), FinalRun(cfg, steps))
                 <==> !LosesOriginal(schedule, old(State()), cfg))
      ensures Tracked(old(State())) && IsBlueGreen(steps, cfg) ==>
                (status.Ok? <==>
                 RenameAllowed(old(State()), cfg) && CreateAllowed(old(State()), cfg)
                 && AllDone(schedule, old(calls), old(calls) + RequestsOf(cfg, steps)))
      ensures Tracked(old(State())) && IsBlueGreen(steps, cfg) && status.Ok? ==>
                Replaced(old(State()), State(), cfg, FinalBits(old(State()), cfg, steps), FinalRun(cfg, steps))
      ensures Tracked(old(State())) && IsBlueGreen(steps, cfg) ==>
                forall before, f ::
                  FullyCompensated(schedule, old(State()), cfg, steps, before, f) ==> apps == old(apps)
    {
      ghost var w0 := State();
      status := RunActions(steps);
      assert Effect(State(), status) == UpdateBg(schedule, cfg, steps, w0);
      if Tracked(w0) {
        NoOtherAppTouched(schedule, cfg, steps, w0);
        if IsBlueGreen(steps, cfg) {
          BlueGreenPromise(schedule, w0, cfg, steps);
          forall before, f | FullyCompensated(schedule, w0, cfg, steps, before, f)
            ensures apps == w0.apps
          {
            CompensationRestores(schedule, w0, cfg, steps, before, f);
          }
        }
      }
    }

    method ReplaceBitsInPlace() returns (status: Status)
      modifies this
      ensures Effect(State(), status) == DeployInPlaceNow(schedule, old(State()), cfg)
    {
      status := StopApplication(id);
      if status != Ok { return; }
      status := SendAppBits();
      if status != Ok { return; }
      status := StartApplication(id, 0);
    }

    method ReconfigureInPlace() returns (status: Status)
      modifies this
      ensures Effect(State(), status) == RestageInPlaceNow(schedule, old(State()), cfg)
    {
      if !cfg.paramsOk { return Failed(BAD_PARAMS); }
      status := Send(id in apps && NameFree(apps, cfg.name, id),
                     apps[id := At(apps, id).(name := cfg.name, settings := cfg.settings,
                                              instances := cfg.instances, run := Stopped)]);
      if status != Ok { return; }
      status := StopApplication(id);
      if status != Ok { return; }
      status := StartApplication(id, 0);
    }

    /** The branches of createOrUpdate. */
    method RunMode() returns (status: Status)
      modifies this
      ensures Effect(State(), status) == CreateOrUpdate(schedule, old(State()), cfg)
    {
      match ModeOf(cfg, id)
      case CreateIt => status := CreateApplication(cfg.started, true);
      case Routes =>
        status := SendProbe();
        if status != Ok { return; }
        status := BindAppRoutes(id, At(apps, id).routes, cfg.routes, cfg.ManagedRoutes());
      case Scale => status := SendPut(id, At(apps, id).(instances := cfg.instances));
      case RenameIt => status := RenameApplication(id, cfg.name);
      case ScaleAndRename =>
        status := Send(id in apps && NameFree(apps, cfg.name, id),
                       apps[id := At(apps, id).(name := cfg.name, instances := cfg.instances)]);
      case DeployInPlace => status := ReplaceBitsInPlace();
      case BlueGreenDeploy => status := RunActions(DeploySteps(cfg));
      case RestageInPlace => status := ReconfigureInPlace();
      case BlueGreenRestage => status := RunActions(RESTAGE_STEPS);
    }

    /** createOrUpdate.  An update of an existing app touches no other app in any state; with neither
        blue-green update switched off it keeps the app up in every state, except exactly when it loses
        the original or replaces it by an app never seen running; and if it reports no error it has done
        what the changed keys ask for. */
    method RunCreateOrUpdate() returns (status: Status)
      modifies this
      ensures Effect(State(), status) == CreateOrUpdate(schedule, old(State()), cfg)
      ensures Tracked(old(State())) ==> OthersUntouched(old(State()), State())
      ensures Tracked(old(State())) && !cfg.noBlueGreenDeploy && !cfg.noBlueGreenRestage ==>
                (IsUp(old(State()), State(), cfg)
                 <==> !LosesApp(schedule, old(State()), cfg) && !ReplacesUnseen(schedule, old(State()), cfg))
      ensures Tracked(old(State())) && status.Ok? ==> Achieved(old(State()), State(), cfg)
    {
      ghost var w0 := State();
      status := RunMode();
      assert Effect(State(), status) == CreateOrUpdate(schedule, w0, cfg);
      if Tracked(w0) {
        UpdateSparesOthers(schedule, w0, cfg);
        if status.Ok? {
          UpdateAchieves(schedule, w0, cfg);
        }
        if !cfg.noBlueGreenDeploy && !cfg.noBlueGreenRestage {
          DefaultUpdateStaysUp(schedule, w0, cfg);
        }
      }
    }
  }
}
