/** Rollback of a failed blue-green run, and what no run touches. */
module BlueGreenRollback {
  import opened Rewind
  import opened CloudController
  import opened AppResource
  import opened AppFrames
  import opened BlueGreen

  // ----- Exact rollback -----

  /** The world a forward step leaves, for step k of a run from w0. */
  function After(s: Schedule, cfg: Config, steps: seq<Step>, w0: World, k: nat): Effect<World>
    requires k < |steps|
  {
    Forward(s, cfg, w0.id, steps[k], Before(ActionsOf(s, cfg, w0.id, steps), k, w0))
  }

  lemma MidwayAfterCreation(s: Schedule, w0: World, cfg: Config, started: bool, sendBits: bool)
    requires Tracked(w0)
    requires Forward(s, cfg, w0.id, RenameOriginal, w0).status.Ok?
    ensures var e := CreateApp(s, Forward(s, cfg, w0.id, RenameOriginal, w0).state, cfg, started, sendBits);
            e.state.id != w0.id ==> Midway(w0, cfg, e.state)
  {
    RenameStep(s, w0, cfg);
    var w := Forward(s, cfg, w0.id, RenameOriginal, w0).state;
    if CreateAllowed(w0, cfg) && s(w.calls).Done? {
      CreateStep(s, w0, cfg, w, started, sendBits);
    } else {
      CreateStepFails(s, w0, cfg, w, started, sendBits);
    }
  }

  /** The steps between creation and deletion work on the new app. */
  lemma MiddleStep(s: Schedule, w0: World, cfg: Config, step: Step, w: World)
    requires Tracked(w0) && (step.CopyBits? || step.StartNew?)
    ensures var e := Forward(s, cfg, w0.id, step, w);
            e.state.id == w.id && (Midway(w0, cfg, w) ==> Midway(w0, cfg, e.state))
  {
    if step.StartNew? {
      StartAppSpec(s, w, w.id, 0);
    }
    var e := Forward(s, cfg, w0.id, step, w);
    assert Kept(w, e.state, w.id);
    if Midway(w0, cfg, w) {
      MidwayKept(w0, cfg, w, e.state);
    }
  }

  /** Once creation has set the id, every later step but the last works on the new app only. */
  lemma {:induction false} MidwayAt(s: Schedule, w0: World, cfg: Config, steps: seq<Step>, k: nat)
    requires Tracked(w0) && IsBlueGreen(steps, cfg) && 0 < k < |steps| - 1
    requires AllOk(ActionsOf(s, cfg, w0.id, steps), k, w0)
    requires After(s, cfg, steps, w0, k).state.id != w0.id
    ensures Midway(w0, cfg, After(s, cfg, steps, w0, k).state)
  {
    var actions := ActionsOf(s, cfg, w0.id, steps);
    BeforeNext(actions, k - 1, w0);
    assert actions[k - 1].forward(Before(actions, k - 1, w0)).status.Ok?;
    var w := Before(actions, k, w0);
    assert w == Forward(s, cfg, w0.id, steps[k - 1], Before(actions, k - 1, w0)).state;
    if k == 1 {
      MidwayAfterCreation(s, w0, cfg, steps[1].started, steps[1].sendBits);
    } else {
      MiddleStep(s, w0, cfg, steps[k], w);
      MidwayAt(s, w0, cfg, steps, k - 1);
    }
  }

  /** A forward step other than the first or last fails after d.SetId, and the compensation reports no
      error: then the run returns the step's own error, and the Cloud Controller is back in its exact
      initial state if and only if the compensation's first request, the delete whose error is ignored,
      was not refused.  It never was when the update does not rename the app, because renaming the
      original back can only succeed if the name is free again.  The Terraform state then keeps the id
      of an app that no longer exists. */
  lemma RollbackExact(s: Schedule, w0: World, cfg: Config, steps: seq<Step>, k: nat)
    requires Tracked(w0) && IsBlueGreen(steps, cfg) && 0 < k < |steps| - 1
    requires NamedInState(w0, cfg)
    requires StopsAt(ActionsOf(s, cfg, w0.id, steps), w0, k)
    requires After(s, cfg, steps, w0, k).status.Failed?
    requires After(s, cfg, steps, w0, k).state.id != w0.id
    requires Undo(s, cfg, w0.id, After(s, cfg, steps, w0, k).state).status.Ok?
    ensures var out, deletion := UpdateBg(s, cfg, steps, w0), s(After(s, cfg, steps, w0, k).state.calls);
            && out.status == After(s, cfg, steps, w0, k).status
            && (out.state.apps == w0.apps <==> !deletion.Refused?)
            && (out.state.apps == w0.apps <==> w0.issued !in out.state.apps)
            && (cfg.name == w0.apps[w0.id].name ==> out.state.apps == w0.apps)
            && IntactThroughout(w0, out.state)
            && out.state.id == w0.issued && out.state.id !in w0.apps
            && (out.state.id !in out.state.apps <==> !deletion.Refused?)
  {
    MidwayAt(s, w0, cfg, steps, k);
    UndoMidway(s, w0, cfg, After(s, cfg, steps, w0, k).state);
    RunStops(ActionsOf(s, cfg, w0.id, steps), REWIND_FAILURE, w0, k);
  }

  // ----- Other apps -----

  /** On the way from w0 to w no app of w0 but the original has been touched, and the state points to
      the original or to a new app. */
  ghost predicate OthersUntouched(w0: World, w: World) {
    && w.issued >= w0.issued && (w.id == w0.id || w.id >= w0.issued)
    && w0.log <= w.log
    && OthersSame(w0, w.apps)
    && forall k :: |w0.log| <= k < |w.log| ==> OthersSame(w0, w.log[k].apps)
  }

  ghost predicate OthersSame(w0: World, apps: Apps) {
    forall h :: h in w0.apps && h != w0.id ==> h in apps && apps[h] == w0.apps[h]
  }

  lemma OthersKept(w0: World, w: World, w': World, g: Guid)
    requires Tracked(w0) && OthersUntouched(w0, w) && Kept(w, w', g) && (g == w0.id || g >= w0.issued)
    ensures OthersUntouched(w0, w')
  {
    NearKeepsOthers(w0, w.apps, w'.apps, g);
    forall k | |w0.log| <= k < |w'.log|
      ensures OthersSame(w0, w'.log[k].apps)
    {
      if k < |w.log| {
        assert w'.log[k] == w.log[k];
      } else {
        NearKeepsOthers(w0, w.apps, w'.log[k].apps, g);
      }
    }
  }

  lemma NearKeepsOthers(w0: World, a: Apps, b: Apps, g: Guid)
    requires Tracked(w0) && OthersSame(w0, a) && Near(a, b, g) && (g == w0.id || g >= w0.issued)
    ensures OthersSame(w0, b)
  {
    forall h | h in w0.apps && h != w0.id
      ensures h in b && b[h] == w0.apps[h]
    {
      assert Same(a, b, h);
    }
  }

  lemma ForwardSparesOthers(s: Schedule, cfg: Config, w0: World, step: Step, w: World)
    requires Tracked(w0) && OthersUntouched(w0, w)
    ensures OthersUntouched(w0, Forward(s, cfg, w0.id, step, w).state)
  {
    match step
    case RenameOriginal =>
    case DeleteOriginal =>
    case CopyBits =>
      assert Kept(w, CopyBitsTo(s, w, w0.id, w.id).state, w.id);
      OthersKept(w0, w, CopyBitsTo(s, w, w0.id, w.id).state, w.id);
    case StartNew =>
      if cfg.started {
        StartAppSpec(s, w, w.id, 0);
        OthersKept(w0, w, StartApp(s, w, w.id, 0).state, w.id);
      }
    case CreateNew(started, sendBits) =>
      CreateSparesOthers(s, cfg, w0, w, started, sendBits);
  }

  lemma CreateSparesOthers(s: Schedule, cfg: Config, w0: World, w: World, started: bool, sendBits: bool)
    requires Tracked(w0) && OthersUntouched(w0, w)
    ensures OthersUntouched(w0, CreateApp(s, w, cfg, started, sendBits).state)
  {
    if cfg.paramsOk {
      var created := Create(s, w, NewApp(cfg));
      assert OthersUntouched(w0, created.state);
      if created.status.Ok? {
        var pointed := SetId(created.state, w.issued);
        assert OthersUntouched(w0, pointed);
        FillAppSpec(s, pointed, cfg, started, sendBits);
        OthersKept(w0, pointed, FillApp(s, pointed, cfg, w.issued, started, sendBits).state, w.issued);
      }
    }
  }

  lemma UndoSparesOthers(s: Schedule, cfg: Config, w0: World, w: World)
    requires Tracked(w0) && OthersUntouched(w0, w)
    ensures OthersUntouched(w0, Undo(s, cfg, w0.id, w).state)
  {
  }

  /** Whatever the list of steps and whatever fails, no run touches any other app, in any state. */
  lemma NoOtherAppTouched(s: Schedule, cfg: Config, steps: seq<Step>, w0: World)
    requires Tracked(w0)
    ensures OthersUntouched(w0, UpdateBg(s, cfg, steps, w0).state)
  {
    var actions := ActionsOf(s, cfg, w0.id, steps);
    forall a, t | a in actions && OthersUntouched(w0, t)
      ensures OthersUntouched(w0, a.forward(t).state)
      ensures a.reversePrevious.Some? ==> OthersUntouched(w0, a.reversePrevious.value(t).state)
    {
      var i :| 0 <= i < |actions| && actions[i] == a;
      ForwardSparesOthers(s, cfg, w0, steps[i], t);
      UndoSparesOthers(s, cfg, w0, t);
    }
    RunKeeps(actions, REWIND_FAILURE, w0, (t: World) => OthersUntouched(w0, t));
  }
}
