/** Blue-green updates: what every state of every run keeps, how a failed run is rolled back, and
    what a successful run leaves behind.  All statements hold for every schedule. */
module BlueGreen {
  import opened Wrappers
  import opened Rewind
  import opened CloudController
  import opened AppResource
  import opened AppFrames
  import opened RequestCounts

  // ----- Runs of step lists, without the closures -----

  function Undone(s: Schedule, cfg: Config, orig: Guid, failed: Effect<World>): Effect<World>
    requires failed.status.Failed?
  {
    var u := Undo(s, cfg, orig, failed.state);
    Effect(u.state, if u.status.Failed? then Failed(RewindFailure(REWIND_FAILURE, u.status.message)) else failed.status)
  }

  function RunSteps(s: Schedule, cfg: Config, orig: Guid, steps: seq<Step>, w: World): Effect<World>
    decreases |steps|
  {
    if steps == [] then
      Effect(w, Ok)
    else
      var e := Forward(s, cfg, orig, steps[0], w);
      if e.status.Ok? then RunSteps(s, cfg, orig, steps[1..], e.state)
      else if e.status.Failed? && HasUndo(steps[0]) then Undone(s, cfg, orig, e)
      else e
  }

  lemma {:induction false} RunIsRunSteps(s: Schedule, cfg: Config, orig: Guid, steps: seq<Step>, w: World)
    ensures Run(ActionsOf(s, cfg, orig, steps), REWIND_FAILURE, w) == RunSteps(s, cfg, orig, steps, w)
    decreases |steps|
  {
    if steps != [] {
      var actions := ActionsOf(s, cfg, orig, steps);
      assert actions[1..] == ActionsOf(s, cfg, orig, steps[1..]);
      var e := actions[0].forward(w);
      assert e == Forward(s, cfg, orig, steps[0], w);
      if e.status.Ok? {
        RunIsRunSteps(s, cfg, orig, steps[1..], e.state);
      }
    }
  }

  // ----- The states of a run -----

  /** The state points to an existing app and every guid in use has been issued. */
  ghost predicate Tracked(w: World) {
    && w.id in w.apps
    && forall g :: g in w.apps ==> NO_ID < g < w.issued
  }

  /** The app that w0 points to is still there and at most its name differs. */
  ghost predicate Intact(w0: World, apps: Apps)
    requires w0.id in w0.apps
  {
    w0.id in apps && apps[w0.id].(name := w0.apps[w0.id].name) == w0.apps[w0.id]
  }

  /** The state points to an app that did not exist in w0 and is complete. */
  ghost predicate Ready(w0: World, snap: Snapshot, cfg: Config, bits: Option<string>, run: RunState) {
    snap.id !in w0.apps && snap.id in snap.apps && IsFilled(snap.apps[snap.id], cfg, bits, run)
  }

  ghost predicate Safe(w0: World, snap: Snapshot, cfg: Config, bits: Option<string>, run: RunState)
    requires w0.id in w0.apps
  {
    Intact(w0, snap.apps) || Ready(w0, snap, cfg, bits, run)
  }

  /** Every state passed through on the way from w0 to w is safe. */
  ghost predicate NeverDown(w0: World, w: World, cfg: Config, bits: Option<string>, run: RunState)
    requires w0.id in w0.apps
  {
    forall k :: |w0.log| <= k < |w.log| ==> Safe(w0, w.log[k], cfg, bits, run)
  }

  ghost predicate IntactThroughout(w0: World, w: World)
    requires w0.id in w0.apps
  {
    && w0.log <= w.log
    && Intact(w0, w.apps)
    && forall k :: |w0.log| <= k < |w.log| ==> Intact(w0, w.log[k].apps)
  }

  /** In every state on the way from w0 to w the app that w0 points to has this name. */
  ghost predicate CalledThroughout(w0: World, w: World, name: string) {
    forall k :: |w0.log| <= k < |w.log| ==> w0.id in w.log[k].apps && w.log[k].apps[w0.id].name == name
  }

  lemma CalledKept(w0: World, w: World, w': World, g: Guid, name: string)
    requires CalledThroughout(w0, w, name) && w0.id in w.apps && w.apps[w0.id].name == name
    requires Kept(w, w', g) && g != w0.id
    ensures CalledThroughout(w0, w', name)
  {
    forall k | |w0.log| <= k < |w'.log|
      ensures w0.id in w'.log[k].apps && w'.log[k].apps[w0.id].name == name
    {
      if k < |w.log| {
        assert w'.log[k] == w.log[k];
      } else {
        assert Same(w.apps, w'.log[k].apps, w0.id);
      }
    }
  }

  lemma IntactKept(w0: World, w: World, w': World, g: Guid)
    requires w0.id in w0.apps && IntactThroughout(w0, w) && Kept(w, w', g) && g != w0.id
    ensures IntactThroughout(w0, w')
  {
    assert Same(w.apps, w'.apps, w0.id);
    forall k | |w0.log| <= k < |w'.log|
      ensures Intact(w0, w'.log[k].apps)
    {
      if k < |w.log| {
        assert w'.log[k] == w.log[k];
      } else {
        assert Same(w.apps, w'.log[k].apps, w0.id);
      }
    }
  }

  // ----- Conditions on the start state and the schedule -----

  /** The venerable name is free, so the first request is legal. */
  ghost predicate RenameAllowed(w: World, cfg: Config) {
    NameFree(w.apps, Venerable(cfg.OrigName()), w.id)
  }

  /** Once the original is renamed, creating the new app is legal. */
  ghost predicate CreateAllowed(w: World, cfg: Config) {
    cfg.paramsOk && cfg.name != Venerable(cfg.OrigName()) && NameFree(w.apps, cfg.name, w.id)
  }

  /** The run reaches creation, and creation fails before d.SetId. */
  ghost predicate FailsBeforeSetId(s: Schedule, w: World, cfg: Config) {
    && RenameAllowed(w, cfg) && s(w.calls).Done?
    && !(CreateAllowed(w, cfg) && s(w.calls + 1).Done?)
  }

  /** The request number of the delete in the compensation of a creation that failed before d.SetId. */
  function UndoCall(w: World, cfg: Config): nat {
    if cfg.paramsOk then w.calls + 2 else w.calls + 1
  }

  /** The compensation deletes the original: creation fails before d.SetId, so that d.Id() is still
      the original's guid, and the delete is carried out. */
  ghost predicate LosesOriginal(s: Schedule, w: World, cfg: Config) {
    FailsBeforeSetId(s, w, cfg) && !s(UndoCall(w, cfg)).Refused?
  }

  // ----- The steps -----

  ghost predicate Renamed(w0: World, cfg: Config, w: World)
    requires w0.id in w0.apps
  {
    && w.apps == w0.apps[w0.id := w0.apps[w0.id].(name := Venerable(cfg.OrigName()))]
    && w.id == w0.id && w.issued == w0.issued && w.calls == w0.calls + 1
    && IntactThroughout(w0, w) && CalledThroughout(w0, w, Venerable(cfg.OrigName()))
  }

  lemma RenameStep(s: Schedule, w0: World, cfg: Config)
    requires Tracked(w0)
    ensures var e := Forward(s, cfg, w0.id, RenameOriginal, w0);
            && IntactThroughout(w0, e.state)
            && !e.status.Panicked?
            && (e.status.Ok? <==> RenameAllowed(w0, cfg) && s(w0.calls).Done?)
            && (e.status.Ok? ==> Renamed(w0, cfg, e.state))
  {
  }

  /** Between d.SetId and the last step: the original has its venerable name, the state points to the
      new app, and all other apps are as they were. */
  ghost predicate Midway(w0: World, cfg: Config, w: World)
    requires w0.id in w0.apps
  {
    && w.id == w0.issued
    && w.id in w.apps && w.apps[w.id].name == cfg.name
    && SameBut(w0.apps[w0.id := w0.apps[w0.id].(name := Venerable(cfg.OrigName()))], w.apps, w.id)
    && IntactThroughout(w0, w) && CalledThroughout(w0, w, Venerable(cfg.OrigName()))
  }

  lemma MidwayKept(w0: World, cfg: Config, w: World, w': World)
    requires Tracked(w0) && Midway(w0, cfg, w) && Kept(w, w', w.id)
    ensures Midway(w0, cfg, w')
  {
    var renamed := w0.apps[w0.id := w0.apps[w0.id].(name := Venerable(cfg.OrigName()))];
    SameButTrans(renamed, w.apps, w'.apps, w.id);
    IntactKept(w0, w, w', w.id);
    assert Same(renamed, w.apps, w0.id);
    CalledKept(w0, w, w', w.id, Venerable(cfg.OrigName()));
  }

  lemma CreateStep(s: Schedule, w0: World, cfg: Config, w: World, started: bool, sendBits: bool)
    requires Tracked(w0) && Renamed(w0, cfg, w)
    requires CreateAllowed(w0, cfg) && s(w.calls).Done?
    ensures var e := CreateApp(s, w, cfg, started, sendBits);
            && Midway(w0, cfg, e.state)
            && (e.status.Panicked? ==> sendBits)
            && (e.status.Ok? ==> IsFilled(e.state.apps[e.state.id], cfg, if sendBits then Some(cfg.path) else None,
                                          Confirmed(started, cfg.instances)))
  {
    var g := w.issued;
    var created := Create(s, w, NewApp(cfg));
    assert created.status.Ok?;
    assert IntactThroughout(w0, created.state);
    var pointed := SetId(created.state, g);
    assert IntactThroughout(w0, pointed);
    assert Midway(w0, cfg, pointed);
    FillAppSpec(s, pointed, cfg, started, sendBits);
    MidwayKept(w0, cfg, pointed, FillApp(s, pointed, cfg, g, started, sendBits).state);
  }

  lemma CreateStepFails(s: Schedule, w0: World, cfg: Config, w: World, started: bool, sendBits: bool)
    requires Tracked(w0) && Renamed(w0, cfg, w)
    requires !(CreateAllowed(w0, cfg) && s(w.calls).Done?)
    ensures var e := CreateApp(s, w, cfg, started, sendBits);
            && e.status.Failed?
            && IntactThroughout(w0, e.state)
            && e.state.id == w0.id
            && e.state.calls == UndoCall(w0, cfg)
            && SameBut(w.apps, e.state.apps, w0.issued)
  {
    if cfg.paramsOk {
      var created := Create(s, w, NewApp(cfg));
      if !CreateAllowed(w0, cfg) {
        if cfg.name == Venerable(cfg.OrigName()) {
          assert w.apps[w0.id].name == cfg.name;
        } else {
          var h :| h in w0.apps && h != w0.id && w0.apps[h].name == cfg.name;
          assert w.apps[h].name == cfg.name;
        }
        assert !NameFree(w.apps, cfg.name, w.issued);
      }
      assert !created.status.Ok?;
      assert IntactThroughout(w0, created.state);
    }
  }

  /** The name the update takes the app to have: the one in the Terraform state, or the wanted one if the
      state has none. */
  ghost predicate NamedInState(w0: World, cfg: Config)
    requires w0.id in w0.apps
  {
    w0.apps[w0.id].name == if cfg.oldName != "" then cfg.oldName else cfg.name
  }

  /** The compensation after d.SetId touches the new app and the original's name only. */
  lemma UndoMidway(s: Schedule, w0: World, cfg: Config, w: World)
    requires Tracked(w0) && Midway(w0, cfg, w)
    ensures var u := Undo(s, cfg, w0.id, w);
            && IntactThroughout(w0, u.state)
            && u.state.id == w.id && (w.id in u.state.apps <==> s(w.calls).Refused?)
            && (u.status.Ok? && NamedInState(w0, cfg) ==>
                  && (u.state.apps == w0.apps <==> !s(w.calls).Refused?)
                  && (cfg.name == w0.apps[w0.id].name ==> u.state.apps == w0.apps))
  {
    var g, orig := w.id, w0.id;
    var d := Delete(s, w, g);
    assert SameBut(w.apps, d.state.apps, g);
    assert Same(w.apps, d.state.apps, orig);
    assert IntactThroughout(w0, d.state);
    var u := Rename(s, d.state, orig, cfg.OrigName());
    assert IntactThroughout(w0, u.state);
    if u.status.Ok? && NamedInState(w0, cfg) {
      var a1 := w0.apps[orig := w0.apps[orig].(name := Venerable(cfg.OrigName()))];
      SameButTrans(a1, w.apps, d.state.apps, g);
      assert Same(a1, d.state.apps, orig);
      forall h: Guid | h != g
        ensures Same(w0.apps, u.state.apps, h)
      {
        assert Same(a1, d.state.apps, h);
      }
      if g !in u.state.apps {
        assert g !in w0.apps;
        forall h: Guid
          ensures Same(w0.apps, u.state.apps, h)
        {
        }
        SameEverywhere(w0.apps, u.state.apps);
      }
    }
  }

  lemma SameEverywhere(a: Apps, b: Apps)
    requires forall h: Guid :: Same(a, b, h)
    ensures a == b
  {
    assert forall h: Guid :: h in a <==> h in b by {
      forall h: Guid
        ensures h in a <==> h in b
      {
        assert Same(a, b, h);
      }
    }
    assert a.Keys == b.Keys;
    forall h | h in a
      ensures a[h] == b[h]
    {
      assert Same(a, b, h);
    }
  }

  /** The compensation before d.SetId deletes the original, unless the delete is refused. */
  lemma UndoBeforeSetId(s: Schedule, w0: World, cfg: Config, w: World)
    requires Tracked(w0) && IntactThroughout(w0, w) && w.id == w0.id
    ensures var u := Undo(s, cfg, w0.id, w);
            if s(w.calls).Refused? then
              IntactThroughout(w0, u.state)
            else
              && u.state.apps == w.apps - {w0.id}
              && u.state.id == w0.id
              && u.status == Failed(REQUEST_FAILED)
              && |u.state.log| > |w.log| && u.state.log[|w.log|] == Snapshot(w.apps - {w0.id}, w0.id)
  {
  }

  /** The last step deletes the original once the new app is complete. */
  lemma DeleteStep(s: Schedule, w0: World, cfg: Config, w: World, bits: Option<string>, run: RunState)
    requires Tracked(w0) && Midway(w0, cfg, w)
    requires IsFilled(w.apps[w.id], cfg, bits, run)
    ensures var e := Delete(s, w, w0.id);
            && NeverDown(w0, e.state, cfg, bits, run)
            && !e.status.Panicked?
            && (e.status.Ok? ==> Replaced(w0, e.state, cfg, bits, run))
  {
    var e := Delete(s, w, w0.id);
    assert Ready(w0, Snapshot(w.apps - {w0.id}, w.id), cfg, bits, run);
    forall k | |w0.log| <= k < |e.state.log|
      ensures Safe(w0, e.state.log[k], cfg, bits, run)
    {
      if k < |w.log| {
        assert e.state.log[k] == w.log[k];
      }
    }
    if e.status.Ok? {
      forall h | h in w0.apps && h != w0.id
        ensures h in e.state.apps && e.state.apps[h] == w0.apps[h]
      {
        assert Same(w0.apps[w0.id := w0.apps[w0.id].(name := Venerable(cfg.OrigName()))], w.apps, h);
      }
      forall h | h in e.state.apps && h != w.id
        ensures h in w0.apps
      {
        assert Same(w0.apps[w0.id := w0.apps[w0.id].(name := Venerable(cfg.OrigName()))], w.apps, h);
      }
      assert e.state.apps.Keys == w0.apps.Keys - {w0.id} + {w0.issued};
    }
  }

  /** The end state of a successful run: the original is gone, the state points to a fresh complete
      app, and every other app is untouched. */
  ghost predicate Replaced(w0: World, w: World, cfg: Config, bits: Option<string>, run: RunState) {
    && w.id == w0.issued
    && w.apps.Keys == w0.apps.Keys - {w0.id} + {w.id}
    && (forall h :: h in w0.apps && h != w0.id ==> h in w.apps && w.apps[h] == w0.apps[h])
    && w.id in w.apps && IsFilled(w.apps[w.id], cfg, bits, run)
  }

  // ----- Whole runs -----

  /** How a run of either list begins, and where it can end in its first two steps. */
  lemma FirstTwo(s: Schedule, w0: World, cfg: Config, started: bool, sendBits: bool, rest: seq<Step>)
    requires Tracked(w0)
    ensures var e1 := Forward(s, cfg, w0.id, RenameOriginal, w0);
            var e2 := CreateApp(s, e1.state, cfg, started, sendBits);
            var out := RunSteps(s, cfg, w0.id, [RenameOriginal, CreateNew(started, sendBits)] + rest, w0);
            if !(RenameAllowed(w0, cfg) && s(w0.calls).Done?) then
              out == e1 && e1.status.Failed? && IntactThroughout(w0, out.state) && out.state.id == w0.id
            else if FailsBeforeSetId(s, w0, cfg) then
              && e2.status.Failed? && IntactThroughout(w0, e2.state) && e2.state.id == w0.id
              && e2.state.calls == UndoCall(w0, cfg)
              && SameBut(e1.state.apps, e2.state.apps, w0.issued)
              && out == Undone(s, cfg, w0.id, e2)
            else
              && Midway(w0, cfg, e2.state)
              && match e2.status
                 case Ok =>
                   && IsFilled(e2.state.apps[e2.state.id], cfg, if sendBits then Some(cfg.path) else None,
                               Confirmed(started, cfg.instances))
                   && out == RunSteps(s, cfg, w0.id, rest, e2.state)
                 case Failed(_) => out == Undone(s, cfg, w0.id, e2)
                 case Panicked(_) => out == e2 && sendBits
  {
    var steps := [RenameOriginal, CreateNew(started, sendBits)] + rest;
    assert steps[1..] == [CreateNew(started, sendBits)] + rest;
    assert steps[1..][1..] == rest;
    RenameStep(s, w0, cfg);
    var e1 := Forward(s, cfg, w0.id, RenameOriginal, w0);
    if e1.status.Ok? {
      assert RunSteps(s, cfg, w0.id, steps, w0) == RunSteps(s, cfg, w0.id, steps[1..], e1.state);
      if FailsBeforeSetId(s, w0, cfg) {
        CreateStepFails(s, w0, cfg, e1.state, started, sendBits);
      } else {
        CreateStep(s, w0, cfg, e1.state, started, sendBits);
      }
    }
  }

  /** What a run that loses the original does: the original is deleted while the state still points
      to it, and the error is that of the failed renaming of an app that no longer exists. */
  ghost predicate OriginalLost(w0: World, out: Effect<World>)
    requires w0.id in w0.apps
  {
    && out.status == Failed(RewindFailure(REWIND_FAILURE, REQUEST_FAILED))
    && out.state.id == w0.id && w0.id !in out.state.apps
    && SameBut(w0.apps - {w0.id}, out.state.apps, w0.issued)
    && exists k :: |w0.log| <= k < |out.state.log| && Gone(w0, out.state.log[k])
  }

  ghost predicate Gone(w0: World, snap: Snapshot) {
    snap.id == w0.id && w0.id !in snap.apps
  }

  lemma LosingRun(s: Schedule, w0: World, cfg: Config, started: bool, sendBits: bool, rest: seq<Step>)
    requires Tracked(w0) && FailsBeforeSetId(s, w0, cfg)
    ensures var out := RunSteps(s, cfg, w0.id, [RenameOriginal, CreateNew(started, sendBits)] + rest, w0);
            NeverSetId(s, w0, cfg, out)
  {
    FirstTwo(s, w0, cfg, started, sendBits, rest);
    var e1 := Forward(s, cfg, w0.id, RenameOriginal, w0);
    var e2 := CreateApp(s, e1.state, cfg, started, sendBits);
    UndoBeforeSetId(s, w0, cfg, e2.state);
    var out := RunSteps(s, cfg, w0.id, [RenameOriginal, CreateNew(started, sendBits)] + rest, w0);
    if LosesOriginal(s, w0, cfg) {
      assert Gone(w0, out.state.log[|e2.state.log|]);
      forall h: Guid | h != w0.issued
        ensures Same(w0.apps - {w0.id}, out.state.apps, h)
      {
        assert Same(e1.state.apps, e2.state.apps, h);
      }
    }
  }

  // ----- Up to the last step -----

  ghost predicate IsBlueGreen(steps: seq<Step>, cfg: Config) {
    steps == DeploySteps(cfg) || steps == RESTAGE_STEPS
  }

  /** Creation in the renamed space: beyond the name and the parameters nothing can be rejected. */
  lemma CreateTakes(s: Schedule, w0: World, cfg: Config, w: World, started: bool, sendBits: bool)
    requires Tracked(w0) && Renamed(w0, cfg, w)
    ensures var e := CreateApp(s, w, cfg, started, sendBits);
            if CreateAllowed(w0, cfg) then
              && Takes(s, w, e, 1 + FillCalls(cfg, started, sendBits))
              && (e.status.Panicked? <==>
                  sendBits && !e.status.Ok? && e.state.calls == w.calls + 1 + CallsBeforeBits(cfg) + 2)
            else !e.status.Ok?
  {
    var e := CreateApp(s, w, cfg, started, sendBits);
    if CreateAllowed(w0, cfg) {
      var created := Create(s, w, NewApp(cfg));
      assert NameFree(w.apps, cfg.name, w.issued);
      AllDoneOne(s, w.calls);
      if created.status.Ok? {
        var pointed := SetId(created.state, w.issued);
        FillAppTakes(s, pointed, cfg, started, sendBits);
      }
      TakesThen(s, w, created, e, 1, FillCalls(cfg, started, sendBits));
    } else {
      CreateStepFails(s, w0, cfg, w, started, sendBits);
    }
  }

  /** A run that ended without success before its last step. */
  ghost predicate EndedEarly(s: Schedule, w0: World, cfg: Config, out: Effect<World>, mayPanic: bool)
    requires w0.id in w0.apps
  {
    && !out.status.Ok?
    && (out.status.Panicked? ==> mayPanic && Midway(w0, cfg, out.state))
    && if LosesOriginal(s, w0, cfg) then OriginalLost(w0, out) else IntactThroughout(w0, out.state)
  }

  /** The two names are free when they are claimed, the parameters parse, and nothing stops the first n
      requests. */
  ghost predicate Reaches(s: Schedule, w0: World, cfg: Config, n: nat) {
    RenameAllowed(w0, cfg) && CreateAllowed(w0, cfg) && AllDone(s, w0.calls, w0.calls + n)
  }

  /** The run gets to d.SetId: its first two requests are acknowledged. */
  ghost predicate SetIdReached(s: Schedule, w0: World, cfg: Config) {
    Reaches(s, w0, cfg, 2)
  }

  /** The request of a deployment that uploads the bits. */
  function UploadCall(w0: World, cfg: Config): nat { w0.calls + 3 + CallsBeforeBits(cfg) }

  /** A run that ended before d.SetId. */
  ghost predicate NeverSetId(s: Schedule, w0: World, cfg: Config, out: Effect<World>)
    requires w0.id in w0.apps
  {
    && out.status.Failed? && out.state.id == w0.id
    && if LosesOriginal(s, w0, cfg) then OriginalLost(w0, out) else IntactThroughout(w0, out.state)
  }

  /** A run that ended after d.SetId and before its last step: the step in `failed` stopped at the first
      request before `limit` that was not acknowledged, and was compensated unless it was the upload,
      which panics. */
  ghost predicate StopsMidway(s: Schedule, w0: World, cfg: Config, out: Effect<World>, failed: Effect<World>,
                              limit: nat, uploads: bool)
    requires w0.id in w0.apps
  {
    && !failed.status.Ok? && Midway(w0, cfg, failed.state)
    && failed.state.calls > w0.calls + 2 && FirstNotDone(s, w0.calls, limit, failed.state.calls - 1)
    && (failed.status.Panicked? <==> uploads && failed.state.calls - 1 == UploadCall(w0, cfg))
    && out == if failed.status.Failed? then Undone(s, cfg, w0.id, failed) else failed
  }

  lemma StopsMidwayIsEarly(s: Schedule, w0: World, cfg: Config, out: Effect<World>, failed: Effect<World>,
                           limit: nat, uploads: bool)
    requires Tracked(w0) && SetIdReached(s, w0, cfg) && StopsMidway(s, w0, cfg, out, failed, limit, uploads)
    ensures EndedEarly(s, w0, cfg, out, uploads)
  {
    NotLost(s, w0, cfg, 2);
    UndoMidway(s, w0, cfg, failed.state);
  }

  /** Creation, once the original has been renamed: where it stops. */
  lemma CreationStops(s: Schedule, w0: World, cfg: Config, started: bool, sendBits: bool)
    requires Tracked(w0) && SetIdReached(s, w0, cfg)
    ensures var e1 := Forward(s, cfg, w0.id, RenameOriginal, w0);
            var e2 := CreateApp(s, e1.state, cfg, started, sendBits);
            var n := 2 + FillCalls(cfg, started, sendBits);
            && e1.status.Ok?
            && Takes(s, w0, e2, n) && (!e2.status.Ok? ==> e2.state.calls > w0.calls + 2)
            && (e2.status.Panicked? <==> sendBits && !e2.status.Ok? && e2.state.calls - 1 == UploadCall(w0, cfg))
  {
    RenameStep(s, w0, cfg);
    var e1 := Forward(s, cfg, w0.id, RenameOriginal, w0);
    AllDoneOne(s, w0.calls);
    assert s(w0.calls).Done? && s(w0.calls + 1).Done?;
    CreateTakes(s, w0, cfg, e1.state, started, sendBits);
    var e2 := CreateApp(s, e1.state, cfg, started, sendBits);
    TakesThen(s, w0, e1, e2, 1, 1 + FillCalls(cfg, started, sendBits));
  }

  /** Both lists up to the new app: either all requests were acknowledged, or the run has ended. */
  lemma AfterTwo(s: Schedule, w0: World, cfg: Config, started: bool, sendBits: bool, rest: seq<Step>)
    returns (e: Effect<World>)
    requires Tracked(w0)
    ensures var out := RunSteps(s, cfg, w0.id, [RenameOriginal, CreateNew(started, sendBits)] + rest, w0);
            var n := 2 + FillCalls(cfg, started, sendBits);
            if Reaches(s, w0, cfg, n) then
              var w := e.state;
              && e.status.Ok? && Midway(w0, cfg, w) && w.calls == w0.calls + n
              && IsFilled(w.apps[w.id], cfg, if sendBits then Some(cfg.path) else None,
                          Confirmed(started, cfg.instances))
              && out == RunSteps(s, cfg, w0.id, rest, w)
            else if SetIdReached(s, w0, cfg) then
              StopsMidway(s, w0, cfg, out, e, w0.calls + n, sendBits)
            else
              NeverSetId(s, w0, cfg, out)
  {
    FirstTwo(s, w0, cfg, started, sendBits, rest);
    FirstTwoRequests(s, w0, cfg);
    var e1 := Forward(s, cfg, w0.id, RenameOriginal, w0);
    e := CreateApp(s, e1.state, cfg, started, sendBits);
    if SetIdReached(s, w0, cfg) {
      CreationStops(s, w0, cfg, started, sendBits);
      assert Reaches(s, w0, cfg, 2 + FillCalls(cfg, started, sendBits)) <==> e.status.Ok?;
    } else {
      EndsBeforeSetId(s, w0, cfg, started, sendBits, rest);
    }
  }

  lemma EndsBeforeSetId(s: Schedule, w0: World, cfg: Config, started: bool, sendBits: bool, rest: seq<Step>)
    requires Tracked(w0) && !SetIdReached(s, w0, cfg)
    ensures NeverSetId(s, w0, cfg, RunSteps(s, cfg, w0.id, [RenameOriginal, CreateNew(started, sendBits)] + rest, w0))
  {
    FirstTwoRequests(s, w0, cfg);
    if FailsBeforeSetId(s, w0, cfg) {
      LosingRun(s, w0, cfg, started, sendBits, rest);
    } else {
      FirstTwo(s, w0, cfg, started, sendBits, rest);
    }
  }

  lemma FirstTwoRequests(s: Schedule, w0: World, cfg: Config)
    ensures SetIdReached(s, w0, cfg) <==>
            RenameAllowed(w0, cfg) && s(w0.calls).Done? && !FailsBeforeSetId(s, w0, cfg)
    ensures forall n: nat :: n >= 2 && Reaches(s, w0, cfg, n) ==> SetIdReached(s, w0, cfg)
  {
    AllDoneOne(s, w0.calls);
    AllDoneOne(s, w0.calls + 1);
    AllDoneSplit(s, w0.calls, w0.calls + 1, w0.calls + 2);
  }

  lemma JustDelete(s: Schedule, cfg: Config, orig: Guid, w: World)
    ensures RunSteps(s, cfg, orig, [DeleteOriginal], w) == Delete(s, w, orig)
  {
    assert [DeleteOriginal][1..] == [];
  }

  /** The third step of a restage gives the new app the original's bits. */
  lemma CopyStep(s: Schedule, w0: World, cfg: Config, w: World)
    requires Tracked(w0) && Midway(w0, cfg, w) && IsFilled(w.apps[w.id], cfg, None, Stopped)
    ensures var e := Forward(s, cfg, w0.id, CopyBits, w);
            && Midway(w0, cfg, e.state) && !e.status.Panicked? && Takes(s, w, e, 1)
            && (e.status.Ok? ==> IsFilled(e.state.apps[e.state.id], cfg, w0.apps[w0.id].bits, Stopped))
  {
    var e := CopyBitsTo(s, w, w0.id, w.id);
    assert Kept(w, e.state, w.id);
    MidwayKept(w0, cfg, w, e.state);
    AllDoneOne(s, w.calls);
  }

  /** The fourth starts it, if it is wanted started, and never sees it running. */
  lemma StartStep(s: Schedule, w0: World, cfg: Config, w: World, bits: Option<string>)
    requires Tracked(w0) && Midway(w0, cfg, w) && IsFilled(w.apps[w.id], cfg, bits, Stopped)
    ensures var e := Forward(s, cfg, w0.id, StartNew, w);
            && Midway(w0, cfg, e.state) && !e.status.Panicked? && Takes(s, w, e, if cfg.started then 3 else 0)
            && (e.status.Ok? ==> IsFilled(e.state.apps[e.state.id], cfg, bits, Confirmed(cfg.started, 0)))
  {
    AllDoneOne(s, w.calls);
    if cfg.started {
      StartAppSpec(s, w, w.id, 0);
      StartAppTakes(s, w, w.id, 0);
      MidwayKept(w0, cfg, w, StartApp(s, w, w.id, 0).state);
    }
  }

  lemma RunStep(s: Schedule, cfg: Config, orig: Guid, step: Step, rest: seq<Step>, w: World)
    requires HasUndo(step)
    ensures var e := Forward(s, cfg, orig, step, w);
            RunSteps(s, cfg, orig, [step] + rest, w) ==
            match e.status
            case Ok => RunSteps(s, cfg, orig, rest, e.state)
            case Failed(_) => Undone(s, cfg, orig, e)
            case Panicked(_) => e
  {
    assert ([step] + rest)[1..] == rest;
  }

  /** The two middle steps of a restage. */
  function MiddleSteps(s: Schedule, cfg: Config, orig: Guid, w: World): Effect<World> {
    var w1 :- Forward(s, cfg, orig, CopyBits, w);
    Forward(s, cfg, orig, StartNew, w1)
  }

  /** From a new app without bits they stop at the first request that is not acknowledged. */
  lemma RestageMiddle(s: Schedule, w0: World, cfg: Config, w: World) returns (e: Effect<World>)
    requires Tracked(w0) && Midway(w0, cfg, w) && IsFilled(w.apps[w.id], cfg, None, Stopped)
    ensures e == MiddleSteps(s, cfg, w0.id, w)
    ensures var out := RunSteps(s, cfg, w0.id, [CopyBits, StartNew, DeleteOriginal], w);
            && Takes(s, w, e, 1 + if cfg.started then 3 else 0)
            && Midway(w0, cfg, e.state) && !e.status.Panicked?
            && if e.status.Ok? then
                 && IsFilled(e.state.apps[e.state.id], cfg, w0.apps[w0.id].bits, Confirmed(cfg.started, 0))
                 && out == Delete(s, e.state, w0.id)
               else
                 out == Undone(s, cfg, w0.id, e)
  {
    var orig, m := w0.id, if cfg.started then 3 else 0;
    CopyStep(s, w0, cfg, w);
    var e1 := Forward(s, cfg, orig, CopyBits, w);
    assert [CopyBits] + [StartNew, DeleteOriginal] == [CopyBits, StartNew, DeleteOriginal];
    RunStep(s, cfg, orig, CopyBits, [StartNew, DeleteOriginal], w);
    e := e1;
    if e1.status.Ok? {
      StartStep(s, w0, cfg, e1.state, w0.apps[orig].bits);
      e := Forward(s, cfg, orig, StartNew, e1.state);
      assert [StartNew] + [DeleteOriginal] == [StartNew, DeleteOriginal];
      RunStep(s, cfg, orig, StartNew, [DeleteOriginal], e1.state);
      JustDelete(s, cfg, orig, e.state);
    }
    TakesThen(s, w, e1, e, 1, m);
  }

  function LastCall(w0: World, cfg: Config, steps: seq<Step>): nat
    requires IsBlueGreen(steps, cfg)
  {
    RequestsAreCounted(cfg);
    w0.calls + RequestsOf(cfg, steps) - 1
  }

  /** The run gets to the deletion of the original: both names are free when they are claimed, the
      parameters parse, and every request before the last is acknowledged. */
  ghost predicate LastReached(s: Schedule, w0: World, cfg: Config, steps: seq<Step>)
    requires IsBlueGreen(steps, cfg)
  {
    RenameAllowed(w0, cfg) && CreateAllowed(w0, cfg) && AllDone(s, w0.calls, LastCall(w0, cfg, steps))
  }

  /** The bits and the run state the new app has when the original is deleted. */
  function FinalBits(w0: World, cfg: Config, steps: seq<Step>): Option<string> {
    if steps == RESTAGE_STEPS then At(w0.apps, w0.id).bits else Some(cfg.path)
  }

  function FinalRun(cfg: Config, steps: seq<Step>): RunState {
    Confirmed(cfg.started, if steps == RESTAGE_STEPS then 0 else cfg.instances)
  }

  /** The new app is complete, and only the deletion is left to do. */
  ghost predicate ReadyToDelete(w0: World, cfg: Config, steps: seq<Step>, w: World)
    requires w0.id in w0.apps && IsBlueGreen(steps, cfg)
  {
    && Midway(w0, cfg, w) && IsFilled(w.apps[w.id], cfg, FinalBits(w0, cfg, steps), FinalRun(cfg, steps))
    && w.calls == LastCall(w0, cfg, steps)
  }

  /** How the run `out` ends, by the requests that are acknowledged: as the deletion from a complete
      state, after d.SetId by the step in `e`, or before d.SetId. */
  ghost predicate Ends(s: Schedule, w0: World, cfg: Config, steps: seq<Step>, out: Effect<World>, e: Effect<World>)
    requires w0.id in w0.apps && IsBlueGreen(steps, cfg)
  {
    if LastReached(s, w0, cfg, steps) then
      ReadyToDelete(w0, cfg, steps, e.state) && out == Delete(s, e.state, w0.id)
    else if SetIdReached(s, w0, cfg) then
      StopsMidway(s, w0, cfg, out, e, LastCall(w0, cfg, steps), steps == DeploySteps(cfg))
    else
      NeverSetId(s, w0, cfg, out)
  }

  lemma DeployEnds(s: Schedule, w0: World, cfg: Config) returns (e: Effect<World>)
    requires Tracked(w0)
    ensures Ends(s, w0, cfg, DeploySteps(cfg), UpdateBg(s, cfg, DeploySteps(cfg), w0), e)
  {
    var rest := [DeleteOriginal];
    assert DeploySteps(cfg) == [RenameOriginal, CreateNew(cfg.started, true)] + rest;
    RunIsRunSteps(s, cfg, w0.id, DeploySteps(cfg), w0);
    RequestsAreCounted(cfg);
    e := AfterTwo(s, w0, cfg, cfg.started, true, rest);
    JustDelete(s, cfg, w0.id, e.state);
  }

  lemma RestageReached(s: Schedule, w0: World, cfg: Config)
    ensures var n, m := 2 + FillCalls(cfg, false, false), 1 + if cfg.started then 3 else 0;
            && LastCall(w0, cfg, RESTAGE_STEPS) == w0.calls + n + m
            && (LastReached(s, w0, cfg, RESTAGE_STEPS) <==>
                Reaches(s, w0, cfg, n) && AllDone(s, w0.calls + n, w0.calls + n + m))
  {
    var n, m := 2 + FillCalls(cfg, false, false), 1 + if cfg.started then 3 else 0;
    RequestsAreCounted(cfg);
    AllDoneSplit(s, w0.calls, w0.calls + n, w0.calls + n + m);
  }

  lemma RestageEnds(s: Schedule, w0: World, cfg: Config) returns (e: Effect<World>)
    requires Tracked(w0)
    ensures Ends(s, w0, cfg, RESTAGE_STEPS, UpdateBg(s, cfg, RESTAGE_STEPS, w0), e)
  {
    var rest := [CopyBits, StartNew, DeleteOriginal];
    assert RESTAGE_STEPS == [RenameOriginal, CreateNew(false, false)] + rest;
    assert |DeploySteps(cfg)| != |RESTAGE_STEPS|;
    RunIsRunSteps(s, cfg, w0.id, RESTAGE_STEPS, w0);
    RestageReached(s, w0, cfg);
    FirstTwoRequests(s, w0, cfg);
    e := AfterTwo(s, w0, cfg, false, false, rest);
    if Reaches(s, w0, cfg, 2 + FillCalls(cfg, false, false)) {
      e := RestageTail(s, w0, cfg, e.state);
    }
  }

  /** A restage from the new app on. */
  lemma RestageTail(s: Schedule, w0: World, cfg: Config, w: World) returns (e: Effect<World>)
    requires Tracked(w0) && Midway(w0, cfg, w) && IsFilled(w.apps[w.id], cfg, None, Stopped)
    requires Reaches(s, w0, cfg, 2 + FillCalls(cfg, false, false))
    requires w.calls == w0.calls + 2 + FillCalls(cfg, false, false)
    ensures var out := RunSteps(s, cfg, w0.id, [CopyBits, StartNew, DeleteOriginal], w);
            if LastReached(s, w0, cfg, RESTAGE_STEPS) then
              ReadyToDelete(w0, cfg, RESTAGE_STEPS, e.state) && out == Delete(s, e.state, w0.id)
            else
              StopsMidway(s, w0, cfg, out, e, LastCall(w0, cfg, RESTAGE_STEPS), false)
  {
    RestageReached(s, w0, cfg);
    e := RestageMiddle(s, w0, cfg, w);
    var out := RunSteps(s, cfg, w0.id, [CopyBits, StartNew, DeleteOriginal], w);
    if e.status.Ok? {
      RestageComplete(w0, cfg, e.state);
    } else {
      StopsLater(s, w0, cfg, w, out, e, 1 + if cfg.started then 3 else 0);
    }
  }

  /** A step after creation stops at its first request that is not acknowledged. */
  lemma StopsLater(s: Schedule, w0: World, cfg: Config, w: World, out: Effect<World>, e: Effect<World>, n: nat)
    requires w0.id in w0.apps && w.calls >= w0.calls + 2 && AllDone(s, w0.calls, w.calls)
    requires Takes(s, w, e, n) && e.status.Failed? && Midway(w0, cfg, e.state)
    requires out == Undone(s, cfg, w0.id, e)
    ensures StopsMidway(s, w0, cfg, out, e, w.calls + n, false)
  {
    FirstLater(s, w0.calls, w.calls, w.calls + n, e.state.calls - 1);
  }

  lemma RestageComplete(w0: World, cfg: Config, w: World)
    requires w0.id in w0.apps && Midway(w0, cfg, w) && w.calls == LastCall(w0, cfg, RESTAGE_STEPS)
    requires IsFilled(w.apps[w.id], cfg, w0.apps[w0.id].bits, Confirmed(cfg.started, 0))
    ensures ReadyToDelete(w0, cfg, RESTAGE_STEPS, w)
  {
  }

  lemma NotLost(s: Schedule, w0: World, cfg: Config, n: nat)
    requires CreateAllowed(w0, cfg) && n >= 2 && AllDone(s, w0.calls, w0.calls + n)
    ensures !LosesOriginal(s, w0, cfg)
  {
    assert s(w0.calls + 1).Done?;
  }

  lemma RunEnds(s: Schedule, w0: World, cfg: Config, steps: seq<Step>) returns (e: Effect<World>)
    requires Tracked(w0) && IsBlueGreen(steps, cfg)
    ensures Ends(s, w0, cfg, steps, UpdateBg(s, cfg, steps, w0), e)
    ensures !LastReached(s, w0, cfg, steps) ==>
              EndedEarly(s, w0, cfg, UpdateBg(s, cfg, steps, w0), steps == DeploySteps(cfg))
  {
    if steps == RESTAGE_STEPS {
      e := RestageEnds(s, w0, cfg);
    } else {
      e := DeployEnds(s, w0, cfg);
    }
    if !LastReached(s, w0, cfg, steps) && SetIdReached(s, w0, cfg) {
      StopsMidwayIsEarly(s, w0, cfg, UpdateBg(s, cfg, steps, w0), e, LastCall(w0, cfg, steps),
                         steps == DeploySteps(cfg));
    }
  }

  // ----- Never without the app -----

  /** For both lists: every state has the original intact or the new app complete, exactly when the
      original is not lost before d.SetId. */
  lemma NeverDownIff(s: Schedule, w0: World, cfg: Config, steps: seq<Step>)
    requires Tracked(w0) && IsBlueGreen(steps, cfg)
    ensures var out := UpdateBg(s, cfg, steps, w0);
            var bits, run := FinalBits(w0, cfg, steps), FinalRun(cfg, steps);
            && (NeverDown(w0, out.state, cfg, bits, run) <==> !LosesOriginal(s, w0, cfg))
            && (LosesOriginal(s, w0, cfg) ==> OriginalLost(w0, out))
            && (out.status.Ok? ==> Replaced(w0, out.state, cfg, bits, run))
            && (out.status.Panicked? ==> steps == DeploySteps(cfg) && Midway(w0, cfg, out.state))
  {
    var e := RunEnds(s, w0, cfg, steps);
    if LastReached(s, w0, cfg, steps) {
      RequestsAreCounted(cfg);
      NotLost(s, w0, cfg, RequestsOf(cfg, steps) - 1);
      DeleteStep(s, w0, cfg, e.state, FinalBits(w0, cfg, steps), FinalRun(cfg, steps));
    }
  }

  /** Blue-green deployment.  The promise that an app never shuts down holds exactly when creation does
      not fail before d.SetId, or when it does and the delete that then targets the original is refused.
      On success the new app has replaced the original; a panic leaves the saga where it stands. */
  lemma DeployNeverDown(s: Schedule, w0: World, cfg: Config)
    requires Tracked(w0)
    ensures var out := UpdateBg(s, cfg, DeploySteps(cfg), w0);
            var bits, run := Some(cfg.path), Confirmed(cfg.started, cfg.instances);
            && (NeverDown(w0, out.state, cfg, bits, run) <==> !LosesOriginal(s, w0, cfg))
            && (LosesOriginal(s, w0, cfg) ==> OriginalLost(w0, out))
            && (out.status.Ok? ==> Replaced(w0, out.state, cfg, bits, run))
            && (out.status.Panicked? ==> Midway(w0, cfg, out.state))
  {
    NeverDownIff(s, w0, cfg, DeploySteps(cfg));
    assert |DeploySteps(cfg)| != |RESTAGE_STEPS|;
  }

  /** Blue-green restage.  As for deployment, but the new app is only known to be staged, never to be
      running, when the original is deleted: the start step hands startApp an app with no instances. */
  lemma RestageNeverDown(s: Schedule, w0: World, cfg: Config)
    requires Tracked(w0)
    ensures var out := UpdateBg(s, cfg, RESTAGE_STEPS, w0);
            var bits, run := w0.apps[w0.id].bits, if cfg.started then Staged else Stopped;
            && (NeverDown(w0, out.state, cfg, bits, run) <==> !LosesOriginal(s, w0, cfg))
            && (LosesOriginal(s, w0, cfg) ==> OriginalLost(w0, out))
            && (out.status.Ok? ==> Replaced(w0, out.state, cfg, bits, run))
            && !out.status.Panicked?
  {
    NeverDownIff(s, w0, cfg, RESTAGE_STEPS);
    assert |DeploySteps(cfg)| != |RESTAGE_STEPS|;
  }
}
