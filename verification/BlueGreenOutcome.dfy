/** How a blue-green run ends, request by request: exactly when it succeeds, when the original is
    deleted, what a failure without compensation leaves, and what the renaming is for. */
module BlueGreenOutcome {
  import opened Wrappers
  import opened Rewind
  import opened CloudController
  import opened AppResource
  import opened AppFrames
  import opened RequestCounts
  import opened BlueGreen

  // ----- Exact outcomes -----

  /** The run deletes the original as its last step, whether or not it learns so. */
  ghost predicate DeletesOriginal(s: Schedule, w0: World, cfg: Config, steps: seq<Step>)
    requires IsBlueGreen(steps, cfg)
  {
    LastReached(s, w0, cfg, steps) && !s(LastCall(w0, cfg, steps)).Refused?
  }

  lemma AllRequestsDone(s: Schedule, w0: World, cfg: Config, steps: seq<Step>)
    requires IsBlueGreen(steps, cfg)
    ensures RenameAllowed(w0, cfg) && CreateAllowed(w0, cfg)
            && AllDone(s, w0.calls, w0.calls + RequestsOf(cfg, steps))
            <==> LastReached(s, w0, cfg, steps) && s(LastCall(w0, cfg, steps)).Done?
  {
    RequestsAreCounted(cfg);
    var last := LastCall(w0, cfg, steps);
    AllDoneSplit(s, w0.calls, last, last + 1);
    AllDoneOne(s, last);
  }

  /** A blue-green update succeeds if and only if the venerable name and the wanted name are free, the
      parameters parse, and every one of its requests is acknowledged: the controller has no other
      reason to reject a forward request. */
  lemma SucceedsIff(s: Schedule, w0: World, cfg: Config, steps: seq<Step>)
    requires Tracked(w0) && IsBlueGreen(steps, cfg)
    ensures UpdateBg(s, cfg, steps, w0).status.Ok? <==>
            RenameAllowed(w0, cfg) && CreateAllowed(w0, cfg)
            && AllDone(s, w0.calls, w0.calls + RequestsOf(cfg, steps))
  {
    var _ := RunEnds(s, w0, cfg, steps);
    AllRequestsDone(s, w0, cfg, steps);
  }

  /** For either list: the app is never down exactly when the original is not lost, and success means
      replacement. */
  lemma BlueGreenPromise(s: Schedule, w0: World, cfg: Config, steps: seq<Step>)
    requires Tracked(w0) && IsBlueGreen(steps, cfg)
    ensures var out := UpdateBg(s, cfg, steps, w0);
            var bits, run := FinalBits(w0, cfg, steps), FinalRun(cfg, steps);
            && (NeverDown(w0, out.state, cfg, bits, run) <==> !LosesOriginal(s, w0, cfg))
            && (out.status.Ok? ==> Replaced(w0, out.state, cfg, bits, run))
            && (out.status.Ok? <==> RenameAllowed(w0, cfg) && CreateAllowed(w0, cfg)
                                    && AllDone(s, w0.calls, w0.calls + RequestsOf(cfg, steps)))
  {
    SucceedsIff(s, w0, cfg, steps);
    NeverDownIff(s, w0, cfg, steps);
  }

  /** The original stays in every state, but for its name, if and only if neither the compensation of a
      creation that failed before d.SetId nor the last step deletes it. */
  lemma IntactIff(s: Schedule, w0: World, cfg: Config, steps: seq<Step>)
    requires Tracked(w0) && IsBlueGreen(steps, cfg)
    ensures IntactThroughout(w0, UpdateBg(s, cfg, steps, w0).state) <==>
            !LosesOriginal(s, w0, cfg) && !DeletesOriginal(s, w0, cfg, steps)
    ensures DeletesOriginal(s, w0, cfg, steps) ==>
              DeletedAtLast(w0, UpdateBg(s, cfg, steps, w0).state, cfg, steps)
  {
    var e := RunEnds(s, w0, cfg, steps);
    var w := e.state;
    var out := UpdateBg(s, cfg, steps, w0);
    if LastReached(s, w0, cfg, steps) {
      RequestsAreCounted(cfg);
      NotLost(s, w0, cfg, RequestsOf(cfg, steps) - 1);
      assert out == Delete(s, w, w0.id);
      assert out.state.log[|w.log|] == Snapshot(out.state.apps, w.id);
    } else if LosesOriginal(s, w0, cfg) {
      var k :| |w0.log| <= k < |out.state.log| && Gone(w0, out.state.log[k]);
      assert !IntactThroughout(w0, out.state);
    }
  }

  /** The last state passed through: the original is gone and the state points to the new app, with
      nothing more than the run state confirmed so far. */
  ghost predicate DeletedAtLast(w0: World, w: World, cfg: Config, steps: seq<Step>) {
    && |w.log| > |w0.log| && w.log[|w.log| - 1] == Snapshot(w.apps, w.id)
    && w0.id !in w.apps && w.id != w0.id && w.id in w.apps
    && IsFilled(w.apps[w.id], cfg, FinalBits(w0, cfg, steps), FinalRun(cfg, steps))
  }

  /** The original under its venerable name, in an otherwise unchanged space. */
  function RenamedApps(w0: World, cfg: Config): Apps
    requires w0.id in w0.apps
  {
    w0.apps[w0.id := w0.apps[w0.id].(name := Venerable(cfg.OrigName()))]
  }

  /** A failing first step has no compensation.  The space is unchanged, except that the original keeps
      its venerable name if only the acknowledgement was lost. */
  lemma FirstStepFails(s: Schedule, w0: World, cfg: Config, steps: seq<Step>)
    requires Tracked(w0) && IsBlueGreen(steps, cfg)
    requires !(RenameAllowed(w0, cfg) && s(w0.calls).Done?)
    ensures var out := UpdateBg(s, cfg, steps, w0);
            && out.status == Failed(REQUEST_FAILED) && out.state.id == w0.id
            && out.state.apps == if RenameAllowed(w0, cfg) && s(w0.calls).Lost? then RenamedApps(w0, cfg) else w0.apps
  {
    RunIsRunSteps(s, cfg, w0.id, steps, w0);
  }

  /** Nor has a failing last step.  If it was not carried out both apps are left behind, the original
      under its venerable name; if only the acknowledgement was lost the replacement is complete. */
  lemma LastStepFails(s: Schedule, w0: World, cfg: Config, steps: seq<Step>)
    requires Tracked(w0) && IsBlueGreen(steps, cfg)
    requires LastReached(s, w0, cfg, steps) && !s(LastCall(w0, cfg, steps)).Done?
    ensures var out := UpdateBg(s, cfg, steps, w0);
            var bits, run := FinalBits(w0, cfg, steps), FinalRun(cfg, steps);
            && out.status == Failed(REQUEST_FAILED)
            && if s(LastCall(w0, cfg, steps)).Lost? then Replaced(w0, out.state, cfg, bits, run)
               else
                 && out.state.id == w0.issued && out.state.id in out.state.apps
                 && IsFilled(out.state.apps[out.state.id], cfg, bits, run)
                 && out.state.apps == RenamedApps(w0, cfg)[out.state.id := out.state.apps[out.state.id]]
  {
    var e := RunEnds(s, w0, cfg, steps);
    var w := e.state;
    var out := UpdateBg(s, cfg, steps, w0);
    var bits, run := FinalBits(w0, cfg, steps), FinalRun(cfg, steps);
    var verdict := s(LastCall(w0, cfg, steps));
    if verdict.Lost? {
      DeletedIsReplaced(w0, cfg, w, bits, run);
      assert out.state.apps == w.apps - {w0.id};
    } else {
      SameEverywhereBut(RenamedApps(w0, cfg), w.apps, w.id);
    }
  }

  lemma DeletedIsReplaced(w0: World, cfg: Config, w: World, bits: Option<string>, run: RunState)
    requires Tracked(w0) && Midway(w0, cfg, w) && IsFilled(w.apps[w.id], cfg, bits, run)
    ensures forall log, calls :: Replaced(w0, World(w.apps - {w0.id}, w.id, w.issued, calls, log), cfg, bits, run)
  {
    var s: Schedule := i => Done;
    DeleteStep(s, w0, cfg, w, bits, run);
  }

  lemma SameEverywhereBut(a: Apps, b: Apps, g: Guid)
    requires SameBut(a, b, g) && g in b
    ensures b == a[g := b[g]]
  {
    var updated := a[g := b[g]];
    forall h: Guid
      ensures Same(updated, b, h)
    {
      assert h != g ==> Same(a, b, h);
    }
    SameEverywhere(updated, b);
  }

  // ----- What the renaming is for -----

  /** When an update keeps the app's name, creating the new app under it is rejected, whatever the
      schedule, until the original is renamed; afterwards it is accepted. */
  lemma RenamingMakesRoom(s: Schedule, w0: World, cfg: Config, w: World)
    requires Tracked(w0) && UniqueNames(w0.apps) && NamedInState(w0, cfg) && cfg.name == w0.apps[w0.id].name
    requires Renamed(w0, cfg, w)
    ensures Create(s, w0, NewApp(cfg)).status == Failed(REQUEST_FAILED)
    ensures Create(s, w0, NewApp(cfg)).state.apps == w0.apps
    ensures Create(s, w, NewApp(cfg)).status.Ok? <==> s(w.calls).Done?
  {
    VenerableDiffers(cfg.name);
    assert w0.id != w0.issued && w0.apps[w0.id].name == cfg.name;
    assert NameFree(w.apps, cfg.name, w.issued);
  }

  lemma VenerableDiffers(name: string)
    ensures Venerable(name) != name
  {
    assert |Venerable(name)| > |name|;
  }

  /** The compensation after d.SetId, request by request.  The only other request about a name is its
      renaming back, which is rejected exactly when another app holds the name: one of the space, or the
      new app, if the update keeps the name and the delete was refused. */
  lemma CompensationSucceedsIff(s: Schedule, w0: World, cfg: Config, w: World)
    requires Tracked(w0) && Midway(w0, cfg, w)
    ensures var u := Undo(s, cfg, w0.id, w);
            && (u.status.Ok? <==> RenamesBack(s, w0, cfg, w.calls) && s(w.calls + 1).Done?)
            && !u.status.Panicked?
            && u.state.id == w.id
            && u.state.apps == CompensatedApps(s, w0, cfg, w.calls, w.apps[w.id])
  {
    var orig, g, d := w0.id, w.id, Delete(s, w, w.id);
    var base := RenamedApps(w0, cfg);
    SameEverywhereBut(base, w.apps, g);
    assert w.apps == base[g := w.apps[g]];
    assert d.state.apps == if s(w.calls).Refused? then base[g := w.apps[g]] else base;
    FreeAfterDelete(w0, cfg, d.state.apps, g, s(w.calls).Refused?);
    assert At(d.state.apps, orig) == base[orig];
    var renamed := w0.apps[orig := w0.apps[orig].(name := cfg.OrigName())];
    assert base[orig := base[orig].(name := cfg.OrigName())] == renamed;
    assert base[g := w.apps[g]][orig := base[orig].(name := cfg.OrigName())] == renamed[g := w.apps[g]];
  }

  lemma FreeAfterDelete(w0: World, cfg: Config, apps: Apps, g: Guid, stays: bool)
    requires w0.id in w0.apps && g !in w0.apps
    requires if stays then g in apps && apps == RenamedApps(w0, cfg)[g := apps[g]] && apps[g].name == cfg.name
             else apps == RenamedApps(w0, cfg)
    ensures NameFree(apps, cfg.OrigName(), w0.id) <==>
            NameFree(w0.apps, cfg.OrigName(), w0.id) && (cfg.name == cfg.OrigName() ==> !stays)
  {
    if NameFree(apps, cfg.OrigName(), w0.id) {
      forall h | h in w0.apps && h != w0.id
        ensures w0.apps[h].name != cfg.OrigName()
      {
        assert h in apps && apps[h] == w0.apps[h];
      }
    }
  }

  /** The compensation whose delete is request c is allowed to rename the original back. */
  ghost predicate RenamesBack(s: Schedule, w0: World, cfg: Config, c: nat) {
    NameFree(w0.apps, cfg.OrigName(), w0.id) && (cfg.name == cfg.OrigName() ==> !s(c).Refused?)
  }

  /** The apps it leaves: the new app goes unless the delete is refused, and the original gets the name
      it is restored to, or keeps the venerable one. */
  ghost function CompensatedApps(s: Schedule, w0: World, cfg: Config, c: nat, app: App): Apps
    requires w0.id in w0.apps
  {
    var back := RenamesBack(s, w0, cfg, c) && !s(c + 1).Refused?;
    var name := if back then cfg.OrigName() else Venerable(cfg.OrigName());
    var apps := w0.apps[w0.id := w0.apps[w0.id].(name := name)];
    if s(c).Refused? then apps[w0.issued := app] else apps
  }

  // ----- Failures after d.SetId -----

  /** Request f, between d.SetId and the last step, is the first that is not acknowledged. */
  ghost predicate FailsMidway(s: Schedule, w0: World, cfg: Config, steps: seq<Step>, f: nat)
    requires IsBlueGreen(steps, cfg)
  {
    RenameAllowed(w0, cfg) && CreateAllowed(w0, cfg) && w0.calls + 2 <= f
    && FirstNotDone(s, w0.calls, LastCall(w0, cfg, steps), f)
  }

  ghost predicate IsUpload(w0: World, cfg: Config, steps: seq<Step>, f: nat) {
    steps == DeploySteps(cfg) && f == UploadCall(w0, cfg)
  }

  /** Such a run stops at f, in a state that is midway. */
  lemma StopsAtFailure(s: Schedule, w0: World, cfg: Config, steps: seq<Step>, f: nat) returns (failed: Effect<World>)
    requires Tracked(w0) && IsBlueGreen(steps, cfg) && FailsMidway(s, w0, cfg, steps, f)
    ensures Midway(w0, cfg, failed.state) && failed.state.calls == f + 1 && !failed.status.Ok?
    ensures failed.status.Panicked? <==> IsUpload(w0, cfg, steps, f)
    ensures UpdateBg(s, cfg, steps, w0) ==
            if failed.status.Failed? then Undone(s, cfg, w0.id, failed) else failed
  {
    failed := RunEnds(s, w0, cfg, steps);
    AllDoneSplit(s, w0.calls, w0.calls + 2, f);
    assert !LastReached(s, w0, cfg, steps);
    var last := LastCall(w0, cfg, steps);
    FirstIsUnique(s, w0.calls, last, last, f, failed.state.calls - 1);
  }

  /** A run that stops after d.SetId fails at some request. */
  lemma FailureOf(s: Schedule, w0: World, cfg: Config, steps: seq<Step>) returns (f: nat)
    requires Tracked(w0) && IsBlueGreen(steps, cfg) && SetIdReached(s, w0, cfg) && !LastReached(s, w0, cfg, steps)
    ensures FailsMidway(s, w0, cfg, steps, f)
  {
    var failed := RunEnds(s, w0, cfg, steps);
    f := failed.state.calls - 1;
  }

  lemma FailureReached(s: Schedule, w0: World, cfg: Config, steps: seq<Step>, f: nat)
    requires IsBlueGreen(steps, cfg) && FailsMidway(s, w0, cfg, steps, f)
    ensures SetIdReached(s, w0, cfg) && !LastReached(s, w0, cfg, steps)
    ensures !LosesOriginal(s, w0, cfg)
  {
    AllDoneSplit(s, w0.calls, w0.calls + 2, f);
    NotLost(s, w0, cfg, 2);
  }

  /** The exact end of a run whose first failing request f comes after d.SetId and is not the upload,
      whatever becomes of the two requests of the compensation. */
  lemma MiddleFailure(s: Schedule, w0: World, cfg: Config, steps: seq<Step>, f: nat) returns (failed: Effect<World>)
    requires Tracked(w0) && IsBlueGreen(steps, cfg) && FailsMidway(s, w0, cfg, steps, f)
    requires !IsUpload(w0, cfg, steps, f)
    ensures Midway(w0, cfg, failed.state) && failed.status.Failed?
    ensures var out := UpdateBg(s, cfg, steps, w0);
            && out.state.id == w0.issued
            && out.state.apps == CompensatedApps(s, w0, cfg, f + 1, failed.state.apps[failed.state.id])
            && out.status == if RenamesBack(s, w0, cfg, f + 1) && s(f + 2).Done? then failed.status
                             else Failed(REWIND_FAILURE + ": " + REQUEST_FAILED)
  {
    failed := StopsAtFailure(s, w0, cfg, steps, f);
    CompensationSucceedsIff(s, w0, cfg, failed.state);
    CompensationError(s, w0, cfg, failed.state);
  }

  /** A middle failure at request f that is fully compensated, in terms of the configuration's fields:
      the app, called `before`, and the wanted name are where they should be, both names are free when
      they are claimed, and both requests of the compensation are carried out. */
  ghost predicate FullyCompensated(s: Schedule, w0: World, cfg: Config, steps: seq<Step>, before: string, f: nat)
    requires w0.id in w0.apps && IsBlueGreen(steps, cfg)
  {
    && before == w0.apps[w0.id].name && before == (if cfg.oldName != "" then cfg.oldName else cfg.name)
    && NameFree(w0.apps, before, w0.id) && NameFree(w0.apps, before + "-venerable", w0.id)
    && cfg.paramsOk && cfg.name != before + "-venerable" && NameFree(w0.apps, cfg.name, w0.id)
    && w0.calls + 2 <= f && FirstNotDone(s, w0.calls, LastCall(w0, cfg, steps), f)
    && !(steps == DeploySteps(cfg) && f == UploadCall(w0, cfg))
    && !s(f + 1).Refused? && !s(f + 2).Refused?
  }

  /** Then the space ends exactly as it began, and from the first step until the last request of the
      compensation the original is called `before` with "-venerable" appended. */
  lemma CompensationRestores(s: Schedule, w0: World, cfg: Config, steps: seq<Step>, before: string, f: nat)
    requires Tracked(w0) && IsBlueGreen(steps, cfg) && FullyCompensated(s, w0, cfg, steps, before, f)
    ensures var out := UpdateBg(s, cfg, steps, w0).state;
            && out.apps == w0.apps
            && |out.log| > |w0.log| && out.log[|out.log| - 1].apps == w0.apps
            && forall k :: |w0.log| <= k < |out.log| - 1 ==>
                 w0.id in out.log[k].apps && out.log[k].apps[w0.id].name == before + "-venerable"
  {
    InTermsOfFields(s, w0, cfg, steps, before, f);
    var failed := StopsAtFailure(s, w0, cfg, steps, f);
    UndoRestores(s, w0, cfg, failed.state, before);
  }

  /** From any state midway. */
  lemma UndoRestores(s: Schedule, w0: World, cfg: Config, w: World, before: string)
    requires Tracked(w0) && Midway(w0, cfg, w) && RenamesBack(s, w0, cfg, w.calls)
    requires !s(w.calls).Refused? && !s(w.calls + 1).Refused?
    requires cfg.OrigName() == before && Venerable(cfg.OrigName()) == before + "-venerable"
    requires w0.apps[w0.id := w0.apps[w0.id].(name := before)] == w0.apps
    ensures var u := Undo(s, cfg, w0.id, w).state;
            && u.apps == w0.apps
            && |u.log| > |w0.log| && u.log[|u.log| - 1].apps == w0.apps
            && forall k :: |w0.log| <= k < |u.log| - 1 ==>
                 w0.id in u.log[k].apps && u.log[k].apps[w0.id].name == before + "-venerable"
  {
    CompensationSucceedsIff(s, w0, cfg, w);
    UndoCalled(s, w0, cfg, w);
  }

  lemma InTermsOfFields(s: Schedule, w0: World, cfg: Config, steps: seq<Step>, before: string, f: nat)
    requires Tracked(w0) && IsBlueGreen(steps, cfg) && FullyCompensated(s, w0, cfg, steps, before, f)
    ensures FailsMidway(s, w0, cfg, steps, f) && !IsUpload(w0, cfg, steps, f)
    ensures cfg.OrigName() == before && Venerable(cfg.OrigName()) == before + "-venerable"
    ensures RenamesBack(s, w0, cfg, f + 1) && w0.apps[w0.id := w0.apps[w0.id].(name := before)] == w0.apps
  {
    assert cfg.OrigName() == before;
  }

  /** The log of the compensation. */
  lemma UndoCalled(s: Schedule, w0: World, cfg: Config, w: World)
    requires Tracked(w0) && Midway(w0, cfg, w)
    ensures var u, name := Undo(s, cfg, w0.id, w).state, Venerable(cfg.OrigName());
            && |u.log| == |w.log| + 2 && u.log[|w.log| + 1].apps == u.apps
            && forall k :: |w0.log| <= k < |u.log| - 1 ==> w0.id in u.log[k].apps && u.log[k].apps[w0.id].name == name
  {
    var d := Delete(s, w, w.id);
    assert Same(RenamedApps(w0, cfg), w.apps, w0.id);
    var u := Undo(s, cfg, w0.id, w).state;
    forall k | |w0.log| <= k < |u.log| - 1
      ensures w0.id in u.log[k].apps && u.log[k].apps[w0.id].name == Venerable(cfg.OrigName())
    {
      if k < |w.log| {
        assert u.log[k] == w.log[k];
      } else {
        assert u.log[k] == d.state.log[|w.log|];
      }
    }
  }

  lemma CompensationError(s: Schedule, w0: World, cfg: Config, w: World)
    ensures var u := Undo(s, cfg, w0.id, w); u.status.Ok? || u.status == Failed(REQUEST_FAILED)
  {
  }

  /** A deployment panics if and only if everything up to the upload is acknowledged and the upload is
      not.  The saga then stops where it stands: both apps exist, and nothing is compensated. */
  lemma DeployPanicsIff(s: Schedule, w0: World, cfg: Config)
    requires Tracked(w0)
    ensures var out, u := UpdateBg(s, cfg, DeploySteps(cfg), w0), UploadCall(w0, cfg);
            && (out.status.Panicked? <==>
                RenameAllowed(w0, cfg) && CreateAllowed(w0, cfg) && AllDone(s, w0.calls, u) && !s(u).Done?)
            && (out.status.Panicked? ==> Midway(w0, cfg, out.state) && out.state.calls == u + 1)
  {
    var steps, u := DeploySteps(cfg), UploadCall(w0, cfg);
    RequestsAreCounted(cfg);
    var e := RunEnds(s, w0, cfg, steps);
    AllDoneSplit(s, w0.calls, w0.calls + 2, u);
    if LastReached(s, w0, cfg, steps) {
      assert s(u).Done?;
    } else if SetIdReached(s, w0, cfg) {
      var f := FailureOf(s, w0, cfg, steps);
      var failed := StopsAtFailure(s, w0, cfg, steps, f);
      UndoneFails(s, cfg, w0.id, failed);
      if AllDone(s, w0.calls, u) && !s(u).Done? {
        FirstIsUnique(s, w0.calls, LastCall(w0, cfg, steps), u + 1, f, u);
      }
    }
  }

  lemma UndoneFails(s: Schedule, cfg: Config, orig: Guid, failed: Effect<World>)
    ensures failed.status.Failed? ==> Undone(s, cfg, orig, failed).status.Failed?
  {
  }

  /** A blue-green run leaves d.Id() pointing to no app if and only if it loses the original before
      d.SetId, or is compensated after d.SetId and the delete of the compensation is not refused. */
  lemma PointsNowhereIff(s: Schedule, w0: World, cfg: Config, steps: seq<Step>)
    requires Tracked(w0) && IsBlueGreen(steps, cfg)
    ensures var out := UpdateBg(s, cfg, steps, w0).state;
            out.id !in out.apps <==>
            || LosesOriginal(s, w0, cfg)
            || exists f: nat :: FailsMidway(s, w0, cfg, steps, f) && !IsUpload(w0, cfg, steps, f) && !s(f + 1).Refused?
  {
    var e := RunEnds(s, w0, cfg, steps);
    var out := UpdateBg(s, cfg, steps, w0);
    forall f: nat | FailsMidway(s, w0, cfg, steps, f)
      ensures out.state.id !in out.state.apps <==> !IsUpload(w0, cfg, steps, f) && !s(f + 1).Refused?
      ensures SetIdReached(s, w0, cfg) && !LastReached(s, w0, cfg, steps) && !LosesOriginal(s, w0, cfg)
    {
      var failed := StopsAtFailure(s, w0, cfg, steps, f);
      UndoMidway(s, w0, cfg, failed.state);
      FailureReached(s, w0, cfg, steps, f);
    }
    if LastReached(s, w0, cfg, steps) {
      RequestsAreCounted(cfg);
      NotLost(s, w0, cfg, RequestsOf(cfg, steps) - 1);
    } else if SetIdReached(s, w0, cfg) {
      var f := FailureOf(s, w0, cfg, steps);
    }
  }
}
