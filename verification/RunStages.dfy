/** What every request of an app update makes of the app it works on: the order in which a new app gets
    its routes, its bits and its start, and an old one is stopped, changed and started again. */
module RunStages {
  import opened Wrappers
  import opened Rewind
  import opened CloudController
  import opened AppResource
  import opened AppFrames
  import opened RequestCounts
  import opened BlueGreen

  /** What app looks like after i requests. */
  type Course = (nat, App) -> bool

  /** The number of requests that took effect once request c, the next after i, was sent. */
  function Effective(s: Schedule, i: nat, c: nat): nat { if s(c).Refused? then i else i + 1 }

  /** Every request from w to w' is logged, and leaves app g on its course, which it joined after i
      requests. */
  ghost predicate OnCourse(s: Schedule, w: World, w': World, g: Guid, i: nat, course: Course) {
    && w.log <= w'.log && w.calls <= w'.calls && |w'.log| - |w.log| == w'.calls - w.calls
    && forall j: nat :: j < w'.calls - w.calls ==> AfterRequest(s, w, w', g, i, course, j)
  }

  /** In the state right after request j. */
  ghost predicate AfterRequest(s: Schedule, w: World, w': World, g: Guid, i: nat, course: Course, j: nat)
    requires |w.log| + j < |w'.log|
  {
    var apps := w'.log[|w.log| + j].apps;
    g in apps && course(Effective(s, i + j, w.calls + j), apps[g])
  }

  lemma OnCourseThen(s: Schedule, w: World, w1: World, w2: World, g: Guid, i: nat, course: Course)
    requires OnCourse(s, w, w1, g, i, course) && OnCourse(s, w1, w2, g, i + (w1.calls - w.calls), course)
    ensures OnCourse(s, w, w2, g, i, course)
  {
    var m := w1.calls - w.calls;
    forall j: nat | j < w2.calls - w.calls
      ensures AfterRequest(s, w, w2, g, i, course, j)
    {
      if j < m {
        assert AfterRequest(s, w, w1, g, i, course, j);
        assert w2.log[|w.log| + j] == w1.log[|w.log| + j];
      } else {
        assert AfterRequest(s, w1, w2, g, i + m, course, j - m);
      }
    }
  }

  lemma StayOnCourse(s: Schedule, w: World, g: Guid, i: nat, course: Course)
    ensures OnCourse(s, w, w, g, i, course)
  {
  }

  /** One request on app g. */
  lemma PutOnCourse(s: Schedule, w: World, g: Guid, app: App, i: nat, course: Course)
    requires g in w.apps && course(i, w.apps[g]) && course(i + 1, app)
    ensures OnCourse(s, w, Put(s, w, g, app).state, g, i, course)
  {
    assert AfterRequest(s, w, Put(s, w, g, app).state, g, i, course, 0);
  }

  /** One request that changes nothing. */
  lemma ProbeOnCourse(s: Schedule, w: World, g: Guid, i: nat, course: Course)
    requires g in w.apps && course(i, w.apps[g]) && course(i + 1, w.apps[g])
    ensures OnCourse(s, w, Probe(s, w).state, g, i, course)
  {
    assert AfterRequest(s, w, Probe(s, w).state, g, i, course, 0);
  }

  /** One more request on app g. */
  lemma PutsOnCourse(s: Schedule, w: World, w1: World, g: Guid, app: App, i: nat, course: Course)
    requires OnCourse(s, w, w1, g, i, course) && w1.calls >= w.calls && g in w1.apps
    requires course(i + (w1.calls - w.calls), w1.apps[g]) && course(i + (w1.calls - w.calls) + 1, app)
    ensures OnCourse(s, w, Put(s, w1, g, app).state, g, i, course)
  {
    PutOnCourse(s, w1, g, app, i + (w1.calls - w.calls), course);
    OnCourseThen(s, w, w1, Put(s, w1, g, app).state, g, i, course);
  }

  /** One more request that changes nothing. */
  lemma ProbesOnCourse(s: Schedule, w: World, w1: World, g: Guid, i: nat, course: Course)
    requires OnCourse(s, w, w1, g, i, course) && w1.calls >= w.calls && g in w1.apps
    requires course(i + (w1.calls - w.calls), w1.apps[g]) && course(i + (w1.calls - w.calls) + 1, w1.apps[g])
    ensures OnCourse(s, w, Probe(s, w1).state, g, i, course)
  {
    ProbeOnCourse(s, w1, g, i + (w1.calls - w.calls), course);
    OnCourseThen(s, w, w1, Probe(s, w1).state, g, i, course);
  }

  /** Starting, from i requests on. */
  lemma StartOnCourse(s: Schedule, w: World, g: Guid, instances: int, i: nat, course: Course)
    requires g in w.apps && course(i, w.apps[g])
    requires var app := w.apps[g];
             && course(i + 1, app.(run := Starting)) && course(i + 2, app.(run := Staged))
             && course(i + 3, app.(run := if instances == 0 then Staged else Running))
    ensures OnCourse(s, w, StartApp(s, w, g, instances).state, g, i, course)
  {
    var app := w.apps[g];
    var e1 := SetRun(s, w, g, Starting);
    PutOnCourse(s, w, g, app.(run := Starting), i, course);
    if e1.status.Ok? {
      var e2 := SetRun(s, e1.state, g, Staged);
      PutsOnCourse(s, w, e1.state, g, app.(run := Staged), i, course);
      if e2.status.Ok? {
        if instances == 0 {
          ProbesOnCourse(s, w, e2.state, g, i, course);
        } else {
          PutsOnCourse(s, w, e2.state, g, app.(run := Running), i, course);
        }
      }
    }
  }

  /** Sending bits, from i requests on: the second request is the upload. */
  lemma SendOnCourse(s: Schedule, w: World, cfg: Config, i: nat, course: Course)
    requires w.id in w.apps && course(i, w.apps[w.id]) && course(i + 1, w.apps[w.id])
    requires var sent := w.apps[w.id].(bits := Some(cfg.path));
             course(i + 2, sent) && course(i + 3, sent) && course(i + 4, sent)
    ensures OnCourse(s, w, SendBits(s, w, cfg).state, w.id, i, course)
  {
    var g, sent := w.id, w.apps[w.id].(bits := Some(cfg.path));
    var e1 := Probe(s, w);
    ProbeOnCourse(s, w, g, i, course);
    if e1.status.Ok? {
      var e2 := SetBits(s, e1.state, g, Some(cfg.path));
      PutsOnCourse(s, w, e1.state, g, sent, i, course);
      if e2.status.Ok? {
        var e3 := Probe(s, e2.state);
        ProbesOnCourse(s, w, e2.state, g, i, course);
        if e3.status.Ok? {
          ProbesOnCourse(s, w, e3.state, g, i, course);
        }
      }
    }
  }

  /** Sending bits after something else. */
  lemma SendsOnCourse(s: Schedule, w: World, w1: World, cfg: Config, i: nat, course: Course)
    requires OnCourse(s, w, w1, w1.id, i, course) && w1.id in w1.apps && w1.calls >= w.calls
    requires var app, n := w1.apps[w1.id], i + (w1.calls - w.calls);
             var sent := app.(bits := Some(cfg.path));
             course(n, app) && course(n + 1, app) && course(n + 2, sent) && course(n + 3, sent) && course(n + 4, sent)
    ensures OnCourse(s, w, SendBits(s, w1, cfg).state, w1.id, i, course)
  {
    SendOnCourse(s, w1, cfg, i + (w1.calls - w.calls), course);
    OnCourseThen(s, w, w1, SendBits(s, w1, cfg).state, w1.id, i, course);
  }

  /** What sending bits leaves if it succeeds. */
  lemma SentBits(s: Schedule, w: World, cfg: Config)
    requires w.id in w.apps
    ensures var e := SendBits(s, w, cfg);
            e.status.Ok? ==>
              && e.state.calls == w.calls + 4 && e.state.id == w.id && w.id in e.state.apps
              && e.state.apps[w.id] == w.apps[w.id].(bits := Some(cfg.path))
  {
    SendBitsSpec(s, w, cfg);
    SendBitsTakes(s, w, cfg);
  }

  /** Starting after something else. */
  lemma StartsOnCourse(s: Schedule, w: World, w1: World, g: Guid, instances: int, i: nat, course: Course)
    requires OnCourse(s, w, w1, g, i, course) && g in w1.apps && w1.calls >= w.calls
    requires var app, n := w1.apps[g], i + (w1.calls - w.calls);
             && course(n, app) && course(n + 1, app.(run := Starting)) && course(n + 2, app.(run := Staged))
             && course(n + 3, app.(run := if instances == 0 then Staged else Running))
    ensures OnCourse(s, w, StartApp(s, w1, g, instances).state, g, i, course)
  {
    StartOnCourse(s, w1, g, instances, i + (w1.calls - w.calls), course);
    OnCourseThen(s, w, w1, StartApp(s, w1, g, instances).state, g, i, course);
  }

  // ----- The course of a new app -----

  /** When a new app gets which bits, whether and when it is started, and whether that waits for an
      instance: by the numbers of requests since d.SetId. */
  datatype Timing = Timing(bits: Option<string>, bitsAt: nat, startAt: nat, starts: bool, waits: bool)

  /** A new app after i requests: it has the first i of its routes, then its bits, then it is started in
      three requests. */
  ghost predicate IsNewApp(cfg: Config, timing: Timing, i: nat, app: App) {
    && app.name == cfg.name && app.settings == cfg.settings && app.instances == cfg.instances
    && Elems(app.routes) == Elems(if i < |cfg.routes| then cfg.routes[..i] else cfg.routes)
    && app.bits == (if i < timing.bitsAt then None else timing.bits)
    && app.run == if !timing.starts || i <= timing.startAt then Stopped
                  else if i == timing.startAt + 1 then Starting
                  else if i == timing.startAt + 2 || !timing.waits then Staged
                  else Running
  }

  ghost function NewAppCourse(cfg: Config, timing: Timing): Course {
    (i: nat, app: App) => IsNewApp(cfg, timing, i, app)
  }

  lemma {:induction false} BindOnCourse(s: Schedule, w: World, g: Guid, cfg: Config, timing: Timing, i: nat)
    requires i <= |cfg.routes| < timing.bitsAt && |cfg.routes| <= timing.startAt
    requires g in w.apps && IsNewApp(cfg, timing, i, w.apps[g])
    ensures OnCourse(s, w, BindAll(s, w, g, cfg.routes[i..]).state, g, i,
                     NewAppCourse(cfg, timing))
    decreases |cfg.routes| - i
  {
    var course := NewAppCourse(cfg, timing);
    if i < |cfg.routes| {
      var app, route := w.apps[g], cfg.routes[i];
      assert cfg.routes[i..][0] == route && cfg.routes[i..][1..] == cfg.routes[i + 1..];
      var bound := if route in app.routes then app else app.(routes := app.routes + [route]);
      BoundOneMore(cfg.routes, app.routes, i);
      assert course(i + 1, bound);
      PutOnCourse(s, w, g, bound, i, course);
      var e := Bind(s, w, g, route);
      if e.status.Ok? {
        BindOnCourse(s, e.state, g, cfg, timing, i + 1);
        OnCourseThen(s, w, e.state, BindAll(s, w, g, cfg.routes[i..]).state, g, i, course);
      }
    } else {
      StayOnCourse(s, w, g, i, course);
    }
  }

  lemma BoundOneMore(wanted: seq<string>, routes: seq<string>, i: nat)
    requires i < |wanted| && Elems(routes) == Elems(wanted[..i])
    ensures var bound := if wanted[i] in routes then routes else routes + [wanted[i]];
            Elems(bound) == Elems(if i + 1 < |wanted| then wanted[..i + 1] else wanted)
  {
    assert wanted[..i + 1] == wanted[..i] + [wanted[i]];
    assert i + 1 == |wanted| ==> wanted[..i + 1] == wanted;
    assert Elems(wanted[..i + 1]) == Elems(wanted[..i]) + {wanted[i]};
    assert Elems(routes + [wanted[i]]) == Elems(routes) + {wanted[i]};
  }

  /** The timing suits a creation: routes, services, bits and start come in this order, and a creation
      that sends or starts nothing leaves that to later requests. */
  ghost predicate FitsCreation(cfg: Config, started: bool, sendBits: bool, timing: Timing) {
    var n := CallsBeforeBits(cfg);
    var sent := n + if sendBits then 4 else 0;
    && (if sendBits then timing.bitsAt == n + 2 && timing.bits == Some(cfg.path)
        else timing.bitsAt > sent + if started then 3 else 0)
    && timing.startAt >= sent
    && (if started then timing.starts && timing.startAt == sent && (timing.waits <==> cfg.instances != 0) else true)
  }

  lemma EquipOnCourse(s: Schedule, w: World, cfg: Config, started: bool, sendBits: bool, timing: Timing)
    requires FitsCreation(cfg, started, sendBits, timing)
    requires w.id in w.apps && IsNewApp(cfg, timing, |cfg.routes|, w.apps[w.id])
    ensures OnCourse(s, w, EquipApp(s, w, cfg, w.id, started, sendBits).state, w.id, |cfg.routes|,
                     NewAppCourse(cfg, timing))
  {
    var g, i, n := w.id, |cfg.routes|, CallsBeforeBits(cfg);
    var course := NewAppCourse(cfg, timing);
    var last, e1 := EquipApp(s, w, cfg, g, started, sendBits).state, BindServices(s, w, cfg);
    if cfg.services == [] {
      StayOnCourse(s, w, g, i, course);
    } else {
      assert course(i + 1, w.apps[g]);
      ProbeOnCourse(s, w, g, i, course);
    }
    if e1.status.Ok? {
      assert e1.state.apps == w.apps;
      SendAndStartOnCourse(s, e1.state, cfg, started, sendBits, timing);
      OnCourseThen(s, w, e1.state, last, g, i, course);
    }
  }

  lemma SendAndStartOnCourse(s: Schedule, w: World, cfg: Config, started: bool, sendBits: bool, timing: Timing)
    requires FitsCreation(cfg, started, sendBits, timing)
    requires w.id in w.apps && IsNewApp(cfg, timing, CallsBeforeBits(cfg), w.apps[w.id])
    ensures var sent := if sendBits then SendBits(s, w, cfg) else Effect(w, Ok);
            var e := if !sent.status.Ok? then sent
                     else if started then StartApp(s, sent.state, w.id, cfg.instances) else sent;
            OnCourse(s, w, e.state, w.id, CallsBeforeBits(cfg),
                     NewAppCourse(cfg, timing))
  {
    var g, n := w.id, CallsBeforeBits(cfg);
    var course := NewAppCourse(cfg, timing);
    var sent := if sendBits then SendBits(s, w, cfg) else Effect(w, Ok);
    if sendBits {
      SendOnCourse(s, w, cfg, n, course);
      SentBits(s, w, cfg);
    } else {
      StayOnCourse(s, w, g, n, course);
    }
    if sent.status.Ok? && started {
      StartsOnCourse(s, w, sent.state, g, cfg.instances, n, course);
    }
  }

  lemma FillOnCourse(s: Schedule, w: World, cfg: Config, started: bool, sendBits: bool, timing: Timing)
    requires FitsCreation(cfg, started, sendBits, timing)
    requires w.id in w.apps && w.apps[w.id] == NewApp(cfg)
    ensures OnCourse(s, w, FillApp(s, w, cfg, w.id, started, sendBits).state, w.id, 0,
                     NewAppCourse(cfg, timing))
  {
    var g, course := w.id, NewAppCourse(cfg, timing);
    assert cfg.routes[0..] == cfg.routes && Elems(NewApp(cfg).routes) == Elems(cfg.routes[..0]) == {};
    assert |cfg.routes| == 0 ==> Elems(cfg.routes) == {};
    BindOnCourse(s, w, g, cfg, timing, 0);
    NothingBound(cfg.routes);
    var e := BindRoutes(s, w, g, [], cfg.routes, cfg.ManagedRoutes());
    BindRoutesTakes(s, w, g, cfg.routes, cfg.ManagedRoutes());
    BindRoutesSpec(s, w, g, cfg.routes, cfg.ManagedRoutes());
    if e.status.Ok? {
      EquipOnCourse(s, e.state, cfg, started, sendBits, timing);
      OnCourseThen(s, w, e.state, FillApp(s, w, cfg, g, started, sendBits).state, g, 0, course);
    }
  }

  // ----- Blue-green runs -----

  /** In a deployment the bits are the second request after the services, in a restage they are copied
      right after the services; and a restage starts the app without waiting for an instance. */
  function TimingOf(w0: World, cfg: Config, steps: seq<Step>): Timing {
    var n := CallsBeforeBits(cfg);
    if steps == RESTAGE_STEPS then Timing(At(w0.apps, w0.id).bits, n + 1, n + 1, cfg.started, false)
    else Timing(Some(cfg.path), n + 2, n + 4, cfg.started, cfg.instances != 0)
  }

  /** The forward steps of a run that gets to d.SetId, from the state `pointed` on and up to the last
      step: e is where they stop. */
  ghost predicate ForwardOnCourse(s: Schedule, w0: World, cfg: Config, steps: seq<Step>, pointed: World,
                                  e: Effect<World>)
    requires IsBlueGreen(steps, cfg)
  {
    && |pointed.log| == |w0.log| + 3 && pointed.calls == w0.calls + 2
    && OnCourse(s, pointed, e.state, w0.issued, 0, NewAppCourse(cfg, TimingOf(w0, cfg, steps)))
    && Takes(s, w0, e, LastCall(w0, cfg, steps) - w0.calls)
    && e.state.log <= UpdateBg(s, cfg, steps, w0).state.log
  }

  /** The state with the app just created and pointed to. */
  function Pointed(s: Schedule, w0: World, cfg: Config): World {
    var w := Forward(s, cfg, w0.id, RenameOriginal, w0).state;
    SetId(Create(s, w, NewApp(cfg)).state, w.issued)
  }

  lemma CreationOnCourse(s: Schedule, w0: World, cfg: Config, started: bool, sendBits: bool, timing: Timing)
    requires Tracked(w0) && SetIdReached(s, w0, cfg) && FitsCreation(cfg, started, sendBits, timing)
    ensures var pointed := Pointed(s, w0, cfg);
            var e := CreateApp(s, Forward(s, cfg, w0.id, RenameOriginal, w0).state, cfg, started, sendBits);
            && |pointed.log| == |w0.log| + 3 && pointed.calls == w0.calls + 2
            && OnCourse(s, pointed, e.state, w0.issued, 0, NewAppCourse(cfg, timing))
  {
    FirstTwoRequests(s, w0, cfg);
    RenameStep(s, w0, cfg);
    var w, pointed := Forward(s, cfg, w0.id, RenameOriginal, w0).state, Pointed(s, w0, cfg);
    assert s(w0.calls + 1).Done?;
    assert NameFree(w.apps, cfg.name, w.issued);
    FillOnCourse(s, pointed, cfg, started, sendBits, timing);
  }

  /** How far creation gets, and that a run keeps its log. */
  lemma CreationIsLogged(s: Schedule, w0: World, cfg: Config, started: bool, sendBits: bool, rest: seq<Step>)
    requires Tracked(w0) && SetIdReached(s, w0, cfg)
    ensures var e := CreateApp(s, Forward(s, cfg, w0.id, RenameOriginal, w0).state, cfg, started, sendBits);
            var out := RunSteps(s, cfg, w0.id, [RenameOriginal, CreateNew(started, sendBits)] + rest, w0);
            && Takes(s, w0, e, 2 + FillCalls(cfg, started, sendBits))
            && if e.status.Ok? then
                 && Midway(w0, cfg, e.state) && out == RunSteps(s, cfg, w0.id, rest, e.state)
                 && IsFilled(e.state.apps[e.state.id], cfg, if sendBits then Some(cfg.path) else None,
                             Confirmed(started, cfg.instances))
               else e.state.log <= out.state.log
  {
    FirstTwo(s, w0, cfg, started, sendBits, rest);
    FirstTwoRequests(s, w0, cfg);
    CreationStops(s, w0, cfg, started, sendBits);
    var e := CreateApp(s, Forward(s, cfg, w0.id, RenameOriginal, w0).state, cfg, started, sendBits);
    UndoneLogs(s, cfg, w0.id, e);
  }

  lemma UndoneLogs(s: Schedule, cfg: Config, orig: Guid, e: Effect<World>)
    ensures e.status.Failed? ==> e.state.log <= Undone(s, cfg, orig, e).state.log
  {
  }

  lemma DeployOnCourse(s: Schedule, w0: World, cfg: Config) returns (e: Effect<World>)
    requires Tracked(w0) && SetIdReached(s, w0, cfg)
    ensures ForwardOnCourse(s, w0, cfg, DeploySteps(cfg), Pointed(s, w0, cfg), e)
  {
    var rest := [DeleteOriginal];
    assert DeploySteps(cfg) == [RenameOriginal, CreateNew(cfg.started, true)] + rest;
    assert |DeploySteps(cfg)| != |RESTAGE_STEPS|;
    RunIsRunSteps(s, cfg, w0.id, DeploySteps(cfg), w0);
    RequestsAreCounted(cfg);
    CreationIsLogged(s, w0, cfg, cfg.started, true, rest);
    CreationOnCourse(s, w0, cfg, cfg.started, true, TimingOf(w0, cfg, DeploySteps(cfg)));
    e := CreateApp(s, Forward(s, cfg, w0.id, RenameOriginal, w0).state, cfg, cfg.started, true);
    JustDelete(s, cfg, w0.id, e.state);
  }

  lemma CopyOnCourse(s: Schedule, w: World, orig: Guid, i: nat, course: Course)
    requires orig in w.apps && w.id in w.apps && course(i, w.apps[w.id])
    requires course(i + 1, w.apps[w.id].(bits := w.apps[orig].bits))
    ensures OnCourse(s, w, CopyBitsTo(s, w, orig, w.id).state, w.id, i, course)
  {
    assert AfterRequest(s, w, CopyBitsTo(s, w, orig, w.id).state, w.id, i, course, 0);
  }

  lemma MiddleOnCourse(s: Schedule, w0: World, cfg: Config, w: World)
    requires Tracked(w0) && Midway(w0, cfg, w) && IsFilled(w.apps[w.id], cfg, None, Stopped)
    ensures OnCourse(s, w, MiddleSteps(s, cfg, w0.id, w).state, w.id, CallsBeforeBits(cfg),
                     NewAppCourse(cfg, TimingOf(w0, cfg, RESTAGE_STEPS)))
  {
    var n, orig, bits := CallsBeforeBits(cfg), w0.id, w0.apps[w0.id].bits;
    var app, course := w.apps[w.id], NewAppCourse(cfg, TimingOf(w0, cfg, RESTAGE_STEPS));
    OriginalKeepsBits(w0, cfg, w);
    MiddleCourse(w0, cfg, app);
    CopyOnCourse(s, w, orig, n, course);
    var e := Forward(s, cfg, orig, CopyBits, w);
    if e.status.Ok? && cfg.started {
      StartsOnCourse(s, w, e.state, w.id, 0, n, course);
    }
  }

  lemma OriginalKeepsBits(w0: World, cfg: Config, w: World)
    requires Tracked(w0) && Midway(w0, cfg, w)
    ensures w0.id in w.apps && w.apps[w0.id].bits == w0.apps[w0.id].bits
  {
  }

  lemma MiddleCourse(w0: World, cfg: Config, app: App)
    requires w0.id in w0.apps && IsFilled(app, cfg, None, Stopped)
    ensures var n, bits := CallsBeforeBits(cfg), w0.apps[w0.id].bits;
            var course := NewAppCourse(cfg, TimingOf(w0, cfg, RESTAGE_STEPS));
            && course(n, app) && course(n + 1, app.(bits := bits))
            && (cfg.started ==>
                  && course(n + 2, app.(bits := bits, run := Starting))
                  && course(n + 3, app.(bits := bits, run := Staged))
                  && course(n + 4, app.(bits := bits, run := Staged)))
  {
  }

  lemma RestageOnCourse(s: Schedule, w0: World, cfg: Config) returns (e: Effect<World>)
    requires Tracked(w0) && SetIdReached(s, w0, cfg)
    ensures ForwardOnCourse(s, w0, cfg, RESTAGE_STEPS, Pointed(s, w0, cfg), e)
  {
    var rest := [CopyBits, StartNew, DeleteOriginal];
    assert RESTAGE_STEPS == [RenameOriginal, CreateNew(false, false)] + rest;
    RunIsRunSteps(s, cfg, w0.id, RESTAGE_STEPS, w0);
    RestageReached(s, w0, cfg);
    e := RestageForward(s, w0, cfg);
  }

  lemma RestageForward(s: Schedule, w0: World, cfg: Config) returns (e: Effect<World>)
    requires Tracked(w0) && SetIdReached(s, w0, cfg)
    ensures var pointed, rest := Pointed(s, w0, cfg), [CopyBits, StartNew, DeleteOriginal];
            var out := RunSteps(s, cfg, w0.id, [RenameOriginal, CreateNew(false, false)] + rest, w0);
            && |pointed.log| == |w0.log| + 3 && pointed.calls == w0.calls + 2
            && OnCourse(s, pointed, e.state, w0.issued, 0, NewAppCourse(cfg, TimingOf(w0, cfg, RESTAGE_STEPS)))
            && Takes(s, w0, e, 3 + CallsBeforeBits(cfg) + if cfg.started then 3 else 0)
            && e.state.log <= out.state.log
  {
    CreationIsLogged(s, w0, cfg, false, false, [CopyBits, StartNew, DeleteOriginal]);
    CreationOnCourse(s, w0, cfg, false, false, TimingOf(w0, cfg, RESTAGE_STEPS));
    var created := CreateApp(s, Forward(s, cfg, w0.id, RenameOriginal, w0).state, cfg, false, false);
    e := RestageFrom(s, w0, cfg, Pointed(s, w0, cfg), created);
  }

  /** From the end of its creation on. */
  lemma RestageFrom(s: Schedule, w0: World, cfg: Config, pointed: World, created: Effect<World>)
    returns (e: Effect<World>)
    requires Tracked(w0) && pointed.calls == w0.calls + 2 && Takes(s, w0, created, 2 + CallsBeforeBits(cfg))
    requires OnCourse(s, pointed, created.state, w0.issued, 0, NewAppCourse(cfg, TimingOf(w0, cfg, RESTAGE_STEPS)))
    requires var w := created.state;
             created.status.Ok? ==> Midway(w0, cfg, w) && IsFilled(w.apps[w.id], cfg, None, Stopped)
    ensures Takes(s, w0, e, 3 + CallsBeforeBits(cfg) + if cfg.started then 3 else 0)
    ensures OnCourse(s, pointed, e.state, w0.issued, 0, NewAppCourse(cfg, TimingOf(w0, cfg, RESTAGE_STEPS)))
    ensures if created.status.Ok?
            then e.state.log <= RunSteps(s, cfg, w0.id, [CopyBits, StartNew, DeleteOriginal], created.state).state.log
            else e == created
  {
    e := created;
    if created.status.Ok? {
      e := RestMiddle(s, w0, cfg, pointed, created.state);
    }
    TakesThen(s, w0, created, e, 2 + CallsBeforeBits(cfg), 1 + if cfg.started then 3 else 0);
  }

  lemma RestMiddle(s: Schedule, w0: World, cfg: Config, pointed: World, w: World) returns (e: Effect<World>)
    requires Tracked(w0) && Midway(w0, cfg, w) && IsFilled(w.apps[w.id], cfg, None, Stopped)
    requires OnCourse(s, pointed, w, w0.issued, 0, NewAppCourse(cfg, TimingOf(w0, cfg, RESTAGE_STEPS)))
    requires w.calls - pointed.calls == CallsBeforeBits(cfg)
    ensures Takes(s, w, e, 1 + if cfg.started then 3 else 0)
    ensures OnCourse(s, pointed, e.state, w0.issued, 0, NewAppCourse(cfg, TimingOf(w0, cfg, RESTAGE_STEPS)))
    ensures e.state.log <= RunSteps(s, cfg, w0.id, [CopyBits, StartNew, DeleteOriginal], w).state.log
  {
    e := RestageMiddle(s, w0, cfg, w);
    MiddleOnCourse(s, w0, cfg, w);
    OnCourseThen(s, pointed, w, e.state, w0.issued, 0, NewAppCourse(cfg, TimingOf(w0, cfg, RESTAGE_STEPS)));
  }

  /** Operations get to a request if all before it are acknowledged. */
  lemma GetsTo(s: Schedule, w: World, e: Effect<World>, n: nat, f: nat)
    requires Takes(s, w, e, n) && w.calls <= f < w.calls + n && AllDone(s, w.calls, f)
    ensures f < e.state.calls
  {
  }

  lemma RunOnCourse(s: Schedule, w0: World, cfg: Config, steps: seq<Step>) returns (e: Effect<World>)
    requires Tracked(w0) && IsBlueGreen(steps, cfg) && SetIdReached(s, w0, cfg)
    ensures ForwardOnCourse(s, w0, cfg, steps, Pointed(s, w0, cfg), e)
  {
    if steps == RESTAGE_STEPS {
      e := RestageOnCourse(s, w0, cfg);
    } else {
      e := DeployOnCourse(s, w0, cfg);
    }
  }

  lemma ReadOff(s: Schedule, w0: World, cfg: Config, steps: seq<Step>, pointed: World, e: Effect<World>, f: nat)
    requires IsBlueGreen(steps, cfg) && ForwardOnCourse(s, w0, cfg, steps, pointed, e)
    requires w0.calls + 2 <= f < LastCall(w0, cfg, steps) && AllDone(s, w0.calls, f)
    ensures var log, k := UpdateBg(s, cfg, steps, w0).state.log, |w0.log| + 1 + (f - w0.calls);
            && k < |log| && w0.issued in log[k].apps
            && IsNewApp(cfg, TimingOf(w0, cfg, steps), Effective(s, f - w0.calls - 2, f), log[k].apps[w0.issued])
  {
    var j := f - pointed.calls;
    GetsTo(s, w0, e, LastCall(w0, cfg, steps) - w0.calls, f);
    assert AfterRequest(s, pointed, e.state, w0.issued, 0, NewAppCourse(cfg, TimingOf(w0, cfg, steps)), j);
  }

  /** The order in which a run equips its new app.  Right after request f, any request between d.SetId
      and the last step that the run gets to, the new app has the routes bound so far, no bits before
      they are sent or copied, and is not started before that either. */
  lemma StateAfterRequest(s: Schedule, w0: World, cfg: Config, steps: seq<Step>, f: nat)
    requires Tracked(w0) && IsBlueGreen(steps, cfg) && SetIdReached(s, w0, cfg)
    requires w0.calls + 2 <= f < LastCall(w0, cfg, steps) && AllDone(s, w0.calls, f)
    ensures var log, k := UpdateBg(s, cfg, steps, w0).state.log, |w0.log| + 1 + (f - w0.calls);
            && k < |log| && w0.issued in log[k].apps
            && IsNewApp(cfg, TimingOf(w0, cfg, steps), Effective(s, f - w0.calls - 2, f), log[k].apps[w0.issued])
  {
    var e := RunOnCourse(s, w0, cfg, steps);
    ReadOff(s, w0, cfg, steps, Pointed(s, w0, cfg), e, f);
  }

  // ----- Updates in place -----

  /** The app after i requests of a deployment in place: stopped, given its bits, then started. */
  ghost predicate IsDeployedInPlace(cfg: Config, before: App, i: nat, app: App) {
    app == if i == 0 then before
           else before.(bits := if i < 3 then before.bits else Some(cfg.path),
                        run := if i < 6 then Stopped else if i == 6 then Starting else Staged)
  }

  /** The app after i requests of a restage in place: reconfigured and stopped at once, then started. */
  ghost predicate IsRestagedInPlace(cfg: Config, before: App, i: nat, app: App) {
    app == if i == 0 then before
           else before.(name := cfg.name, settings := cfg.settings, instances := cfg.instances,
                        run := if i < 3 then Stopped else if i == 3 then Starting else Staged)
  }

  ghost function DeployCourse(cfg: Config, before: App): Course {
    (i: nat, app: App) => IsDeployedInPlace(cfg, before, i, app)
  }

  ghost function RestageCourse(cfg: Config, before: App): Course {
    (i: nat, app: App) => IsRestagedInPlace(cfg, before, i, app)
  }

  lemma DeployCourseAt(cfg: Config, before: App)
    ensures var course, stopped := DeployCourse(cfg, before), before.(run := Stopped);
            var sent := stopped.(bits := Some(cfg.path));
            && course(0, before) && course(1, stopped) && course(2, stopped)
            && course(3, sent) && course(4, sent) && course(5, sent)
            && course(6, sent.(run := Starting)) && course(7, sent.(run := Staged)) && course(8, sent.(run := Staged))
  {
  }

  /** A deployment in place stops the app, sends the bits, and starts it. */
  lemma DeployInPlaceOrder(s: Schedule, w0: World, cfg: Config)
    requires w0.id in w0.apps
    ensures OnCourse(s, w0, DeployInPlaceNow(s, w0, cfg).state, w0.id, 0, DeployCourse(cfg, w0.apps[w0.id]))
  {
    var g, before, e1 := w0.id, w0.apps[w0.id], StopApp(s, w0, w0.id);
    var course := DeployCourse(cfg, before);
    DeployCourseAt(cfg, before);
    PutOnCourse(s, w0, g, before.(run := Stopped), 0, course);
    if e1.status.Ok? {
      var e2 := SendBits(s, e1.state, cfg);
      SendsOnCourse(s, w0, e1.state, cfg, 0, course);
      SentBits(s, e1.state, cfg);
      if e2.status.Ok? {
        StartsOnCourse(s, w0, e2.state, g, 0, 0, course);
      }
    }
  }

  /** A restage in place reconfigures and stops the app, and starts it. */
  lemma RestageInPlaceOrder(s: Schedule, w0: World, cfg: Config)
    requires w0.id in w0.apps && cfg.paramsOk && NameFree(w0.apps, cfg.name, w0.id)
    ensures OnCourse(s, w0, RestageInPlaceNow(s, w0, cfg).state, w0.id, 0, RestageCourse(cfg, w0.apps[w0.id]))
  {
    var g, before, e1 := w0.id, w0.apps[w0.id], Reconfigure(s, w0, cfg);
    var course := RestageCourse(cfg, before);
    var now := before.(name := cfg.name, settings := cfg.settings, instances := cfg.instances, run := Stopped);
    assert course(0, before) && course(1, now) && course(2, now);
    assert AfterRequest(s, w0, e1.state, g, 0, course, 0);
    if e1.status.Ok? {
      var e2 := StopApp(s, e1.state, g);
      PutsOnCourse(s, w0, e1.state, g, now, 0, course);
      if e2.status.Ok? {
        assert course(3, now.(run := Starting)) && course(4, now.(run := Staged)) && course(5, now.(run := Staged));
        StartsOnCourse(s, w0, e2.state, g, 0, 0, course);
      }
    }
  }
}
