/** How many requests the operations of an app resource send, and that nothing but a request that is
    not acknowledged stops them. */
module RequestCounts {
  import opened Wrappers
  import opened Rewind
  import opened CloudController
  import opened AppResource
  import opened AppFrames

  // ----- Counting requests -----

  /** Requests number `from` up to `to` are all carried out and acknowledged. */
  ghost predicate AllDone(s: Schedule, from: nat, to: nat) {
    forall i: nat :: from <= i < to ==> s(i).Done?
  }

  lemma AllDoneSplit(s: Schedule, from: nat, mid: nat, to: nat)
    requires from <= mid <= to
    ensures AllDone(s, from, to) <==> AllDone(s, from, mid) && AllDone(s, mid, to)
  {
  }

  lemma AllDoneOne(s: Schedule, from: nat)
    ensures AllDone(s, from, from + 1) <==> s(from).Done?
    ensures AllDone(s, from, from)
  {
  }

  /** Request f is the first from `from` on that is not acknowledged, and it comes before `to`. */
  ghost predicate FirstNotDone(s: Schedule, from: nat, to: nat, f: nat) {
    from <= f < to && AllDone(s, from, f) && !s(f).Done?
  }

  lemma FirstIsUnique(s: Schedule, from: nat, to: nat, to': nat, f: nat, f': nat)
    requires FirstNotDone(s, from, to, f) && FirstNotDone(s, from, to', f')
    ensures f == f'
  {
  }

  /** The first request not acknowledged after a stretch that was. */
  lemma FirstLater(s: Schedule, from: nat, mid: nat, to: nat, f: nat)
    requires from <= mid && AllDone(s, from, mid) && FirstNotDone(s, mid, to, f)
    ensures FirstNotDone(s, from, to, f)
  {
    AllDoneSplit(s, from, mid, f);
  }

  /** e comes from w by n requests, all of which must be done for it to be ok; otherwise it stops right
      after the first that is not. */
  ghost predicate Takes(s: Schedule, w: World, e: Effect<World>, n: nat) {
    && (e.status.Ok? <==> AllDone(s, w.calls, w.calls + n))
    && (e.status.Ok? ==> e.state.calls == w.calls + n)
    && (!e.status.Ok? ==> e.state.calls > w.calls && FirstNotDone(s, w.calls, w.calls + n, e.state.calls - 1))
  }

  lemma TakesThen(s: Schedule, w: World, e1: Effect<World>, e: Effect<World>, m: nat, n: nat)
    requires Takes(s, w, e1, m)
    requires if e1.status.Ok? then Takes(s, e1.state, e, n) else !e.status.Ok? && e.state.calls == e1.state.calls
    ensures Takes(s, w, e, m + n)
  {
    AllDoneSplit(s, w.calls, w.calls + m, w.calls + m + n);
    if e1.status.Ok? && !e.status.Ok? {
      FirstLater(s, w.calls, w.calls + m, w.calls + m + n, e.state.calls - 1);
    }
  }

  lemma PutTakesOne(s: Schedule, w: World, g: Guid, app: App)
    requires g in w.apps
    ensures Takes(s, w, Put(s, w, g, app), 1) && g in Put(s, w, g, app).state.apps
    ensures Takes(s, w, Probe(s, w), 1)
  {
    AllDoneOne(s, w.calls);
  }

  lemma {:induction false} BindAllTakes(s: Schedule, w: World, g: Guid, routes: seq<string>)
    requires g in w.apps
    ensures Takes(s, w, BindAll(s, w, g, routes), |routes|) && g in BindAll(s, w, g, routes).state.apps
    decreases |routes|
  {
    if routes == [] {
      AllDoneOne(s, w.calls);
    } else {
      var app := w.apps[g];
      var e := Bind(s, w, g, routes[0]);
      PutTakesOne(s, w, g, if routes[0] in app.routes then app else app.(routes := app.routes + [routes[0]]));
      if e.status.Ok? {
        BindAllTakes(s, e.state, g, routes[1..]);
      }
      TakesThen(s, w, e, BindAll(s, w, g, routes), 1, |routes| - 1);
    }
  }

  lemma StartAppTakes(s: Schedule, w: World, g: Guid, instances: int)
    requires g in w.apps
    ensures Takes(s, w, StartApp(s, w, g, instances), 3)
  {
    var e1 := SetRun(s, w, g, Starting);
    PutTakesOne(s, w, g, w.apps[g].(run := Starting));
    if e1.status.Ok? {
      var w1 := e1.state;
      var e2 := SetRun(s, w1, g, Staged);
      PutTakesOne(s, w1, g, w1.apps[g].(run := Staged));
      if e2.status.Ok? {
        PutTakesOne(s, e2.state, g, e2.state.apps[g].(run := Running));
      }
      TakesThen(s, w1, e2, StartApp(s, w, g, instances), 1, 1);
    }
    TakesThen(s, w, e1, StartApp(s, w, g, instances), 1, 2);
  }

  lemma SendBitsTakes(s: Schedule, w: World, cfg: Config)
    requires w.id in w.apps
    ensures var e := SendBits(s, w, cfg);
            Takes(s, w, e, 4) && (e.status.Panicked? <==> !e.status.Ok? && e.state.calls == w.calls + 2)
  {
    var e := SendBits(s, w, cfg);
    var e1 := Probe(s, w);
    PutTakesOne(s, w, w.id, BLANK);
    if e1.status.Ok? {
      var w1 := e1.state;
      var e2 := SetBits(s, w1, w1.id, Some(cfg.path));
      PutTakesOne(s, w1, w1.id, w1.apps[w1.id].(bits := Some(cfg.path)));
      if e2.status.Ok? {
        var e3 := Probe(s, e2.state);
        PutTakesOne(s, e2.state, w1.id, BLANK);
        if e3.status.Ok? {
          PutTakesOne(s, e3.state, w1.id, BLANK);
        }
        TakesThen(s, e2.state, e3, e, 1, 1);
      }
      TakesThen(s, w1, e2, e, 1, 2);
    }
    TakesThen(s, w, e1, e, 1, 3);
  }

  // ----- The requests of each step -----

  /** The requests that follow d.SetId in a creation, before the bits are sent. */
  function CallsBeforeBits(cfg: Config): nat {
    |cfg.routes| + if cfg.services == [] then 0 else 1
  }

  /** The requests that follow d.SetId in a creation. */
  function FillCalls(cfg: Config, started: bool, sendBits: bool): nat {
    |cfg.routes| + (if cfg.services == [] then 0 else 1) + (if sendBits then 4 else 0) + (if started then 3 else 0)
  }

  function StepCalls(cfg: Config, step: Step): nat {
    match step
    case CreateNew(started, sendBits) => 1 + FillCalls(cfg, started, sendBits)
    case StartNew => if cfg.started then 3 else 0
    case _ => 1
  }

  /** The requests of a run in which nothing fails. */
  function RequestsOf(cfg: Config, steps: seq<Step>): nat {
    if steps == [] then 0 else StepCalls(cfg, steps[0]) + RequestsOf(cfg, steps[1..])
  }

  lemma {:induction false} NothingBound(routes: seq<string>)
    ensures Missing(routes, []) == routes
  {
    if routes != [] {
      NothingBound(routes[1..]);
    }
  }

  lemma BindRoutesTakes(s: Schedule, w: World, g: Guid, wanted: seq<string>, managed: seq<string>)
    requires g in w.apps
    ensures Takes(s, w, BindRoutes(s, w, g, [], wanted, managed), |wanted|)
  {
    NothingBound(wanted);
    BindAllTakes(s, w, g, wanted);
  }

  lemma SendAndStartTakes(s: Schedule, w: World, cfg: Config, started: bool, sendBits: bool)
    requires w.id in w.apps
    ensures var sent := if sendBits then SendBits(s, w, cfg) else Effect(w, Ok);
            var e := if !sent.status.Ok? then sent
                     else if started then StartApp(s, sent.state, w.id, cfg.instances) else sent;
            && Takes(s, w, e, (if sendBits then 4 else 0) + (if started then 3 else 0))
            && (e.status.Panicked? <==> sendBits && !e.status.Ok? && e.state.calls == w.calls + 2)
  {
    var sent := if sendBits then SendBits(s, w, cfg) else Effect(w, Ok);
    var e := if !sent.status.Ok? then sent
    else if started then StartApp(s, sent.state, w.id, cfg.instances) else sent;
    var m := if sendBits then 4 else 0;
    AllDoneOne(s, w.calls);
    if sendBits {
      SendBitsTakes(s, w, cfg);
      SendBitsSpec(s, w, cfg);
    }
    if sent.status.Ok? {
      AllDoneOne(s, sent.state.calls);
      if started {
        StartAppTakes(s, sent.state, w.id, cfg.instances);
        StartAppSpec(s, sent.state, w.id, cfg.instances);
      }
    }
    TakesThen(s, w, sent, e, m, if started then 3 else 0);
  }

  lemma EquipAppTakes(s: Schedule, w: World, cfg: Config, started: bool, sendBits: bool)
    requires w.id in w.apps
    ensures var e := EquipApp(s, w, cfg, w.id, started, sendBits);
            var m := if cfg.services == [] then 0 else 1;
            && Takes(s, w, e, m + (if sendBits then 4 else 0) + (if started then 3 else 0))
            && (e.status.Panicked? <==> sendBits && !e.status.Ok? && e.state.calls == w.calls + m + 2)
  {
    var e, e1 := EquipApp(s, w, cfg, w.id, started, sendBits), BindServices(s, w, cfg);
    PutTakesOne(s, w, w.id, BLANK);
    AllDoneOne(s, w.calls);
    if e1.status.Ok? {
      SendAndStartTakes(s, e1.state, cfg, started, sendBits);
    }
    TakesThen(s, w, e1, e, if cfg.services == [] then 0 else 1,
              (if sendBits then 4 else 0) + (if started then 3 else 0));
  }

  lemma FillAppTakes(s: Schedule, w: World, cfg: Config, started: bool, sendBits: bool)
    requires w.id in w.apps && w.apps[w.id] == NewApp(cfg)
    ensures var e := FillApp(s, w, cfg, w.id, started, sendBits);
            && Takes(s, w, e, FillCalls(cfg, started, sendBits))
            && (e.status.Panicked? <==>
                sendBits && !e.status.Ok? && e.state.calls == w.calls + CallsBeforeBits(cfg) + 2)
  {
    var g, e := w.id, FillApp(s, w, cfg, w.id, started, sendBits);
    BindRoutesSpec(s, w, g, cfg.routes, cfg.ManagedRoutes());
    BindRoutesTakes(s, w, g, cfg.routes, cfg.ManagedRoutes());
    var e1 := BindRoutes(s, w, g, [], cfg.routes, cfg.ManagedRoutes());
    if e1.status.Ok? {
      EquipAppTakes(s, e1.state, cfg, started, sendBits);
    }
    TakesThen(s, w, e1, e, |cfg.routes|, FillCalls(cfg, started, sendBits) - |cfg.routes|);
  }

  lemma RequestsAreCounted(cfg: Config)
    ensures RequestsOf(cfg, DeploySteps(cfg)) == 3 + FillCalls(cfg, cfg.started, true)
    ensures RequestsOf(cfg, RESTAGE_STEPS) == 4 + FillCalls(cfg, false, false) + if cfg.started then 3 else 0
  {
    assert [DeleteOriginal][1..] == [];
    assert RequestsOf(cfg, [DeleteOriginal]) == 1;
    var create := CreateNew(cfg.started, true);
    assert [create, DeleteOriginal][1..] == [DeleteOriginal];
    assert DeploySteps(cfg)[1..] == [create, DeleteOriginal];
    assert [StartNew, DeleteOriginal][1..] == [DeleteOriginal];
    assert [CopyBits, StartNew, DeleteOriginal][1..] == [StartNew, DeleteOriginal];
    var bare := CreateNew(false, false);
    assert [bare, CopyBits, StartNew, DeleteOriginal][1..] == [CopyBits, StartNew, DeleteOriginal];
    assert RequestsOf(cfg, [CopyBits, StartNew, DeleteOriginal]) == 2 + if cfg.started then 3 else 0;
    assert RESTAGE_STEPS[1..] == [bare, CopyBits, StartNew, DeleteOriginal];
  }
}
