/** The app resource of resources/apps.go, as functions from a world to the world it leaves. */
module AppResource {
  import opened Wrappers
  import opened Rewind
  import opened CloudController

  /** What the resource reads from the Terraform configuration and state. */
  datatype Config = Config(
    changed: set<string>,       // the schema keys for which d.HasChange holds
    paramsOk: bool,             // memory and disk quota parse
    oldName: string,            // "" when the resource is not in the state yet
    name: string,
    settings: string,
    instances: int,
    started: bool,
    routes: seq<string>,
    oldRoutes: seq<string>,     // the routes recorded in the Terraform state
    services: seq<string>,
    path: string,
    bitsHasChanged: string,
    noBlueGreenRestage: bool,
    noBlueGreenDeploy: bool)
  {
    function OrigName(): string { if oldName == "" then name else oldName }

    /** The routes updateRoutes treats as managed by Terraform. */
    function ManagedRoutes(): seq<string> { if "routes" in changed then oldRoutes else [] }

    /** IsKeyUpdate: this key and no other has changed. */
    predicate IsKeyUpdate(key: string) { changed == {key} }

    predicate IsScaleAndRename() { changed == {"instances", "name"} }

    predicate IsBitsDiff() { "bits_has_changed" in changed || bitsHasChanged != "" }
  }

  const REWIND_FAILURE :=
    "Oh no. Something's gone wrong. I've tried to roll back but you should check to see if everything is OK."

  const BAD_PARAMS := "invalid memory or disk quota"

  function Venerable(name: string): string { name + "-venerable" }

  // ----- Routes -----

  function Missing(wanted: seq<string>, actual: seq<string>): (r: seq<string>)
    ensures forall x :: x in r <==> x in wanted && x !in actual
  {
    if wanted == [] then []
    else (if wanted[0] in actual then [] else [wanted[0]]) + Missing(wanted[1..], actual)
  }

  /** The test BindRoutes applies to a bound route: true if it is to be unbound. */
  predicate IsStale(route: string, wanted: seq<string>, managed: seq<string>) {
    forall r :: r in wanted ==> !(route == r || route !in managed)
  }

  function Stale(actual: seq<string>, wanted: seq<string>, managed: seq<string>): (r: seq<string>)
    ensures forall x :: x in r <==> x in actual && IsStale(x, wanted, managed)
  {
    if actual == [] then []
    else (if IsStale(actual[0], wanted, managed) then [actual[0]] else []) + Stale(actual[1..], wanted, managed)
  }

  function BindAll(s: Schedule, w: World, g: Guid, routes: seq<string>): Effect<World>
    decreases |routes|
  {
    if routes == [] then Effect(w, Ok)
    else
      var w1 :- Bind(s, w, g, routes[0]);
      BindAll(s, w1, g, routes[1..])
  }

  function UnbindAll(s: Schedule, w: World, g: Guid, routes: seq<string>): Effect<World>
    decreases |routes|
  {
    if routes == [] then Effect(w, Ok)
    else
      var w1 :- Unbind(s, w, g, routes[0]);
      UnbindAll(s, w1, g, routes[1..])
  }

  /** BindRoutes, given the routes the app was last seen with. */
  function BindRoutes(s: Schedule, w: World, g: Guid, actual: seq<string>, wanted: seq<string>,
                      managed: seq<string>): Effect<World>
  {
    if wanted == [] then Effect(w, Ok)
    else
      var w1 :- BindAll(s, w, g, Missing(wanted, actual));
      UnbindAll(s, w1, g, Stale(actual, wanted, managed))
  }

  // ----- Starting, stopping, sending bits -----

  /** Requests the start, waits for staging, then for an instance unless the caller's copy of the app
      says it has none. */
  function StartApp(s: Schedule, w: World, g: Guid, instances: int): Effect<World> {
    var w1 :- SetRun(s, w, g, Starting);
    var w2 :- SetRun(s, w1, g, Staged);
    if instances == 0 then Probe(s, w2) else SetRun(s, w2, g, Running)
  }

  function StopApp(s: Schedule, w: World, g: Guid): Effect<World> {
    SetRun(s, w, g, Stopped)
  }

  /** Building the package may fail; a failing upload panics; the two checksums may fail. */
  function SendBits(s: Schedule, w: World, cfg: Config): Effect<World> {
    var w1 :- Probe(s, w);
    var uploaded := SetBits(s, w1, w1.id, Some(cfg.path));
    if uploaded.status.Failed? then
      Effect(uploaded.state, Panicked(uploaded.status.message))
    else
      var w3 :- Probe(s, uploaded.state);
      Probe(s, w3)
  }

  /** BindServices, as far as it matters here: nothing to do, or calls that may fail. */
  function BindServices(s: Schedule, w: World, cfg: Config): Effect<World> {
    if cfg.services == [] then Effect(w, Ok) else Probe(s, w)
  }

  // ----- createApp -----

  function NewApp(cfg: Config): App {
    App(cfg.name, cfg.settings, cfg.instances, Stopped, None, [])
  }

  function CreateApp(s: Schedule, w: World, cfg: Config, started: bool, sendBits: bool): Effect<World> {
    if !cfg.paramsOk then Effect(w, Failed(BAD_PARAMS))
    else
      var w1 :- Create(s, w, NewApp(cfg));
      FillApp(s, SetId(w1, w.issued), cfg, w.issued, started, sendBits)
  }

  /** The rest of createApp, once the new app g exists and the state points to it. */
  function FillApp(s: Schedule, w: World, cfg: Config, g: Guid, started: bool, sendBits: bool): Effect<World> {
    var w1 :- BindRoutes(s, w, g, [], cfg.routes, cfg.ManagedRoutes());
    EquipApp(s, w1, cfg, g, started, sendBits)
  }

  /** And once its routes are bound. */
  function EquipApp(s: Schedule, w: World, cfg: Config, g: Guid, started: bool, sendBits: bool): Effect<World> {
    var w2 :- BindServices(s, w, cfg);
    var w3 :- if sendBits then SendBits(s, w2, cfg) else Effect(w2, Ok);
    if started then StartApp(s, w3, g, cfg.instances) else Effect(w3, Ok)
  }

  // ----- Blue-green updates -----

  /** The forward closures of the two blue-green lists. */
  datatype Step = RenameOriginal | CreateNew(started: bool, sendBits: bool) | CopyBits | StartNew | DeleteOriginal

  function Forward(s: Schedule, cfg: Config, orig: Guid, step: Step, w: World): Effect<World> {
    match step
    case RenameOriginal => Rename(s, w, orig, Venerable(cfg.OrigName()))
    case CreateNew(started, sendBits) => CreateApp(s, w, cfg, started, sendBits)
    case CopyBits => CopyBitsTo(s, w, orig, w.id)
    case StartNew => if cfg.started then StartApp(s, w, w.id, 0) else Effect(w, Ok)
    case DeleteOriginal => Delete(s, w, orig)
  }

  function CopyBitsTo(s: Schedule, w: World, from: Guid, to: Guid): Effect<World> {
    Request(s, w, from in w.apps && to in w.apps, w.apps[to := At(w.apps, to).(bits := At(w.apps, from).bits)])
  }

  /** The compensation: delete the app the state points to, ignoring any error, and give the original
      app its name back. */
  function Undo(s: Schedule, cfg: Config, orig: Guid, w: World): Effect<World> {
    Rename(s, Delete(s, w, w.id).state, orig, cfg.OrigName())
  }

  predicate HasUndo(step: Step) { !step.RenameOriginal? && !step.DeleteOriginal? }

  function ActionOf(s: Schedule, cfg: Config, orig: Guid, step: Step): Action<World> {
    Action(w => Forward(s, cfg, orig, step, w),
           if HasUndo(step) then Some(w => Undo(s, cfg, orig, w)) else None)
  }

  function ActionsOf(s: Schedule, cfg: Config, orig: Guid, steps: seq<Step>): (actions: seq<Action<World>>)
    ensures |actions| == |steps|
    ensures forall i :: 0 <= i < |steps| ==> actions[i] == ActionOf(s, cfg, orig, steps[i])
  {
    if steps == [] then [] else [ActionOf(s, cfg, orig, steps[0])] + ActionsOf(s, cfg, orig, steps[1..])
  }

  function DeploySteps(cfg: Config): seq<Step> {
    [RenameOriginal, CreateNew(cfg.started, true), DeleteOriginal]
  }

  const RESTAGE_STEPS := [RenameOriginal, CreateNew(false, false), CopyBits, StartNew, DeleteOriginal]

  function UpdateBg(s: Schedule, cfg: Config, steps: seq<Step>, w: World): Effect<World> {
    Run(ActionsOf(s, cfg, w.id, steps), REWIND_FAILURE, w)
  }

  // ----- createOrUpdate -----

  datatype Mode = CreateIt | Routes | Scale | RenameIt | ScaleAndRename | DeployInPlace | BlueGreenDeploy
                | RestageInPlace | BlueGreenRestage

  function ModeOf(cfg: Config, id: Guid): Mode {
    if id == NO_ID then CreateIt
    else if cfg.IsKeyUpdate("routes") then Routes
    else if cfg.IsKeyUpdate("instances") then Scale
    else if cfg.IsKeyUpdate("name") then RenameIt
    else if cfg.IsScaleAndRename() then ScaleAndRename
    else if cfg.IsBitsDiff() && cfg.noBlueGreenDeploy then DeployInPlace
    else if cfg.IsBitsDiff() then BlueGreenDeploy
    else if cfg.noBlueGreenRestage then RestageInPlace
    else BlueGreenRestage
  }

  function ScaleTo(s: Schedule, w: World, g: Guid, instances: int): Effect<World> {
    Put(s, w, g, At(w.apps, g).(instances := instances))
  }

  /** One update request carrying both a name and an instance count. */
  function ScaleAndRenameTo(s: Schedule, w: World, g: Guid, name: string, instances: int): Effect<World> {
    PutNamed(s, w, g, At(w.apps, g).(name := name, instances := instances))
  }

  /** One update request carrying all parameters, which include the state STOPPED. */
  function Reconfigure(s: Schedule, w: World, cfg: Config): Effect<World> {
    PutNamed(s, w, w.id, At(w.apps, w.id).(name := cfg.name, settings := cfg.settings,
                                           instances := cfg.instances, run := Stopped))
  }

  function UpdateRoutes(s: Schedule, w: World, cfg: Config): Effect<World> {
    var w1 :- Probe(s, w);
    BindRoutes(s, w1, w1.id, At(w1.apps, w1.id).routes, cfg.routes, cfg.ManagedRoutes())
  }

  function DeployInPlaceNow(s: Schedule, w: World, cfg: Config): Effect<World> {
    var w1 :- StopApp(s, w, w.id);
    var w2 :- SendBits(s, w1, cfg);
    StartApp(s, w2, w2.id, 0)
  }

  function RestageInPlaceNow(s: Schedule, w: World, cfg: Config): Effect<World> {
    if !cfg.paramsOk then Effect(w, Failed(BAD_PARAMS))
    else
      var w1 :- Reconfigure(s, w, cfg);
      var w2 :- StopApp(s, w1, w1.id);
      StartApp(s, w2, w2.id, 0)
  }

  function CreateOrUpdate(s: Schedule, w: World, cfg: Config): Effect<World> {
    match ModeOf(cfg, w.id)
    case CreateIt => CreateApp(s, w, cfg, cfg.started, true)
    case Routes => UpdateRoutes(s, w, cfg)
    case Scale => ScaleTo(s, w, w.id, cfg.instances)
    case RenameIt => Rename(s, w, w.id, cfg.name)
    case ScaleAndRename => ScaleAndRenameTo(s, w, w.id, cfg.name, cfg.instances)
    case DeployInPlace => DeployInPlaceNow(s, w, cfg)
    case BlueGreenDeploy => UpdateBg(s, cfg, DeploySteps(cfg), w)
    case RestageInPlace => RestageInPlaceNow(s, w, cfg)
    case BlueGreenRestage => UpdateBg(s, cfg, RESTAGE_STEPS, w)
  }
}
