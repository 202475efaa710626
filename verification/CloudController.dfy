/** The part of a Cloud Controller that an app resource talks to: the apps of one space, keyed by
    guid, behind requests that may fail.

    Whether a request is carried out, and whether the caller is told so, is decided by a schedule.
    Nothing is assumed about the schedule, so what is proved for every schedule is proved for every
    pattern of failures.  A request that the controller must reject (an unknown guid, a name already
    taken in the space) has no effect and fails whatever the schedule says. */
module CloudController {
  import opened Wrappers
  import opened Rewind

  type Guid = nat

  /** The id of a resource that does not exist yet. */
  const NO_ID: Guid := 0

  /** How far a start has been confirmed: Starting once requested, Staged once the droplet is built,
      Running once an instance was seen running. */
  datatype RunState = Stopped | Starting | Staged | Running

  datatype App = App(
    name: string,
    settings: string,        // memory, disk, buildpack, command, health check, environment, ...
    instances: int,
    run: RunState,
    bits: Option<string>,    // the uploaded package
    routes: seq<string>)     // guids of the bound routes

  type Apps = map<Guid, App>

  /** What an observer sees: the apps of the space and the id held by the Terraform state. */
  datatype Snapshot = Snapshot(apps: Apps, id: Guid)

  /** The fate of a legal request: carried out and acknowledged, not carried out, or carried out with
      the acknowledgement lost, so that the caller sees an error. */
  datatype Verdict = Done | Refused | Lost

  /** The fate of each request, by its position in the run. */
  type Schedule = nat -> Verdict

  datatype World = World(
    apps: Apps,
    id: Guid,               // d.Id()
    issued: Guid,           // every guid below this one may have been given out
    calls: nat,             // requests sent so far
    log: seq<Snapshot>)     // every state passed through, oldest first

  const REQUEST_FAILED := "request failed"

  predicate NameFree(apps: Apps, name: string, g: Guid) {
    forall h :: h in apps && h != g ==> apps[h].name != name
  }

  const BLANK := App("", "", 0, Stopped, None, [])

  function At(apps: Apps, g: Guid): App {
    if g in apps then apps[g] else BLANK
  }

  /** One request whose effect, if carried out, is `updated`. */
  function Request(s: Schedule, w: World, legal: bool, updated: Apps): Effect<World> {
    var verdict := s(w.calls);
    var apps := if legal && !verdict.Refused? then updated else w.apps;
    Effect(w.(apps := apps, calls := w.calls + 1, log := w.log + [Snapshot(apps, w.id)]),
           if legal && verdict.Done? then Ok else Failed(REQUEST_FAILED))
  }

  /** A request that changes nothing modelled here: a read, or a call to a service broker. */
  function Probe(s: Schedule, w: World): Effect<World> {
    Request(s, w, true, w.apps)
  }

  /** Replaces app g, which must exist. */
  function Put(s: Schedule, w: World, g: Guid, app: App): Effect<World> {
    Request(s, w, g in w.apps, w.apps[g := app])
  }

  /** Replaces app g, which must exist, by an app under a name that must be free. */
  function PutNamed(s: Schedule, w: World, g: Guid, app: App): Effect<World> {
    Request(s, w, g in w.apps && NameFree(w.apps, app.name, g), w.apps[g := app])
  }

  function Rename(s: Schedule, w: World, g: Guid, name: string): Effect<World> {
    PutNamed(s, w, g, At(w.apps, g).(name := name))
  }

  function SetRun(s: Schedule, w: World, g: Guid, run: RunState): Effect<World> {
    Put(s, w, g, At(w.apps, g).(run := run))
  }

  function SetBits(s: Schedule, w: World, g: Guid, bits: Option<string>): Effect<World> {
    Put(s, w, g, At(w.apps, g).(bits := bits))
  }

  function Delete(s: Schedule, w: World, g: Guid): Effect<World> {
    Request(s, w, g in w.apps, w.apps - {g})
  }

  /** Creates an app under the next guid.  The guid is used up even if the request fails. */
  function Create(s: Schedule, w: World, app: App): Effect<World> {
    var e := Request(s, w, NameFree(w.apps, app.name, w.issued), w.apps[w.issued := app]);
    e.(state := e.state.(issued := w.issued + 1))
  }

  function Bind(s: Schedule, w: World, g: Guid, route: string): Effect<World> {
    var app := At(w.apps, g);
    Put(s, w, g, if route in app.routes then app else app.(routes := app.routes + [route]))
  }

  function Unbind(s: Schedule, w: World, g: Guid, route: string): Effect<World> {
    var app := At(w.apps, g);
    Put(s, w, g, app.(routes := Without(app.routes, route)))
  }

  function Without(routes: seq<string>, route: string): (r: seq<string>)
    ensures forall x :: x in r <==> x in routes && x != route
  {
    if routes == [] then []
    else (if routes[0] == route then [] else [routes[0]]) + Without(routes[1..], route)
  }

  /** App names are unique in the space. */
  ghost predicate UniqueNames(apps: Apps) {
    forall g, h :: g in apps && h in apps && g != h ==> apps[g].name != apps[h].name
  }

  /** The controller's own guarantee: it refuses a request that would make two apps share a name, be it
      one that carries a name or one that creates an app; the others keep names. */
  lemma NamesStayUnique(s: Schedule, w: World)
    requires UniqueNames(w.apps)
    ensures forall g, app :: UniqueNames(PutNamed(s, w, g, app).state.apps)
    ensures forall app :: UniqueNames(Create(s, w, app).state.apps)
    ensures forall g :: UniqueNames(Delete(s, w, g).state.apps)
    ensures forall g, app: App :: app.name == At(w.apps, g).name ==> UniqueNames(Put(s, w, g, app).state.apps)
  {
  }

  /** d.SetId: the Terraform state now points to g. */
  function SetId(w: World, g: Guid): World {
    w.(id := g, log := w.log + [Snapshot(w.apps, g)])
  }
}
