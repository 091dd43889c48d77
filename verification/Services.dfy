/**
  What a declaration says (service/service.go) and when two declarations describe the
  same container (supervisor/commands.go). Durations stay the text the operator wrote;
  the module that needs a parsed one takes it as a number.
*/
module Services {

  datatype Service = Service(
    name: string,
    args: seq<string>,
    dir: string,
    env: seq<string>,
    state: string,
    restart: string,
    stopTimeout: real,
    image: string,
    ports: seq<string>,
    volumes: seq<string>,
    domain: seq<string>,
    upstreamPort: real,
    memory: real,
    cpus: real,
    every: string,
    overlap: string,
    maxParallel: real,
    runTimeout: string,
    configHash: string)
  {
    /** Whether it runs by the clock and ends, rather than staying up. */
    predicate IsJob() { every != "" }

    predicate WantRunning() { state == "running" }

    /** How many runs may go at once; ten where no ceiling is declared. */
    function Parallel(): int {
      if maxParallel <= 0.0 then 10 else maxParallel.Floor
    }
  }

  /** A service of which nothing is known but the name. */
  function Bare(name: string): Service {
    Service(name, [], "", [], "", "", 0.0, "", [], [], [], 0.0, 0.0, 0.0, "", "", 0.0, "", "")
  }

  /** The restart policy as the runtime spells it. */
  function RestartPolicy(svc: Service): string {
    if svc.restart == "on-failure" then "on-failure"
    else if svc.restart == "never" then "no"
    else "unless-stopped"
  }

  /** The plan's question: would the container of `b` be the container of `a`? */
  predicate SameDefinition(a: Service, b: Service) {
    && a.dir == b.dir && a.restart == b.restart && a.stopTimeout == b.stopTimeout
    && a.image == b.image && a.memory == b.memory && a.cpus == b.cpus
    && a.configHash == b.configHash
    && a.every == b.every && a.overlap == b.overlap
    && a.maxParallel == b.maxParallel && a.runTimeout == b.runTimeout
    && a.args == b.args && a.env == b.env && a.ports == b.ports && a.volumes == b.volumes
  }

  /** What a service is worth comparing once its name, state and proxy lines are set aside. */
  function Essence(svc: Service): Service {
    svc.(name := "", state := "", domain := [], upstreamPort := 0.0)
  }

  /** Nothing a container is built from escapes the comparison, and nothing else enters it. */
  lemma SameDefinitionIsEssence(a: Service, b: Service)
    ensures SameDefinition(a, b) <==> Essence(a) == Essence(b)
  {
  }

  // What a plan says about an update -------------------------------------------

  datatype Part = Arguments | Environment | Dir | Image | Ports | Limits | Configuration
                | Restart | StopTimeout | Every | Overlap | MaxParallel | RunTimeout

  function When(changed: bool, part: Part): seq<Part> {
    if changed then [part] else []
  }

  /** The parts of an update's description, in the order they are written. */
  function DiffParts(a: Service, b: Service): seq<Part> {
    When(a.args != b.args, Arguments) + When(a.env != b.env, Environment)
    + When(a.dir != b.dir, Dir) + When(a.image != b.image, Image)
    + When(a.ports != b.ports, Ports) + When(a.memory != b.memory || a.cpus != b.cpus, Limits)
    + When(a.configHash != b.configHash, Configuration) + When(a.restart != b.restart, Restart)
    + When(a.stopTimeout != b.stopTimeout, StopTimeout) + When(a.every != b.every, Every)
    + When(a.overlap != b.overlap, Overlap) + When(a.maxParallel != b.maxParallel, MaxParallel)
    + When(a.runTimeout != b.runTimeout, RunTimeout)
  }

  /** An update is described by no part at all exactly when only its volumes moved. */
  lemma OnlyVolumesGoUnnamed(a: Service, b: Service)
    requires !SameDefinition(a, b)
    ensures DiffParts(a, b) == [] <==> SameDefinition(a, b.(volumes := a.volumes))
  {
    var parts := DiffParts(a, b);
    if !SameDefinition(a, b.(volumes := a.volumes)) {
      assert |parts| > 0;
    }
  }
}
