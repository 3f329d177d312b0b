/**
 * The build orchestration of test/main.go:29-141: the ordered actions a
 * build performs (directories, template copies, generated files, `gofmt`
 * runs and the final tarball), how portals are dispatched on their type,
 * and how a failing action stops the build.
 *
 * The filesystem, `cp`, `gofmt` and `tar` are not modelled; each step is an
 * `Action` value, and whether an action succeeds is an oracle given to
 * `Execute`.
 */
module Build {
  import opened CaseConversion
  import opened Generation

  datatype Option<T> = None | Some(value: T)

  /** The portal types the build knows, and any other tag. */
  datatype PortalType = Ionic | Vuetify | OtherType(tag: string)

  /** A portal of the project: its display name and its type. */
  datatype Portal = Portal(name: string, portalType: PortalType)

  /**
   * The project schema as the build reads it. `valid` stands for the
   * outcome of the schema library's own validation.
   */
  datatype Project = Project(
    name: string,
    version: string,
    portals: seq<Portal>,
    entities: seq<Entity>,
    contracts: seq<Contract>,
    valid: bool)

  /**
   * One filesystem or process step of a build. `RenderContract` and
   * `RenderEntity` stand for `buildContractFile` and `buildEntityFile` on a
   * directory: the file they write is `ContractFile`/`EntityFile` below.
   */
  datatype Action =
    | MakeDirectory(path: string)
    | CreateTemporaryDirectory(path: string)
    | CopyTree(source: string, target: string)
    | RenderContract(directory: string, contract: Contract)
    | RenderEntity(directory: string, entity: Entity)
    | Format(directory: string)
    | Archive(file: string, root: string, member: string)

  /** Why a build stops. */
  datatype BuildError =
    | InvalidProject
    | UnsupportedPortal(portalType: PortalType)
    | PortalTypeMismatch(portalType: PortalType)
    | ActionFailed(action: Action)

  /** The outcome of one portal step: its copy, or the error it panics with. */
  datatype Step = Done(action: Action) | Failed(error: BuildError)

  /** The actions a build attempts, in order, and the error it stops with, if any. */
  datatype Plan = Plan(actions: seq<Action>, error: Option<BuildError>)

  // ---------------------------------------------------------------------------
  // Paths
  // ---------------------------------------------------------------------------

  /**
   * `filepath.Join` of two elements: an empty element is dropped, and the
   * two are separated by a single '/'.
   */
  function Join(a: string, b: string): string
  {
    if a == "" then b
    else if b == "" then a
    else if a[|a| - 1] == '/' then a + b
    else a + "/" + b
  }

  /** `s` ends with `suffix`, compared from the last character back. */
  predicate EndsWith(s: string, suffix: string)
    decreases |suffix|
  {
    |suffix| == 0 ||
    (|s| > 0 && s[|s| - 1] == suffix[|suffix| - 1] && EndsWith(s[..|s| - 1], suffix[..|suffix| - 1]))
  }

  lemma {:induction false} EndsWithIsSuffix(s: string, suffix: string)
    ensures EndsWith(s, suffix) <==> |suffix| <= |s| && s[|s| - |suffix|..] == suffix
    decreases |suffix|
  {
    if |suffix| > 0 && |s| > 0 {
      var s', t' := s[..|s| - 1], suffix[..|suffix| - 1];
      EndsWithIsSuffix(s', t');
      if |suffix| <= |s| {
        assert s[|s| - |suffix|..] == s'[|s'| - |t'|..] + [s[|s| - 1]];
        assert suffix == t' + [suffix[|suffix| - 1]];
      }
    }
  }

  /** `filepath.Join` of any number of elements, joined from the left. */
  function JoinAll(elements: seq<string>): string
  {
    if |elements| == 0 then "" else Join(JoinAll(elements[..|elements| - 1]), elements[|elements| - 1])
  }

  lemma JoinThree(a: string, b: string, c: string)
    ensures JoinAll([a, b, c]) == Join(Join(a, b), c)
  {
    assert [a, b, c][..2] == [a, b];
    assert [a, b][..1] == [a];
    assert [a][..0] == [];
    assert JoinAll([a]) == a;
    assert JoinAll([a, b]) == Join(a, b);
  }

  /** `strings.TrimSuffix`. */
  function TrimSuffix(s: string, suffix: string): (r: string)
    ensures EndsWith(s, suffix) ==> |suffix| <= |s| && r == s[..|s| - |suffix|]
    ensures !EndsWith(s, suffix) ==> r == s
  {
    EndsWithIsSuffix(s, suffix);
    if EndsWith(s, suffix) then s[..|s| - |suffix|] else s
  }

  /** `strings.TrimPrefix`. */
  function TrimPrefix(s: string, prefix: string): string
  {
    if |prefix| <= |s| && s[..|prefix|] == prefix then s[|prefix|..] else s
  }

  /** A path that is not empty and does not end with '/'. */
  predicate Plain(path: string)
  {
    path != "" && path[|path| - 1] != '/'
  }

  /** Joining two plain paths puts exactly one '/' between them, and gives a plain path. */
  lemma JoinPlain(a: string, b: string)
    requires Plain(a) && Plain(b)
    ensures Join(a, b) == a + "/" + b && Plain(Join(a, b))
  {
  }

  /**
   * Cutting the last element off a joined path and joining it back gives
   * the same path: this is how the generated files are placed into their
   * directory (test/main.go:159, 221).
   */
  lemma Rejoin(x: string, w: string)
    requires Plain(x) && Plain(w)
    ensures Join(TrimSuffix(Join(x, w), w), w) == Join(x, w)
  {
    var j := x + "/" + w;
    assert j[|j| - |w|..] == w;
    EndsWithIsSuffix(j, w);
    assert j[..|j| - |w|] == x + "/";
  }

  /**
   * The directory a project is assembled in, under the temporary directory.
   * `slug` is the function names are turned into directory names with: the
   * program uses `kebabCase` (see `ProjectPlan`); the plan is stated for any
   * such function.
   */
  function ProjectDirectory(p: Project, tmp: string, slug: string -> string): string
  {
    Join(tmp, slug(p.name))
  }

  function ApiTemplate(cacheDir: string): string { Join(cacheDir, "api/latest") }
  function ApiDirectory(projectDir: string): string { Join(projectDir, "api") }
  function ContractsDirectory(projectDir: string): string
  {
    JoinAll([ApiDirectory(projectDir), "service", "contracts"])
  }

  function LogicTemplate(cacheDir: string): string { JoinAll([cacheDir, "logic", "latest"]) }
  function LogicDirectory(projectDir: string): string { Join(projectDir, "logic") }
  function EntitiesDirectory(projectDir: string): string
  {
    JoinAll([LogicDirectory(projectDir), "service", "entities"])
  }

  /** The cached template tree of a supported portal type. */
  function PortalTemplate(t: PortalType, cacheDir: string): string
    requires t.Ionic? || t.Vuetify?
  {
    if t.Ionic? then Join(cacheDir, "portal-ionic/latest") else Join(cacheDir, "portal-vuetify/latest")
  }

  // ---------------------------------------------------------------------------
  // Generated files (test/main.go:101-141, 156-161, 218-223)
  // ---------------------------------------------------------------------------

  /** A file a build writes: its path and its lines. */
  datatype File = File(path: string, lines: seq<string>)

  /** The file `buildContractFile` writes for `c` given the directory `dir`. */
  function ContractFile(c: Contract, dir: string): File
  {
    File(JoinAll([TrimSuffix(dir, "contracts"), "contracts", ContractFileName(c)]), ContractLines(c))
  }

  /** The file `buildEntityFile` writes for `e` given the directory `dir`. */
  function EntityFile(e: Entity, dir: string): File
  {
    File(JoinAll([TrimSuffix(dir, "entities"), "entities", EntityFileName(e)]), EntityLines(e))
  }

  function ContractWrite(c: Contract, dir: string): Action { RenderContract(dir, c) }
  function EntityWrite(e: Entity, dir: string): Action { RenderEntity(dir, e) }

  /** The contract files, one per contract, in the order of the contracts. */
  function ContractWrites(cs: seq<Contract>, dir: string): seq<Action>
  {
    if |cs| == 0 then [] else ContractWrites(cs[..|cs| - 1], dir) + [ContractWrite(cs[|cs| - 1], dir)]
  }

  /** The entity files, one per entity, in the order of the entities. */
  function EntityWrites(es: seq<Entity>, dir: string): seq<Action>
  {
    if |es| == 0 then [] else EntityWrites(es[..|es| - 1], dir) + [EntityWrite(es[|es| - 1], dir)]
  }

  lemma {:induction false} ContractWritesInOrder(cs: seq<Contract>, dir: string)
    ensures |ContractWrites(cs, dir)| == |cs|
    ensures forall j :: 0 <= j < |cs| ==> ContractWrites(cs, dir)[j] == ContractWrite(cs[j], dir)
    decreases |cs|
  {
    if |cs| > 0 {
      var init := cs[..|cs| - 1];
      ContractWritesInOrder(init, dir);
      forall j | 0 <= j < |cs| ensures ContractWrites(cs, dir)[j] == ContractWrite(cs[j], dir) {
        if j < |cs| - 1 {
          assert cs[j] == init[j];
        }
      }
    }
  }

  lemma {:induction false} EntityWritesInOrder(es: seq<Entity>, dir: string)
    ensures |EntityWrites(es, dir)| == |es|
    ensures forall j :: 0 <= j < |es| ==> EntityWrites(es, dir)[j] == EntityWrite(es[j], dir)
    decreases |es|
  {
    if |es| > 0 {
      var init := es[..|es| - 1];
      EntityWritesInOrder(init, dir);
      forall j | 0 <= j < |es| ensures EntityWrites(es, dir)[j] == EntityWrite(es[j], dir) {
        if j < |es| - 1 {
          assert es[j] == init[j];
        }
      }
    }
  }

  /**
   * A contract file lands directly in the contracts directory of the api
   * tree, under its contract file name.
   */
  lemma ContractFileInDirectory(c: Contract, projectDir: string)
    requires Plain(projectDir)
    ensures var dir := ContractsDirectory(projectDir);
      ContractFile(c, dir) == File(dir + "/" + ContractFileName(c), ContractLines(c))
  {
    var api := ApiDirectory(projectDir);
    JoinPlain(projectDir, "api");
    JoinPlain(api, "service");
    var service := Join(api, "service");
    JoinThree(api, "service", "contracts");
    JoinPlain(service, "contracts");
    Rejoin(service, "contracts");
    var dir := ContractsDirectory(projectDir);
    var name := ContractFileName(c);
    JoinThree(TrimSuffix(dir, "contracts"), "contracts", name);
    assert name[|name| - 1] == 'o';
    JoinPlain(dir, name);
  }

  /**
   * An entity file lands directly in the entities directory of the logic
   * tree, under its entity file name.
   */
  lemma EntityFileInDirectory(e: Entity, projectDir: string)
    requires Plain(projectDir)
    ensures var dir := EntitiesDirectory(projectDir);
      EntityFile(e, dir) == File(dir + "/" + EntityFileName(e), EntityLines(e))
  {
    var logic := LogicDirectory(projectDir);
    JoinPlain(projectDir, "logic");
    JoinPlain(logic, "service");
    var service := Join(logic, "service");
    JoinThree(logic, "service", "entities");
    JoinPlain(service, "entities");
    Rejoin(service, "entities");
    var dir := EntitiesDirectory(projectDir);
    var name := EntityFileName(e);
    JoinThree(TrimSuffix(dir, "entities"), "entities", name);
    assert name[|name| - 1] == 'o';
    JoinPlain(dir, name);
  }

  /** `buildApi`: copy the api template, write the contract files, format them. */
  function ApiActions(p: Project, cacheDir: string, projectDir: string): seq<Action>
  {
    [CopyTree(ApiTemplate(cacheDir), ApiDirectory(projectDir))]
      + ContractWrites(p.contracts, ContractsDirectory(projectDir))
      + [Format(ContractsDirectory(projectDir))]
  }

  /** `buildLogic`: copy the logic template, write the entity files, format them. */
  function LogicActions(p: Project, cacheDir: string, projectDir: string): seq<Action>
  {
    [CopyTree(LogicTemplate(cacheDir), LogicDirectory(projectDir))]
      + EntityWrites(p.entities, EntitiesDirectory(projectDir))
      + [Format(EntitiesDirectory(projectDir))]
  }

  /**
   * The api step copies its template first, writes one file per contract in
   * order and formats the contracts directory last.
   */
  lemma ApiLayout(p: Project, cacheDir: string, projectDir: string)
    ensures var a := ApiActions(p, cacheDir, projectDir);
      |a| == |p.contracts| + 2 &&
      a[0] == CopyTree(ApiTemplate(cacheDir), ApiDirectory(projectDir)) &&
      (forall j :: 0 <= j < |p.contracts| ==> a[1 + j] == ContractWrite(p.contracts[j], ContractsDirectory(projectDir))) &&
      a[|a| - 1] == Format(ContractsDirectory(projectDir))
  {
    ContractWritesInOrder(p.contracts, ContractsDirectory(projectDir));
  }

  /**
   * The logic step copies its template first, writes one file per entity in
   * order and formats the entities directory last.
   */
  lemma LogicLayout(p: Project, cacheDir: string, projectDir: string)
    ensures var a := LogicActions(p, cacheDir, projectDir);
      |a| == |p.entities| + 2 &&
      a[0] == CopyTree(LogicTemplate(cacheDir), LogicDirectory(projectDir)) &&
      (forall j :: 0 <= j < |p.entities| ==> a[1 + j] == EntityWrite(p.entities[j], EntitiesDirectory(projectDir))) &&
      a[|a| - 1] == Format(EntitiesDirectory(projectDir))
  {
    EntityWritesInOrder(p.entities, EntitiesDirectory(projectDir));
  }

  // ---------------------------------------------------------------------------
  // Portals (test/main.go:54-66, 75-99)
  // ---------------------------------------------------------------------------

  /** `buildPortalIonic`, which first checks the type it is given. */
  function PortalIonic(portal: Portal, cacheDir: string, projectDir: string, slug: string -> string): Step
  {
    if portal.portalType != Ionic then Failed(PortalTypeMismatch(portal.portalType))
    else Done(CopyTree(Join(cacheDir, "portal-ionic/latest"), Join(projectDir, slug(portal.name))))
  }

  /** `buildPortalVuetify`, which first checks the type it is given. */
  function PortalVuetify(portal: Portal, cacheDir: string, projectDir: string, slug: string -> string): Step
  {
    if portal.portalType != Vuetify then Failed(PortalTypeMismatch(portal.portalType))
    else Done(CopyTree(Join(cacheDir, "portal-vuetify/latest"), Join(projectDir, slug(portal.name))))
  }

  predicate Supported(portal: Portal)
  {
    portal.portalType.Ionic? || portal.portalType.Vuetify?
  }

  /**
   * The `switch` on the portal type. It calls each portal builder only with
   * its own type, so their type checks never fire: a portal fails exactly
   * when its type is unsupported, and then with that type; a supported one
   * copies its type's template into the portal's kebab-named directory.
   */
  function Dispatch(portal: Portal, cacheDir: string, projectDir: string, slug: string -> string): (r: Step)
    ensures r.Failed? <==> !Supported(portal)
    ensures r.Failed? ==> r.error == UnsupportedPortal(portal.portalType)
    ensures r.Done? ==>
      r.action == CopyTree(PortalTemplate(portal.portalType, cacheDir), Join(projectDir, slug(portal.name)))
  {
    match portal.portalType
    case Ionic => PortalIonic(portal, cacheDir, projectDir, slug)
    case Vuetify => PortalVuetify(portal, cacheDir, projectDir, slug)
    case OtherType(_) => Failed(UnsupportedPortal(portal.portalType))
  }

  /** The portal steps from the `i`-th portal on, stopping at the first failure. */
  function PortalsFrom(portals: seq<Portal>, i: nat, cacheDir: string, projectDir: string, slug: string -> string): Plan
    decreases |portals| - i
  {
    if i >= |portals| then Plan([], None)
    else
      match Dispatch(portals[i], cacheDir, projectDir, slug)
      case Failed(e) => Plan([], Some(e))
      case Done(a) =>
        var rest := PortalsFrom(portals, i + 1, cacheDir, projectDir, slug);
        Plan([a] + rest.actions, rest.error)
  }

  /** The copy a supported portal makes. */
  function PortalCopy(portal: Portal, cacheDir: string, projectDir: string, slug: string -> string): Action
    requires Supported(portal)
  {
    CopyTree(PortalTemplate(portal.portalType, cacheDir), Join(projectDir, slug(portal.name)))
  }

  /** One portal step: a supported portal is copied and the rest follow; an unsupported one stops. */
  lemma PortalsFromStep(portals: seq<Portal>, i: nat, cacheDir: string, projectDir: string, slug: string -> string)
    requires i < |portals|
    ensures var r := PortalsFrom(portals, i, cacheDir, projectDir, slug);
      var rest := PortalsFrom(portals, i + 1, cacheDir, projectDir, slug);
      if Supported(portals[i]) then r == Plan([PortalCopy(portals[i], cacheDir, projectDir, slug)] + rest.actions, rest.error)
      else r == Plan([], Some(UnsupportedPortal(portals[i].portalType)))
  {
    var d := Dispatch(portals[i], cacheDir, projectDir, slug);
    if Supported(portals[i]) {
      assert d == Done(PortalCopy(portals[i], cacheDir, projectDir, slug));
    } else {
      assert d == Failed(UnsupportedPortal(portals[i].portalType));
    }
  }

  /** `actions` are the copies of the portals from `i` on, in order. */
  predicate CopiesFrom(actions: seq<Action>, portals: seq<Portal>, i: nat, cacheDir: string, projectDir: string, slug: string -> string)
  {
    i + |actions| <= |portals| &&
    forall k :: i <= k < i + |actions| ==>
      Supported(portals[k]) && actions[k - i] == PortalCopy(portals[k], cacheDir, projectDir, slug)
  }

  lemma CopiesFromCons(actions: seq<Action>, portals: seq<Portal>, i: nat, cacheDir: string, projectDir: string, slug: string -> string)
    requires i < |portals| && Supported(portals[i])
    requires CopiesFrom(actions, portals, i + 1, cacheDir, projectDir, slug)
    ensures CopiesFrom([PortalCopy(portals[i], cacheDir, projectDir, slug)] + actions, portals, i, cacheDir, projectDir, slug)
  {
    var all := [PortalCopy(portals[i], cacheDir, projectDir, slug)] + actions;
    forall k | i <= k < i + |all|
      ensures Supported(portals[k]) && all[k - i] == PortalCopy(portals[k], cacheDir, projectDir, slug)
    {
      if k > i {
        assert all[k - i] == actions[k - (i + 1)];
      }
    }
  }

  /**
   * When every portal from `i` on is supported, each of them copies its
   * template, in list order, and nothing fails.
   */
  lemma {:induction false} SupportedPortalsCopied(portals: seq<Portal>, i: nat, cacheDir: string, projectDir: string, slug: string -> string)
    requires i <= |portals|
    requires forall k :: i <= k < |portals| ==> Supported(portals[k])
    ensures var r := PortalsFrom(portals, i, cacheDir, projectDir, slug);
      r.error == None && |r.actions| == |portals| - i && CopiesFrom(r.actions, portals, i, cacheDir, projectDir, slug)
    decreases |portals| - i
  {
    if i < |portals| {
      PortalsFromStep(portals, i, cacheDir, projectDir, slug);
      SupportedPortalsCopied(portals, i + 1, cacheDir, projectDir, slug);
      CopiesFromCons(PortalsFrom(portals, i + 1, cacheDir, projectDir, slug).actions, portals, i, cacheDir, projectDir, slug);
    }
  }

  /**
   * When the `u`-th portal is the first unsupported one from `i` on, the
   * portals before it are copied in order and the step stops with the
   * unsupported type.
   */
  lemma {:induction false} UnsupportedPortalStops(portals: seq<Portal>, i: nat, u: nat, cacheDir: string, projectDir: string, slug: string -> string)
    requires i <= u < |portals| && !Supported(portals[u])
    requires forall k :: i <= k < u ==> Supported(portals[k])
    ensures var r := PortalsFrom(portals, i, cacheDir, projectDir, slug);
      r.error == Some(UnsupportedPortal(portals[u].portalType)) && |r.actions| == u - i &&
      CopiesFrom(r.actions, portals, i, cacheDir, projectDir, slug)
    decreases u - i
  {
    PortalsFromStep(portals, i, cacheDir, projectDir, slug);
    if i < u {
      UnsupportedPortalStops(portals, i + 1, u, cacheDir, projectDir, slug);
      CopiesFromCons(PortalsFrom(portals, i + 1, cacheDir, projectDir, slug).actions, portals, i, cacheDir, projectDir, slug);
    }
  }

  /** The portal steps only ever copy trees. */
  lemma {:induction false} PortalsOnlyCopy(portals: seq<Portal>, i: nat, cacheDir: string, projectDir: string, slug: string -> string)
    ensures forall k :: 0 <= k < |PortalsFrom(portals, i, cacheDir, projectDir, slug).actions| ==>
      PortalsFrom(portals, i, cacheDir, projectDir, slug).actions[k].CopyTree?
    decreases |portals| - i
  {
    if i < |portals| && Dispatch(portals[i], cacheDir, projectDir, slug).Done? {
      PortalsOnlyCopy(portals, i + 1, cacheDir, projectDir, slug);
      var r := PortalsFrom(portals, i, cacheDir, projectDir, slug);
      var rest := PortalsFrom(portals, i + 1, cacheDir, projectDir, slug);
      forall k | 0 <= k < |r.actions| ensures r.actions[k].CopyTree? {
        if k > 0 {
          assert r.actions[k] == rest.actions[k - 1];
        }
      }
    }
  }

  // ---------------------------------------------------------------------------
  // The whole build (test/main.go:29-73)
  // ---------------------------------------------------------------------------

  /** The tarball the build writes into `directory`. */
  function ArchiveFile(p: Project, directory: string, slug: string -> string): string
  {
    Join(directory, slug(p.name) + "-" + p.version + ".tar.gz")
  }

  /** The `tar` step: the project directory, named relative to the temporary directory. */
  function ArchiveOf(p: Project, directory: string, tmp: string, slug: string -> string): Action
  {
    Archive(ArchiveFile(p, directory, slug), tmp, TrimPrefix(ProjectDirectory(p, tmp, slug), tmp + "/"))
  }

  /** The steps before the api tree: the output directory, the temporary one and the project directory. */
  function Setup(p: Project, directory: string, tmp: string, slug: string -> string): seq<Action>
  {
    [MakeDirectory(directory), CreateTemporaryDirectory(tmp), MakeDirectory(ProjectDirectory(p, tmp, slug))]
  }

  /**
   * `buildProject` as a plan: an invalid project stops before any action;
   * otherwise the set-up, the api tree, the logic tree and the portals in
   * order, and the archive only when every portal is supported.
   */
  function PlanWith(p: Project, directory: string, cacheDir: string, tmp: string, slug: string -> string): Plan
  {
    if !p.valid then Plan([], Some(InvalidProject))
    else
      var projectDir := ProjectDirectory(p, tmp, slug);
      var built := Setup(p, directory, tmp, slug) + ApiActions(p, cacheDir, projectDir) + LogicActions(p, cacheDir, projectDir);
      var portals := PortalsFrom(p.portals, 0, cacheDir, projectDir, slug);
      if portals.error.Some? then Plan(built + portals.actions, portals.error)
      else Plan(built + portals.actions + [ArchiveOf(p, directory, tmp, slug)], None)
  }

  /** `buildProject`, which names directories with `kebabCase`. */
  function ProjectPlan(p: Project, directory: string, cacheDir: string, tmp: string): Plan
  {
    PlanWith(p, directory, cacheDir, tmp, Kebab)
  }

  predicate AllSupported(portals: seq<Portal>)
  {
    forall k :: 0 <= k < |portals| ==> Supported(portals[k])
  }

  /** An invalid project plans no action at all. */
  lemma InvalidProjectPlansNothing(p: Project, directory: string, cacheDir: string, tmp: string, slug: string -> string)
    requires !p.valid
    ensures PlanWith(p, directory, cacheDir, tmp, slug) == Plan([], Some(InvalidProject))
  {
  }

  /** Where each part of `s + api + logic + copies + [last]` sits. */
  lemma PartsAt(s: seq<Action>, api: seq<Action>, logic: seq<Action>, copies: seq<Action>, last: Action)
    ensures var all := s + api + logic + copies + [last];
      |all| == |s| + |api| + |logic| + |copies| + 1 &&
      all[..|s|] == s &&
      (forall j :: 0 <= j < |api| ==> all[|s| + j] == api[j]) &&
      (forall j :: 0 <= j < |logic| ==> all[|s| + |api| + j] == logic[j]) &&
      (forall k :: 0 <= k < |copies| ==> all[|s| + |api| + |logic| + k] == copies[k]) &&
      all[|all| - 1] == last
  {
    var all := s + api + logic + copies + [last];
    assert all[..|s|] == s;
    forall j | 0 <= j < |api| ensures all[|s| + j] == api[j] {
      assert all[|s| + j] == (s + api)[|s| + j];
    }
    forall j | 0 <= j < |logic| ensures all[|s| + |api| + j] == logic[j] {
      assert all[|s| + |api| + j] == (s + api + logic)[|s| + |api| + j];
    }
  }

  /** A valid project whose portals are all supported plans everything and the archive. */
  lemma CompletePlan(p: Project, directory: string, cacheDir: string, tmp: string, slug: string -> string)
    requires p.valid && AllSupported(p.portals)
    ensures var pd := ProjectDirectory(p, tmp, slug);
      var portals := PortalsFrom(p.portals, 0, cacheDir, pd, slug);
      portals.error == None && CopiesFrom(portals.actions, p.portals, 0, cacheDir, pd, slug) &&
      |portals.actions| == |p.portals| &&
      PlanWith(p, directory, cacheDir, tmp, slug) ==
        Plan(Setup(p, directory, tmp, slug) + ApiActions(p, cacheDir, pd) + LogicActions(p, cacheDir, pd)
          + portals.actions + [ArchiveOf(p, directory, tmp, slug)], None)
  {
    SupportedPortalsCopied(p.portals, 0, cacheDir, ProjectDirectory(p, tmp, slug), slug);
  }

  /** The front of a complete build: set-up, the api tree and the logic tree. */
  lemma PlanFront(p: Project, directory: string, cacheDir: string, tmp: string, slug: string -> string)
    requires p.valid && AllSupported(p.portals)
    ensures var plan := PlanWith(p, directory, cacheDir, tmp, slug);
      var pd := ProjectDirectory(p, tmp, slug);
      var a := 3 + |p.contracts| + 2;
      var l := a + |p.entities| + 2;
      plan.error == None &&
      |plan.actions| == l + |p.portals| + 1 &&
      plan.actions[..3] == Setup(p, directory, tmp, slug) &&
      plan.actions[3] == CopyTree(ApiTemplate(cacheDir), ApiDirectory(pd)) &&
      (forall j :: 0 <= j < |p.contracts| ==>
        plan.actions[4 + j] == ContractWrite(p.contracts[j], ContractsDirectory(pd))) &&
      plan.actions[a - 1] == Format(ContractsDirectory(pd)) &&
      plan.actions[a] == CopyTree(LogicTemplate(cacheDir), LogicDirectory(pd)) &&
      (forall j :: 0 <= j < |p.entities| ==>
        plan.actions[a + 1 + j] == EntityWrite(p.entities[j], EntitiesDirectory(pd))) &&
      plan.actions[l - 1] == Format(EntitiesDirectory(pd))
  {
    var pd := ProjectDirectory(p, tmp, slug);
    var api := ApiActions(p, cacheDir, pd);
    var logic := LogicActions(p, cacheDir, pd);
    var copies := PortalsFrom(p.portals, 0, cacheDir, pd, slug).actions;
    CompletePlan(p, directory, cacheDir, tmp, slug);
    ApiLayout(p, cacheDir, pd);
    LogicLayout(p, cacheDir, pd);
    PartsAt(Setup(p, directory, tmp, slug), api, logic, copies, ArchiveOf(p, directory, tmp, slug));
  }

  lemma CopyAt(front: seq<Action>, copies: seq<Action>, last: Action, k: nat)
    requires k < |copies|
    ensures (front + copies + [last])[|front| + k] == copies[k]
  {
    assert (front + copies + [last])[|front| + k] == (front + copies)[|front| + k];
  }

  /** The end of a complete build: one copy per portal in list order, then the archive. */
  lemma PlanBack(p: Project, directory: string, cacheDir: string, tmp: string, slug: string -> string)
    requires p.valid && AllSupported(p.portals)
    ensures var plan := PlanWith(p, directory, cacheDir, tmp, slug);
      var pd := ProjectDirectory(p, tmp, slug);
      var l := 3 + |p.contracts| + 2 + |p.entities| + 2;
      |plan.actions| == l + |p.portals| + 1 &&
      (forall k :: 0 <= k < |p.portals| ==> plan.actions[l + k] == PortalCopy(p.portals[k], cacheDir, pd, slug)) &&
      plan.actions[|plan.actions| - 1] == ArchiveOf(p, directory, tmp, slug)
  {
    var pd := ProjectDirectory(p, tmp, slug);
    var front := Setup(p, directory, tmp, slug) + ApiActions(p, cacheDir, pd) + LogicActions(p, cacheDir, pd);
    var copies := PortalsFrom(p.portals, 0, cacheDir, pd, slug).actions;
    var last := ArchiveOf(p, directory, tmp, slug);
    CompletePlan(p, directory, cacheDir, tmp, slug);
    ApiLayout(p, cacheDir, pd);
    LogicLayout(p, cacheDir, pd);
    assert |front| == 3 + |p.contracts| + 2 + |p.entities| + 2;
    forall k | 0 <= k < |p.portals| ensures (front + copies + [last])[|front| + k] == PortalCopy(p.portals[k], cacheDir, pd, slug) {
      CopyAt(front, copies, last, k);
    }
  }

  /**
   * The order of a complete build: three set-up steps; the api template
   * copy, one file per contract in order and the api `gofmt`; the logic
   * template copy, one file per entity in order and the logic `gofmt`; one
   * copy per portal in list order; the archive last.
   */
  lemma PlanOrder(p: Project, directory: string, cacheDir: string, tmp: string, slug: string -> string)
    requires p.valid && AllSupported(p.portals)
    ensures var plan := PlanWith(p, directory, cacheDir, tmp, slug);
      var pd := ProjectDirectory(p, tmp, slug);
      var a := 3 + |p.contracts| + 2;
      var l := a + |p.entities| + 2;
      plan.error == None &&
      |plan.actions| == l + |p.portals| + 1 &&
      plan.actions[..3] == Setup(p, directory, tmp, slug) &&
      plan.actions[3] == CopyTree(ApiTemplate(cacheDir), ApiDirectory(pd)) &&
      (forall j :: 0 <= j < |p.contracts| ==>
        plan.actions[4 + j] == ContractWrite(p.contracts[j], ContractsDirectory(pd))) &&
      plan.actions[a - 1] == Format(ContractsDirectory(pd)) &&
      plan.actions[a] == CopyTree(LogicTemplate(cacheDir), LogicDirectory(pd)) &&
      (forall j :: 0 <= j < |p.entities| ==>
        plan.actions[a + 1 + j] == EntityWrite(p.entities[j], EntitiesDirectory(pd))) &&
      plan.actions[l - 1] == Format(EntitiesDirectory(pd)) &&
      (forall k :: 0 <= k < |p.portals| ==> plan.actions[l + k] == PortalCopy(p.portals[k], cacheDir, pd, slug)) &&
      plan.actions[|plan.actions| - 1] == ArchiveOf(p, directory, tmp, slug)
  {
    PlanFront(p, directory, cacheDir, tmp, slug);
    PlanBack(p, directory, cacheDir, tmp, slug);
  }

  /**
   * A project with an unsupported portal stops at the first one, with its
   * type, and plans no archive.
   */
  lemma UnsupportedPortalNoArchive(p: Project, directory: string, cacheDir: string, tmp: string, slug: string -> string, u: nat)
    requires p.valid && u < |p.portals| && !Supported(p.portals[u])
    requires forall k :: 0 <= k < u ==> Supported(p.portals[k])
    ensures var plan := PlanWith(p, directory, cacheDir, tmp, slug);
      plan.error == Some(UnsupportedPortal(p.portals[u].portalType)) && NoArchive(plan.actions)
  {
    var pd := ProjectDirectory(p, tmp, slug);
    UnsupportedPortalStops(p.portals, 0, u, cacheDir, pd, slug);
    BuiltNoArchive(p, directory, cacheDir, tmp, slug);
  }

  /** Nothing before the portal copies' end is the archive. */
  lemma BuiltNoArchive(p: Project, directory: string, cacheDir: string, tmp: string, slug: string -> string)
    ensures var pd := ProjectDirectory(p, tmp, slug);
      NoArchive(Setup(p, directory, tmp, slug) + ApiActions(p, cacheDir, pd) + LogicActions(p, cacheDir, pd)
        + PortalsFrom(p.portals, 0, cacheDir, pd, slug).actions)
  {
    var pd := ProjectDirectory(p, tmp, slug);
    var s := Setup(p, directory, tmp, slug);
    var api := ApiActions(p, cacheDir, pd);
    var logic := LogicActions(p, cacheDir, pd);
    var portals := PortalsFrom(p.portals, 0, cacheDir, pd, slug).actions;
    ApiNoArchive(p, cacheDir, pd);
    LogicNoArchive(p, cacheDir, pd);
    PortalsOnlyCopy(p.portals, 0, cacheDir, pd, slug);
    assert NoArchive(portals);
    assert NoArchive(s);
    NoArchiveConcat(s, api);
    NoArchiveConcat(s + api, logic);
    NoArchiveConcat(s + api + logic, portals);
  }

  /**
   * The archive holds the project directory by its slug, relative to the
   * temporary directory it is taken from, and is named after the slug and
   * the version.
   */
  lemma ArchiveMemberIsSlug(p: Project, directory: string, tmp: string, slug: string -> string)
    requires Plain(tmp) && Plain(slug(p.name))
    ensures ArchiveOf(p, directory, tmp, slug).member == slug(p.name)
    ensures ArchiveOf(p, directory, tmp, slug).root == tmp
    ensures Plain(directory) ==>
      ArchiveOf(p, directory, tmp, slug).file == directory + "/" + slug(p.name) + "-" + p.version + ".tar.gz"
  {
    var k := slug(p.name);
    JoinPlain(tmp, k);
    var d := tmp + "/" + k;
    assert d[..|tmp + "/"|] == tmp + "/";
    assert d[|tmp + "/"|..] == k;
    var f := k + "-" + p.version + ".tar.gz";
    assert f[|f| - 1] == 'z';
    if Plain(directory) {
      JoinPlain(directory, f);
    }
  }

  /**
   * With `kebabCase` as the slug, a name whose kebab form is not empty names
   * the archive's member and the tarball `<kebab>-<version>.tar.gz`.
   */
  lemma ArchiveNamesKebab(p: Project, directory: string, tmp: string)
    requires Plain(tmp) && Kebab(p.name) != ""
    ensures ArchiveOf(p, directory, tmp, Kebab).member == Kebab(p.name)
    ensures Plain(directory) ==>
      ArchiveOf(p, directory, tmp, Kebab).file == directory + "/" + Kebab(p.name) + "-" + p.version + ".tar.gz"
  {
    KebabShape(p.name);
    ArchiveMemberIsSlug(p, directory, tmp, Kebab);
  }

  /**
   * A project name with an empty slug leaves the project directory equal
   * to the temporary directory, so the archive's member is the whole
   * temporary path rather than a name inside it.
   */
  lemma ArchiveOfEmptySlug(p: Project, directory: string, tmp: string, slug: string -> string)
    requires slug(p.name) == ""
    ensures ProjectDirectory(p, tmp, slug) == tmp
    ensures ArchiveOf(p, directory, tmp, slug).member == tmp
  {
  }

  // ---------------------------------------------------------------------------
  // Running a plan: every action may fail, and a failure panics
  // ---------------------------------------------------------------------------

  /** The actions attempted and the error the run stopped with, if any. */
  datatype Run = Run(attempted: seq<Action>, error: Option<BuildError>)

  /** Attempting `actions` in order; the first one that fails stops the run. */
  function Execute(actions: seq<Action>, succeeds: Action -> bool): Run
  {
    if |actions| == 0 then Run([], None)
    else if !succeeds(actions[0]) then Run([actions[0]], Some(ActionFailed(actions[0])))
    else
      var rest := Execute(actions[1..], succeeds);
      Run([actions[0]] + rest.attempted, rest.error)
  }

  /**
   * A run attempts a prefix of the actions. It ends without error exactly
   * when every action succeeds, and it then attempts them all; otherwise
   * it stops at the first failing action, after all earlier ones
   * succeeded.
   */
  lemma {:induction false} ExecuteStopsAtFirstFailure(actions: seq<Action>, succeeds: Action -> bool)
    ensures var r := Execute(actions, succeeds);
      |r.attempted| <= |actions| && r.attempted == actions[..|r.attempted|] &&
      (r.error == None <==> forall k :: 0 <= k < |actions| ==> succeeds(actions[k])) &&
      (r.error == None ==> r.attempted == actions) &&
      (r.error != None ==>
        |r.attempted| > 0 &&
        r.error == Some(ActionFailed(r.attempted[|r.attempted| - 1])) &&
        !succeeds(r.attempted[|r.attempted| - 1]) &&
        forall k :: 0 <= k < |r.attempted| - 1 ==> succeeds(r.attempted[k]))
  {
    if |actions| > 0 && succeeds(actions[0]) {
      var tail := actions[1..];
      ExecuteStopsAtFirstFailure(tail, succeeds);
      var rest := Execute(tail, succeeds);
      var r := Execute(actions, succeeds);
      assert r.attempted == [actions[0]] + rest.attempted;
      assert actions == [actions[0]] + tail;
      assert r.attempted == actions[..|r.attempted|];
      if rest.error == None {
        forall k | 0 <= k < |actions| ensures succeeds(actions[k]) {
          if k > 0 {
            assert actions[k] == tail[k - 1];
          }
        }
      } else {
        assert !succeeds(tail[|rest.attempted| - 1]);
        forall k | 0 <= k < |r.attempted| - 1 ensures succeeds(r.attempted[k]) {
          if k > 0 {
            assert r.attempted[k] == rest.attempted[k - 1];
          }
        }
      }
    }
  }

  /**
   * A plan run against the filesystem: its actions are attempted in order;
   * a failing action stops the build with that action, and otherwise the
   * plan's own error, if any, is the outcome.
   */
  function Outcome(plan: Plan, succeeds: Action -> bool): Run
  {
    var r := Execute(plan.actions, succeeds);
    if r.error.Some? then r else Run(r.attempted, plan.error)
  }

  /** `buildProject` run against the filesystem. */
  function Build(p: Project, directory: string, cacheDir: string, tmp: string, succeeds: Action -> bool): Run
  {
    Outcome(ProjectPlan(p, directory, cacheDir, tmp), succeeds)
  }

  /**
   * A build ends without error exactly when the project is valid, every
   * portal is supported and every planned action succeeds; it then has
   * attempted the whole plan and ends with the archive.
   */
  lemma BuildSucceedsIff(p: Project, directory: string, cacheDir: string, tmp: string, slug: string -> string, succeeds: Action -> bool)
    ensures var plan := PlanWith(p, directory, cacheDir, tmp, slug);
      var b := Outcome(plan, succeeds);
      (b.error == None <==>
        p.valid && AllSupported(p.portals) && forall k :: 0 <= k < |plan.actions| ==> succeeds(plan.actions[k])) &&
      (b.error == None ==>
        b.attempted == plan.actions && b.attempted[|b.attempted| - 1] == ArchiveOf(p, directory, tmp, slug))
  {
    var plan := PlanWith(p, directory, cacheDir, tmp, slug);
    ExecuteStopsAtFirstFailure(plan.actions, succeeds);
    if p.valid {
      if AllSupported(p.portals) {
        CompletePlan(p, directory, cacheDir, tmp, slug);
      } else {
        var u := FirstUnsupported(p.portals);
        UnsupportedPortalNoArchive(p, directory, cacheDir, tmp, slug, u);
      }
    }
  }

  /**
   * `buildProject` itself: it produces its archive, as its last action,
   * exactly when the project is valid, every portal is supported and every
   * planned action succeeds.
   */
  lemma BuildArchivesIff(p: Project, directory: string, cacheDir: string, tmp: string, succeeds: Action -> bool)
    ensures var plan := ProjectPlan(p, directory, cacheDir, tmp);
      var b := Build(p, directory, cacheDir, tmp, succeeds);
      (b.error == None <==>
        p.valid && AllSupported(p.portals) && forall k :: 0 <= k < |plan.actions| ==> succeeds(plan.actions[k])) &&
      (b.error == None ==> b.attempted[|b.attempted| - 1] == ArchiveOf(p, directory, tmp, Kebab))
  {
    BuildSucceedsIff(p, directory, cacheDir, tmp, Kebab, succeeds);
  }

  /** The first unsupported portal of a list that has one. */
  function FirstUnsupported(portals: seq<Portal>): (u: nat)
    requires !AllSupported(portals)
    ensures u < |portals| && !Supported(portals[u])
    ensures forall k :: 0 <= k < u ==> Supported(portals[k])
  {
    if !Supported(portals[0]) then 0
    else
      assert !AllSupported(portals[1..]) by {
        var k :| 0 <= k < |portals| && !Supported(portals[k]);
        assert portals[1..][k - 1] == portals[k];
      }
      var u := FirstUnsupported(portals[1..]);
      assert forall k :: 1 <= k <= u ==> portals[k] == portals[1..][k - 1];
      u + 1
  }

  /**
   * The archive is attempted only when the project is valid, every portal is
   * supported and every action before it succeeded.
   */
  lemma ArchiveOnlyAfterEverything(p: Project, directory: string, cacheDir: string, tmp: string, slug: string -> string,
                                   succeeds: Action -> bool, i: nat)
    requires var b := Outcome(PlanWith(p, directory, cacheDir, tmp, slug), succeeds);
      i < |b.attempted| && b.attempted[i].Archive?
    ensures p.valid && AllSupported(p.portals)
    ensures var b := Outcome(PlanWith(p, directory, cacheDir, tmp, slug), succeeds);
      forall k :: 0 <= k < i ==> succeeds(b.attempted[k])
  {
    var plan := PlanWith(p, directory, cacheDir, tmp, slug);
    var b := Outcome(plan, succeeds);
    ExecuteStopsAtFirstFailure(plan.actions, succeeds);
    assert b.attempted[i] == plan.actions[i];
    if !AllSupported(p.portals) && p.valid {
      var u := FirstUnsupported(p.portals);
      UnsupportedPortalNoArchive(p, directory, cacheDir, tmp, slug, u);
    }
    if p.valid && AllSupported(p.portals) {
      NoArchiveBeforeEnd(p, directory, cacheDir, tmp, slug);
    }
  }

  /** No action of `actions` is the archive. */
  predicate NoArchive(actions: seq<Action>)
  {
    forall k :: 0 <= k < |actions| ==> !actions[k].Archive?
  }

  lemma NoArchiveConcat(x: seq<Action>, y: seq<Action>)
    requires NoArchive(x) && NoArchive(y)
    ensures NoArchive(x + y)
  {
    forall k | 0 <= k < |x + y| ensures !(x + y)[k].Archive? {
      if k >= |x| {
        assert (x + y)[k] == y[k - |x|];
      }
    }
  }

  lemma ApiNoArchive(p: Project, cacheDir: string, projectDir: string)
    ensures NoArchive(ApiActions(p, cacheDir, projectDir))
  {
    var a := ApiActions(p, cacheDir, projectDir);
    ApiLayout(p, cacheDir, projectDir);
    forall k | 0 <= k < |a| ensures !a[k].Archive? {
      if 0 < k < |a| - 1 {
        assert a[1 + (k - 1)] == ContractWrite(p.contracts[k - 1], ContractsDirectory(projectDir));
      }
    }
  }

  lemma LogicNoArchive(p: Project, cacheDir: string, projectDir: string)
    ensures NoArchive(LogicActions(p, cacheDir, projectDir))
  {
    var a := LogicActions(p, cacheDir, projectDir);
    LogicLayout(p, cacheDir, projectDir);
    forall k | 0 <= k < |a| ensures !a[k].Archive? {
      if 0 < k < |a| - 1 {
        assert a[1 + (k - 1)] == EntityWrite(p.entities[k - 1], EntitiesDirectory(projectDir));
      }
    }
  }

  predicate NoArchiveBefore(actions: seq<Action>, n: nat)
    requires n <= |actions|
  {
    forall k :: 0 <= k < n ==> !actions[k].Archive?
  }

  lemma NoArchiveBeforeEnd(p: Project, directory: string, cacheDir: string, tmp: string, slug: string -> string)
    requires p.valid && AllSupported(p.portals)
    ensures var plan := PlanWith(p, directory, cacheDir, tmp, slug);
      |plan.actions| > 0 && NoArchiveBefore(plan.actions, |plan.actions| - 1)
  {
    var pd := ProjectDirectory(p, tmp, slug);
    SupportedPortalsCopied(p.portals, 0, cacheDir, pd, slug);
    BuiltNoArchive(p, directory, cacheDir, tmp, slug);
    var built := Setup(p, directory, tmp, slug) + ApiActions(p, cacheDir, pd) + LogicActions(p, cacheDir, pd)
      + PortalsFrom(p.portals, 0, cacheDir, pd, slug).actions;
    var all := built + [ArchiveOf(p, directory, tmp, slug)];
    assert PlanWith(p, directory, cacheDir, tmp, slug).actions == all;
    forall k | 0 <= k < |all| - 1 ensures !all[k].Archive? {
      assert all[k] == built[k];
    }
  }

  // ---------------------------------------------------------------------------
  // The build steps as loops (test/main.go:29-73, 101-141)
  // ---------------------------------------------------------------------------

  /** `buildApi`: the template copy, one file per contract, the `gofmt` run. */
  method BuildApi(p: Project, cacheDir: string, projectDir: string) returns (actions: seq<Action>)
    ensures actions == ApiActions(p, cacheDir, projectDir)
  {
    var contractsDirectory := ContractsDirectory(projectDir);
    actions := [CopyTree(ApiTemplate(cacheDir), ApiDirectory(projectDir))];
    var i := 0;
    while i < |p.contracts|
      invariant 0 <= i <= |p.contracts|
      invariant actions == [CopyTree(ApiTemplate(cacheDir), ApiDirectory(projectDir))]
        + ContractWrites(p.contracts[..i], contractsDirectory)
    {
      assert p.contracts[..i + 1][..i] == p.contracts[..i];
      actions := actions + [ContractWrite(p.contracts[i], contractsDirectory)];
      i := i + 1;
    }
    assert p.contracts[..i] == p.contracts;
    actions := actions + [Format(contractsDirectory)];
  }

  /** `buildLogic`: the template copy, one file per entity, the `gofmt` run. */
  method BuildLogic(p: Project, cacheDir: string, projectDir: string) returns (actions: seq<Action>)
    ensures actions == LogicActions(p, cacheDir, projectDir)
  {
    var entitiesDirectory := EntitiesDirectory(projectDir);
    actions := [CopyTree(LogicTemplate(cacheDir), LogicDirectory(projectDir))];
    var i := 0;
    while i < |p.entities|
      invariant 0 <= i <= |p.entities|
      invariant actions == [CopyTree(LogicTemplate(cacheDir), LogicDirectory(projectDir))]
        + EntityWrites(p.entities[..i], entitiesDirectory)
    {
      assert p.entities[..i + 1][..i] == p.entities[..i];
      actions := actions + [EntityWrite(p.entities[i], entitiesDirectory)];
      i := i + 1;
    }
    assert p.entities[..i] == p.entities;
    actions := actions + [Format(entitiesDirectory)];
  }

  /**
   * The portal loop of `buildProject`: each portal is dispatched on its type
   * in list order, and the first unsupported one stops the loop.
   */
  method BuildPortals(portals: seq<Portal>, cacheDir: string, projectDir: string, slug: string -> string)
    returns (copies: seq<Action>, err: Option<BuildError>)
    ensures Plan(copies, err) == PortalsFrom(portals, 0, cacheDir, projectDir, slug)
  {
    copies := [];
    var i := 0;
    while i < |portals|
      invariant 0 <= i <= |portals|
      invariant PortalsFrom(portals, 0, cacheDir, projectDir, slug) ==
        var rest := PortalsFrom(portals, i, cacheDir, projectDir, slug);
        Plan(copies + rest.actions, rest.error)
    {
      PortalsFromStep(portals, i, cacheDir, projectDir, slug);
      var step := Dispatch(portals[i], cacheDir, projectDir, slug);
      if step.Failed? {
        return copies, Some(step.error);
      }
      ghost var rest := PortalsFrom(portals, i + 1, cacheDir, projectDir, slug).actions;
      assert copies + ([step.action] + rest) == copies + [step.action] + rest;
      copies := copies + [step.action];
      i := i + 1;
    }
    err := None;
  }

  /**
   * `buildProject` given the temporary directory `tmp` it creates: the plan
   * of the build, stopping at the first unsupported portal.
   */
  method BuildProject(p: Project, directory: string, cacheDir: string, tmp: string) returns (plan: Plan)
    ensures plan == ProjectPlan(p, directory, cacheDir, tmp)
  {
    if !p.valid {
      return Plan([], Some(InvalidProject));
    }
    var projectSlug := Kebab(p.name);
    var projectDirectory := Join(tmp, projectSlug);
    var actions := [MakeDirectory(directory), CreateTemporaryDirectory(tmp), MakeDirectory(projectDirectory)];
    var api := BuildApi(p, cacheDir, projectDirectory);
    var logic := BuildLogic(p, cacheDir, projectDirectory);
    actions := actions + api + logic;
    var copies, err := BuildPortals(p.portals, cacheDir, projectDirectory, Kebab);
    actions := actions + copies;
    if err.Some? {
      return Plan(actions, err);
    }
    var projectFile := Join(directory, projectSlug + "-" + p.version + ".tar.gz");
    actions := actions + [Archive(projectFile, tmp, TrimPrefix(projectDirectory, tmp + "/"))];
    plan := Plan(actions, None);
  }
}
