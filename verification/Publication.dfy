/** The state that guarded publication works on, what must hold of it at every moment, and what happens
    around the daemon (cmd/razdachad/network_generation.go, cmd/razdachad/reality.go,
    internal/ingressguard/startup.go). */
module Publication {
  import opened Options
  import opened Policies
  import Ingress

  type Bytes = string
  type Contents = map<string, string>
  type Endpoints = set<Ingress.Endpoint>

  /** A routing generation: a policy with the lists it was published with. A saved one is `legacy` when its
      record is of the first version, which knew no native lists, and its policy needs such lists. */
  datatype Generation = Generation(policy: Policy, lists: Contents, legacy: bool := false)

  /** The configuration generator and what its output holds. Nothing else is known of them: a
      configuration is generated from a policy, its lists and the users it may let in, it may be
      refused, and its listeners may not be acceptable. */
  datatype Generator = Generator(
    generate: (Policy, Contents, set<User>) -> Option<Bytes>,
    users: Bytes -> set<User>,
    endpoints: Bytes -> Option<Endpoints>)

  /** A configuration lets in nobody it was not generated for. */
  ghost predicate AdmitsNoOthers(g: Generator) {
    forall p, l, u :: g.generate(p, l, u).Some? ==> g.users(g.generate(p, l, u).value) <= u
  }

  /** Startup authority. Configurations stand for their own hashes. */
  datatype Manifest = Manifest(hashes: set<Bytes>, endpoints: Endpoints, guarded: bool)

  /** What only the daemon changes while the host is up: files, database, kernel table and WireGuard.
      `authored` are the policies, pools erased, that an explicit Apply or
      a seed decided; `seedSpent` tells whether a committed record has existed beside the seed. */
  datatype Owned = Owned(
    config: Option<Bytes>,
    committed: Option<Generation>,
    seed: Option<Generation>,
    seedSpent: bool,
    authored: set<Policy>,
    db: Database,
    nft: Option<Generation>,
    wgUp: bool,
    wgGuard: bool)

  /** The whole state: besides what only the daemon changes, the manifest and the public guard, which the
      startup hook changes too, and the runtime. */
  datatype World = World(
    own: Owned,
    manifest: Option<Manifest>,
    publicGuard: Endpoints,
    running: Option<Bytes>,
    starting: bool)

  // ---------------------------------------------------------------- what is open

  function EndpointsOf(g: Generator, c: Option<Bytes>): Endpoints {
    if c.Some? && g.endpoints(c.value).Some? then g.endpoints(c.value).value else {}
  }

  predicate WgOpen(w: World) {
    w.own.wgUp && !w.own.wgGuard
  }

  ghost predicate SomeHears(es: Endpoints, p: Ingress.Packet) {
    exists e :: e in es && Ingress.EndpointHears(e, p)
  }

  /** Some TCP packet reaches a listener of the running configuration past the guard. */
  ghost predicate PublicOpen(g: Generator, w: World) {
    exists p :: Ingress.OnWire(p) && SomeHears(EndpointsOf(g, w.running), p) && !SomeHears(w.publicGuard, p)
  }

  // ---------------------------------------------------------------- one generation

  /** The bytes were generated for this generation, for some users and maybe without some pool members. */
  ghost predicate MadeFrom(g: Generator, c: Bytes, gen: Generation) {
    exists tunnels, users :: Trimmed(tunnels, gen.policy.tunnels) &&
                             g.generate(gen.policy.(tunnels := tunnels), gen.lists, users) == Some(c)
  }

  /** Disk configuration, running configuration if any, kernel table and committed record are of one generation. */
  ghost predicate CoherentWith(g: Generator, w: World, gen: Generation) {
    && w.own.committed == Some(gen) && w.own.nft == Some(gen)
    && w.own.config.Some? && MadeFrom(g, w.own.config.value, gen)
    && (w.running.None? || w.running == w.own.config)
  }

  ghost predicate Coherent(g: Generator, w: World) {
    w.own.committed.Some? && CoherentWith(g, w, w.own.committed.value)
  }

  // ---------------------------------------------------------------- what must hold at every moment

  /** Startup would accept the configuration on disk. */
  predicate Approved(g: Generator, w: World) {
    w.own.config.Some? ==>
      && g.endpoints(w.own.config.value).Some?
      && if w.manifest.Some? then
           w.own.config.value in w.manifest.value.hashes && EndpointsOf(g, w.own.config) <= w.manifest.value.endpoints
         else EndpointsOf(g, w.own.config) == {}
  }

  /** A seed that was there before some committed record is no authority any more. */
  predicate OldSeedIsDead(w: World) {
    w.own.seed.Some? && w.own.seedSpent ==> w.own.committed.Some?
  }

  predicate IsAuthored(w: World, gen: Option<Generation>) {
    gen.Some? ==> Erase(gen.value.policy) in w.own.authored
  }

  ghost predicate Safe(g: Generator, w: World) {
    && (WgOpen(w) || PublicOpen(g, w) ==> Coherent(g, w))
    && (PublicOpen(g, w) ==> w.running.Some? && AllLive(g.users(w.running.value), w.own.db))
    && Approved(g, w)
    && OldSeedIsDead(w)
    && IsAuthored(w, w.own.committed)
  }

  // ---------------------------------------------------------------- the invariant behind it

  /** The guard covers every listener that the configuration on disk or the running one could open. */
  predicate Shielded(g: Generator, w: World) {
    EndpointsOf(g, w.own.config) <= w.publicGuard && EndpointsOf(g, w.running) <= w.publicGuard
  }

  /** Public access may be opened: everything is of one generation and the configuration lets in live users only. */
  ghost predicate Ready(g: Generator, w: World) {
    Coherent(g, w) && AllLive(g.users(w.own.config.value), w.own.db)
  }

  predicate RunningCovered(g: Generator, w: World) {
    w.running.Some? ==>
      && g.endpoints(w.running.value).Some?
      && EndpointsOf(g, w.running) <= (if w.manifest.Some? then w.manifest.value.endpoints else {})
  }

  ghost predicate Inv(g: Generator, w: World) {
    && Approved(g, w) && RunningCovered(g, w)
    && (WgOpen(w) ==> Coherent(g, w))
    && ((w.running.Some? || w.starting) && !Shielded(g, w) ==> Ready(g, w))
    && OldSeedIsDead(w) && IsAuthored(w, w.own.committed) && IsAuthored(w, w.own.seed)
    && (w.own.committed.Some? ==> w.own.seedSpent)
    && (w.starting ==> w.own.config.Some? && w.running.None?)
  }

  lemma {:induction false} ShieldHides(g: Generator, w: World)
    requires EndpointsOf(g, w.running) <= w.publicGuard
    ensures !PublicOpen(g, w)
  {
  }

  /** Everything that must hold at every moment follows from the invariant. */
  lemma {:induction false} InvIsSafe(g: Generator, w: World)
    requires Inv(g, w)
    ensures Safe(g, w)
  {
    if EndpointsOf(g, w.running) <= w.publicGuard {
      ShieldHides(g, w);
    }
  }

  // ---------------------------------------------------------------- what happens around the daemon

  function StopRuntime(w: World): World {
    w.(running := None, starting := false)
  }

  /** The marker is written; the guard may not be installed yet. */
  function MarkGuarded(w: World): World {
    if w.manifest.Some? then w.(manifest := Some(w.manifest.value.(guarded := true))) else w
  }

  /** The startup hook has run: the guard covers the manifest's endpoints and the runtime may start. */
  function StartupHook(w: World): World {
    var marked := MarkGuarded(StopRuntime(w));
    if w.own.config.None? then marked
    else if w.manifest.Some? then marked.(publicGuard := w.manifest.value.endpoints, starting := true)
    else marked.(starting := true)
  }

  /** The runtime reads the configuration on disk. */
  function Launch(w: World): World {
    if w.starting then w.(running := w.own.config, starting := false) else w
  }

  /** Kernel state and processes are gone, disk is kept. */
  function Reboot(w: World): World {
    w.(own := w.own.(wgUp := false, wgGuard := false, nft := None), publicGuard := {}, running := None, starting := false)
  }

  lemma {:induction false} AroundKeepsInv(g: Generator, w: World)
    requires Inv(g, w)
    ensures Inv(g, StopRuntime(w)) && Inv(g, MarkGuarded(w))
  {
  }

  lemma {:induction false} LaunchKeepsInv(g: Generator, w: World)
    requires Inv(g, w)
    ensures Inv(g, Launch(w))
  {
  }

  lemma {:induction false} RebootKeepsInv(g: Generator, w: World)
    requires Inv(g, w)
    ensures Inv(g, Reboot(w))
  {
  }

  lemma {:induction false} StartupKeepsInv(g: Generator, w: World)
    requires Inv(g, w)
    ensures Inv(g, StartupHook(w))
    ensures w.own.config.Some? ==> Shielded(g, StartupHook(w)) && StartupHook(w).starting
  {
    var after := StartupHook(w);
    assert EndpointsOf(g, after.running) == {};
  }

  /** What a running daemon can still rely on after runtime and startup hook did whatever they do. */
  predicate Drift(w: World, v: World, locked: bool) {
    && v.own == w.own
    && (v.running.None? || v.running == w.running || v.running == w.own.config)
    && v.manifest.Some? == w.manifest.Some?
    && (w.manifest.Some? ==> v.manifest.value.(guarded := w.manifest.value.guarded) == w.manifest.value)
    && (w.manifest.Some? && w.manifest.value.guarded ==> v.manifest.value.guarded)
    && (v.publicGuard == w.publicGuard || (w.manifest.Some? && v.publicGuard == w.manifest.value.endpoints))
    && (locked ==> v.manifest == w.manifest && v.publicGuard == w.publicGuard)
  }

  lemma {:induction false} DriftTransitive(u: World, v: World, w: World, locked: bool)
    requires Drift(u, v, locked) && Drift(v, w, locked)
    ensures Drift(u, w, locked)
  {
  }

  lemma {:induction false} StopDrifts(w: World, locked: bool)
    ensures Drift(w, w, locked) && Drift(w, StopRuntime(w), locked)
  {
  }

  lemma {:induction false} LaunchDrifts(w: World, locked: bool)
    ensures Drift(w, Launch(w), locked)
  {
  }

  lemma {:induction false} HookDrifts(w: World)
    ensures Drift(w, MarkGuarded(w), false) && Drift(w, StartupHook(w), false)
  {
  }

  /** One thing that may happen around the daemon or to it: the runtime stops or starts, the startup hook
      runs or fails half way unless the file lock is held, the daemon dies, or the host reboots. */
  method AnyEvent(g: Generator, w: World, locked: bool) returns (next: World, dies: bool)
    requires Inv(g, w)
    ensures Inv(g, next) && (dies || Drift(w, next, locked))
  {
    if * {
      AroundKeepsInv(g, w);
      StopDrifts(w, locked);
      return StopRuntime(w), false;
    }
    if * {
      LaunchKeepsInv(g, w);
      LaunchDrifts(w, locked);
      return Launch(w), false;
    }
    if * {
      RebootKeepsInv(g, w);
      return Reboot(w), true;
    }
    var waits: bool := *;
    if locked || waits {
      StopDrifts(w, locked);
      var crash: bool := *;
      return w, crash;
    }
    HookDrifts(w);
    if * {
      AroundKeepsInv(g, w);
      return MarkGuarded(w), false;
    }
    StartupKeepsInv(g, w);
    return StartupHook(w), false;
  }

  /** A shield stays a shield, and one generation stays one generation. */
  lemma {:induction false} DriftKeeps(g: Generator, w: World, v: World, locked: bool, gen: Generation)
    requires Drift(w, v, locked) && Inv(g, v)
    ensures Shielded(g, w) ==> Shielded(g, v)
    ensures CoherentWith(g, w, gen) ==> CoherentWith(g, v, gen)
  {
  }

  // ---------------------------------------------------------------- what the daemon may do when

  /** Both client paths are shut. */
  predicate Closed(g: Generator, w: World) {
    w.own.wgGuard && Shielded(g, w)
  }

  /** A candidate the manifest approves and the guard covers, beside what is there already. */
  predicate StagedFor(g: Generator, w: World, candidate: Bytes) {
    && Shielded(g, w) && w.manifest.Some? && g.endpoints(candidate).Some?
    && candidate in w.manifest.value.hashes
    && EndpointsOf(g, Some(candidate)) <= w.manifest.value.endpoints
    && EndpointsOf(g, Some(candidate)) <= w.publicGuard
  }

  lemma {:induction false} DriftKeepsStaged(g: Generator, w: World, v: World, locked: bool, candidate: Bytes)
    requires Drift(w, v, locked) && Inv(g, v) && StagedFor(g, w, candidate)
    ensures StagedFor(g, v, candidate)
  {
    DriftKeeps(g, w, v, locked, Generation(NO_POLICY, map[]));
  }

  /** While both paths are shut, records, kernel table and database may change freely. */
  lemma {:induction false} ClosedIsFree(g: Generator, w: World, v: World)
    requires Inv(g, w) && Closed(g, w)
    requires v == w.(own := v.own) && v.own.config == w.own.config && v.own.wgGuard
    requires OldSeedIsDead(v) && IsAuthored(v, v.own.committed) && IsAuthored(v, v.own.seed) && (v.own.committed.Some? ==> v.own.seedSpent)
    ensures Inv(g, v) && Closed(g, v)
  {
  }

  lemma {:induction false} ShutWgKeepsInv(g: Generator, w: World)
    requires Inv(g, w)
    ensures Inv(g, w.(own := w.own.(wgGuard := true)))
  {
  }

  lemma {:induction false} OpenWgKeepsInv(g: Generator, w: World)
    requires Inv(g, w) && Coherent(g, w)
    ensures Inv(g, w.(own := w.own.(wgGuard := false)))
  {
    assert Ready(g, w) ==> Ready(g, w.(own := w.own.(wgGuard := false)));
  }

  lemma {:induction false} OpenPublicKeepsInv(g: Generator, w: World)
    requires Inv(g, w) && Ready(g, w)
    ensures Inv(g, w.(publicGuard := {}))
  {
    assert Ready(g, w.(publicGuard := {}));
  }

  /** Covering the manifest's endpoints shuts public access. */
  lemma {:induction false} ShutPublicKeepsInv(g: Generator, w: World)
    requires Inv(g, w) && w.manifest.Some?
    ensures Inv(g, w.(publicGuard := w.manifest.value.endpoints))
    ensures Shielded(g, w.(publicGuard := w.manifest.value.endpoints))
  {
    assert Coherent(g, w) ==> Coherent(g, w.(publicGuard := w.manifest.value.endpoints));
  }

  /** The manifest that approves a candidate beside the configuration on disk. */
  function StagingManifest(g: Generator, w: World, candidate: Bytes): Manifest {
    Manifest({candidate} + (if w.own.config.Some? then {w.own.config.value} else {}),
             (if w.manifest.Some? then w.manifest.value.endpoints else {}) +
             EndpointsOf(g, Some(candidate)) + EndpointsOf(g, w.own.config),
             true)
  }

  lemma {:induction false} ManifestKeepsInv(g: Generator, w: World, m: Manifest)
    requires Inv(g, w)
    requires w.own.config.Some? ==> w.own.config.value in m.hashes && EndpointsOf(g, w.own.config) <= m.endpoints
    requires EndpointsOf(g, w.running) <= m.endpoints
    ensures Inv(g, w.(manifest := Some(m)))
  {
    var v := w.(manifest := Some(m));
    assert Ready(g, w) ==> Ready(g, v);
  }

  lemma {:induction false} StagingKeepsInv(g: Generator, w: World, candidate: Bytes)
    requires Inv(g, w) && g.endpoints(candidate).Some?
    ensures Inv(g, w.(manifest := Some(StagingManifest(g, w, candidate))))
  {
    ManifestKeepsInv(g, w, StagingManifest(g, w, candidate));
  }

  /** A staged candidate may replace the configuration on disk. */
  lemma {:induction false} ReplaceKeepsInv(g: Generator, w: World, candidate: Bytes)
    requires Inv(g, w) && StagedFor(g, w, candidate) && w.own.wgGuard
    ensures Inv(g, w.(own := w.own.(config := Some(candidate))))
    ensures StagedFor(g, w.(own := w.own.(config := Some(candidate))), candidate)
  {
  }

  /** A change that takes access from nobody may happen any time, any other only while public access is shut. */
  lemma {:induction false} DatabaseKeepsInv(g: Generator, w: World, db: Database)
    requires Inv(g, w) && (Shielded(g, w) || KeepsLive(w.own.db, db))
    ensures Inv(g, w.(own := w.own.(db := db)))
  {
    var v := w.(own := w.own.(db := db));
    assert Coherent(g, w) ==> Coherent(g, v);
    if Ready(g, w) && KeepsLive(w.own.db, db) {
      LiveIsKept(g.users(w.own.config.value), w.own.db, db);
      assert Ready(g, v);
    }
  }

  /** Nothing but the guards, the manifest and the runtime differs, and the runtime not much. */
  predicate SameRecords(w: World, v: World) {
    && v.own.(wgGuard := true) == w.own.(wgGuard := true)
    && (v.running.None? || v.running == w.running || v.running == w.own.config)
  }

  lemma {:induction false} SameRecordsKeep(g: Generator, w: World, v: World, gen: Generation)
    requires SameRecords(w, v)
    ensures CoherentWith(g, w, gen) ==> CoherentWith(g, v, gen)
    ensures Ready(g, w) ==> Ready(g, v)
  {
  }

  lemma {:induction false} StillClosed(g: Generator, before: World, after: World, v: World)
    requires Closed(g, before) && Closed(g, after) && Inv(g, v)
    requires Drift(before, v, false) || Drift(after, v, false)
    ensures Closed(g, v)
  {
    var any := Generation(NO_POLICY, map[]);
    if Drift(before, v, false) {
      DriftKeeps(g, before, v, false, any);
    } else {
      DriftKeeps(g, after, v, false, any);
    }
  }

  /** An explicit Apply decides a policy. */
  function Author(w: World, p: Policy): World {
    w.(own := w.own.(authored := w.own.authored + {Erase(p)}))
  }

  lemma {:induction false} AuthorKeepsInv(g: Generator, w: World, p: Policy)
    requires Inv(g, w)
    ensures Inv(g, Author(w, p))
    ensures forall gen :: CoherentWith(g, w, gen) ==> CoherentWith(g, Author(w, p), gen)
  {
  }

  /** A fresh installation leaves a seed where no record was. */
  function Seeded(w: World, seed: Generation): World {
    w.(own := w.own.(seed := Some(seed), seedSpent := false, authored := w.own.authored + {Erase(seed.policy)}))
  }

  lemma {:induction false} SeedingKeepsInv(g: Generator, w: World, seed: Generation)
    requires Inv(g, w) && w.own.committed.None?
    ensures Inv(g, Seeded(w, seed))
  {
  }

  /** Records lose their authority in this order: the seed first. */
  lemma {:induction false} InvalidationKeepsInv(g: Generator, w: World)
    requires Inv(g, w) && Shielded(g, w) && !WgOpen(w)
    ensures var v := w.(own := w.own.(seed := None)); Inv(g, v) && Shielded(g, v) && !WgOpen(v)
    ensures w.own.seed.None? ==> Inv(g, w.(own := w.own.(committed := None)))
  {
  }

  /** Database, authored policies and the interface are the same. */
  predicate SameAccess(a: Owned, b: Owned) {
    a.db == b.db && a.authored == b.authored && a.wgUp == b.wgUp
  }

  /** What recovery reads: the committed record, or the seed when there is none. */
  function AuthorityOf(own: Owned): Option<Generation> {
    if own.committed.Some? then own.committed else own.seed
  }

  /** The saved manifest says that public access is guarded, and the guard covers all it lists. */
  predicate SavedGuarded(w: World) {
    w.manifest.Some? ==> w.manifest.value.guarded && w.publicGuard == w.manifest.value.endpoints
  }

  lemma {:induction false} DriftKeepsGuarded(w: World, v: World, locked: bool)
    requires Drift(w, v, locked) && SavedGuarded(w)
    ensures SavedGuarded(v)
  {
  }

  /** Then nothing that is on disk or running can be reached. */
  lemma {:induction false} GuardedIsShielded(g: Generator, w: World)
    requires Inv(g, w) && SavedGuarded(w)
    ensures Shielded(g, w)
  {
  }

  lemma {:induction false} WgUpKeepsInv(g: Generator, w: World)
    requires Inv(g, w) && w.own.wgGuard
    ensures Inv(g, w.(own := w.own.(wgUp := true)))
  {
    var v := w.(own := w.own.(wgUp := true));
    assert Coherent(g, w) ==> Coherent(g, v);
  }

  /** A host before installation: nothing saved, nothing running. */
  predicate IsFresh(w: World) {
    && w.own.config.None? && w.manifest.None? && w.own.committed.None? && w.own.seed.None?
    && !w.own.wgUp && w.running.None? && !w.starting
  }

  /** The startup hook accepts every configuration the daemon publishes: however the manifest file lists what
      the manifest holds, the file authorizes the configuration on disk. Only valid manifests are ever written. */
  lemma {:induction false} HookAccepts(g: Generator, w: World, m: Ingress.ManifestText<Bytes>, want: seq<Ingress.Endpoint>)
    requires Safe(g, w) && w.own.config.Some? && w.manifest.Some?
    requires Ingress.IsManifest(m)
    requires Ingress.Digests(m.hashes) == w.manifest.value.hashes
    requires Ingress.EndpointSet(m.listeners) == w.manifest.value.endpoints
    requires forall e :: e in want ==> e in EndpointsOf(g, w.own.config)
    ensures Ingress.Authorizes(m, w.own.config.value, Some(want))
  {
    Ingress.ListedIsCovered(w.manifest.value.endpoints, want);
  }

  /** A database change leaves the generation alone. */
  lemma {:induction false} DatabaseKeepsCoherent(g: Generator, w: World, db: Database, v: World, gen: Generation)
    requires Drift(w.(own := w.own.(db := db)), v, false) || Drift(w, v, false)
    ensures CoherentWith(g, w, gen) ==> CoherentWith(g, v, gen)
  {
  }
}
