/** Publication of network generations and revocation of access by the daemon's gate
    (cmd/razdachad/network_generation.go, cmd/razdachad/reality.go, cmd/razdachad/apply.go). */
module ApplyGate {
  import opened Options
  import opened Policies
  import opened Publication
  import opened PublicationGate

  /** A checked candidate. `changed` tells whether it differs from the configuration on disk. */
  datatype Prepared = Prepared(candidate: Bytes, changed: bool)

  datatype Staging = Staged | PortBusy | NotStaged

  /** The lists a policy needs, when all of them are loaded. */
  function Selected(p: Policy, loaded: Contents): Option<Contents> {
    if p.sources <= loaded.Keys then Some(map u | u in p.sources :: loaded[u]) else None
  }

  /** Both ways in are open for one configuration, and the manifest names it alone. */
  predicate ReleasedFor(g: Generator, w: World, candidate: Bytes) {
    && w.own.config == Some(candidate) && !w.own.wgGuard && w.publicGuard == {}
    && w.manifest == Some(Manifest({candidate}, EndpointsOf(g, Some(candidate)), false))
  }

  class Gate {
    const host: Host
    var base: Policy
    var contents: Contents
    var initialized: bool
    var uncertain: bool

    constructor (host: Host)
      requires host.Sound() && !host.alive
      ensures this.host == host && Valid()
    {
      this.host := host;
      base, contents, initialized, uncertain := NO_POLICY, map[], false, true;
    }

    /** What the daemon's memory says of the host while it runs. */
    ghost predicate Valid()
      reads this, host
    {
      && host.Sound()
      && (host.alive ==> !host.locked && MemoryHolds(host.w))
    }

    ghost predicate MemoryHolds(w: World)
      reads this, host
    {
      && (!uncertain ==> initialized && CoherentWith(host.g, w, Generation(base, contents)))
      && (initialized ==> Erase(base) in w.own.authored)
    }

    // -------------------------------------------------------------- staging and releasing

    /** Releases the file lock. */
    method Unlock()
      requires host.Sound()
      modifies host
      ensures host.Sound() && old(host.history) <= host.history && !host.locked
      ensures host.alive ==> old(host.alive) && Drift(old(host.w), host.w, false)
    {
      host.locked := false;
      host.Surroundings();
    }

    /** With the lock held: writes the staging manifest, then shuts public access for all it lists. */
    method StageLocked(candidate: Bytes) returns (ok: bool)
      requires host.Sound() && host.locked && host.g.endpoints(candidate).Some?
      modifies host
      ensures host.Sound() && old(host.history) <= host.history
      ensures host.alive ==> host.locked && SameRecords(old(host.w), host.w) && host.w.own.wgGuard == old(host.w.own.wgGuard)
      ensures ok ==> host.alive && StagedFor(host.g, host.w, candidate)
    {
      var g := host.g;
      var next := StagingManifest(g, host.w, candidate);
      StagingKeepsInv(g, host.w, candidate);
      ok := host.Perform(host.w.(manifest := Some(next)));
      if !ok {
        return;
      }
      ShutPublicKeepsInv(g, host.w);
      ok := host.Perform(host.w.(publicGuard := next.endpoints));
      if ok {
        DriftKeepsStaged(g, host.w.(publicGuard := next.endpoints), host.w, true, candidate);
      }
    }

    /** Approves a candidate beside the configuration on disk and shuts public access for both. */
    method StagePublic(candidate: Bytes) returns (res: Staging)
      requires host.Sound() && host.alive && !host.locked
      modifies host
      ensures host.Sound() && old(host.history) <= host.history && !host.locked
      ensures host.alive ==> SameRecords(old(host.w), host.w) && host.w.own.wgGuard == old(host.w.own.wgGuard)
      ensures res.Staged? ==> host.alive && StagedFor(host.g, host.w, candidate)
      ensures res.PortBusy? ==> host.alive && host.w == old(host.w)
    {
      var refused: bool := *;
      if refused || host.g.endpoints(candidate).None? {
        return NotStaged;
      }
      var unmanaged := EndpointsOf(host.g, Some(candidate)) - EndpointsOf(host.g, host.w.own.config);
      var busy: bool := *;
      if unmanaged != {} && busy {
        return PortBusy;
      }
      host.locked := true;
      var ok := StageLocked(candidate);
      ghost var staged := host.w;
      Unlock();
      if ok && host.alive {
        DriftKeepsStaged(host.g, staged, host.w, false, candidate);
        return Staged;
      }
      return NotStaged;
    }

    /** Shuts or opens WireGuard clients' way in. */
    method SetGuard(on: bool) returns (ok: bool)
      requires host.Sound() && (host.alive && !on ==> Coherent(host.g, host.w))
      modifies host
      ensures host.Sound() && old(host.history) <= host.history
      ensures ok ==> host.alive && Drift(old(host.w).(own := old(host.w.own).(wgGuard := on)), host.w, host.locked)
      ensures host.alive ==> old(host.alive) && host.locked == old(host.locked) && SameRecords(old(host.w), host.w)
    {
      if host.alive {
        if on {
          ShutWgKeepsInv(host.g, host.w);
        } else {
          OpenWgKeepsInv(host.g, host.w);
        }
      }
      ok := host.Perform(host.w.(own := host.w.own.(wgGuard := on)));
    }

    /** Shuts public access for the endpoints of the manifest. */
    method ShutPublic() returns (ok: bool)
      requires host.Sound()
      modifies host
      ensures host.Sound() && old(host.history) <= host.history
      ensures ok ==> host.alive && old(host.w.manifest).Some?
      ensures ok ==> Drift(old(host.w).(publicGuard := old(host.w.manifest).value.endpoints), host.w, host.locked)
      ensures host.alive ==> host.w.own == old(host.w.own)
      ensures host.alive ==> old(host.alive) && host.locked == old(host.locked) && SameRecords(old(host.w), host.w)
    {
      if !host.alive || host.w.manifest.None? {
        return false;
      }
      ShutPublicKeepsInv(host.g, host.w);
      ok := host.Perform(host.w.(publicGuard := host.w.manifest.value.endpoints));
    }

    /** After a failed release: shuts both ways again, as far as that succeeds. */
    method ShutBoth()
      requires host.Sound()
      modifies host
      ensures host.Sound() && old(host.history) <= host.history
      ensures host.alive ==> old(host.alive) && host.locked == old(host.locked) && SameRecords(old(host.w), host.w)
    {
      var _ := SetGuard(true);
      var _ := ShutPublic();
    }

    /** Writes the manifest under the lock. */
    method WriteManifest(m: Manifest) returns (ok: bool)
      requires host.Sound() && host.locked
      requires host.w.own.config.Some? ==> host.w.own.config.value in m.hashes && EndpointsOf(host.g, host.w.own.config) <= m.endpoints
      requires EndpointsOf(host.g, host.w.running) <= m.endpoints
      modifies host
      ensures host.Sound() && old(host.history) <= host.history
      ensures ok ==> host.alive && Drift(old(host.w).(manifest := Some(m)), host.w, true)
      ensures ok ==> old(host.w).(manifest := Some(m)) in host.history
      ensures host.alive ==> host.locked && SameRecords(old(host.w), host.w) && host.w.own == old(host.w.own)
    {
      ManifestKeepsInv(host.g, host.w, m);
      ok := host.Perform(host.w.(manifest := Some(m)));
    }

    /** With the lock held, and only when everything is of one generation: opens WireGuard, then public access. */
    method ReleaseLocked(candidate: Bytes) returns (ok: bool)
      requires host.Sound() && host.locked
      requires Ready(host.g, host.w) && host.w.own.config == Some(candidate) && host.g.endpoints(candidate).Some?
      modifies host
      ensures host.Sound() && old(host.history) <= host.history
      ensures ok ==> host.alive && !host.w.own.wgGuard && exists w :: w in host.history && ReleasedFor(host.g, w, candidate)
      ensures host.alive ==> host.locked && SameRecords(old(host.w), host.w)
    {
      ghost var g, start := host.g, host.w;
      ghost var gen := start.own.committed.value;
      var endpoints := EndpointsOf(host.g, Some(candidate));
      ok := WriteManifest(Manifest({candidate}, endpoints, true));
      if !ok {
        return;
      }
      SameRecordsKeep(g, start, host.w, gen);
      ok := SetGuard(false);
      if !ok {
        var _ := SetGuard(true);
        return;
      }
      SameRecordsKeep(g, start, host.w, gen);
      ok := OpenPublicLocked(candidate);
    }

    /** The rest of a release: removes the public guard and says so in the manifest. */
    method OpenPublicLocked(candidate: Bytes) returns (ok: bool)
      requires host.Sound() && host.locked && host.alive && !host.w.own.wgGuard
      requires Ready(host.g, host.w) && host.w.own.config == Some(candidate) && host.g.endpoints(candidate).Some?
      modifies host
      ensures host.Sound() && old(host.history) <= host.history
      ensures ok ==> host.alive && !host.w.own.wgGuard && exists w :: w in host.history && ReleasedFor(host.g, w, candidate)
      ensures host.alive ==> host.locked && SameRecords(old(host.w), host.w)
    {
      var endpoints := EndpointsOf(host.g, Some(candidate));
      ok := OpenPublic();
      if !ok {
        ShutBoth();
        return;
      }
      ghost var released := host.w.(manifest := Some(Manifest({candidate}, endpoints, false)));
      ok := WriteManifest(Manifest({candidate}, endpoints, false));
      if !ok {
        ShutBoth();
        return;
      }
      assert ReleasedFor(host.g, released, candidate);
    }

    /** Removes the public guard. */
    method OpenPublic() returns (ok: bool)
      requires host.Sound() && (host.alive ==> Ready(host.g, host.w))
      modifies host
      ensures host.Sound() && old(host.history) <= host.history
      ensures ok ==> host.alive && Drift(old(host.w).(publicGuard := {}), host.w, host.locked)
      ensures host.alive ==> old(host.alive) && host.locked == old(host.locked) && SameRecords(old(host.w), host.w)
    {
      if host.alive {
        OpenPublicKeepsInv(host.g, host.w);
      }
      ok := host.Perform(host.w.(publicGuard := {}));
    }

    /** Releases ingress for the configuration on disk, provided it still is the candidate. */
    method ReleasePublic(candidate: Bytes) returns (ok: bool)
      requires host.Sound() && host.alive && !host.locked
      requires Ready(host.g, host.w) && host.g.endpoints(candidate).Some?
      modifies host
      ensures host.Sound() && old(host.history) <= host.history && !host.locked
      ensures ok ==> host.alive && !host.w.own.wgGuard && exists w :: w in host.history && ReleasedFor(host.g, w, candidate)
      ensures host.alive ==> SameRecords(old(host.w), host.w)
    {
      var unreadable: bool := *;
      if unreadable || host.w.own.config != Some(candidate) {
        return false;
      }
      host.locked := true;
      ok := ReleaseLocked(candidate);
      Unlock();
      ok := ok && host.alive;
    }

    // -------------------------------------------------------------- candidate and commit

    /** Generates and checks a candidate. The runtime's checker may reject a pool member; then the
        configuration is built again without it, no more often than there are pool members. */
    method Prepare(snap: Policy, lists: Contents, users: set<User>, force: bool) returns (res: Option<Prepared>)
      requires host.Sound()
      ensures res.Some? ==> MadeFrom(host.g, res.value.candidate, Generation(snap, lists))
      ensures res.Some? ==> host.g.users(res.value.candidate) <= users
      ensures res.Some? ==> res.value.changed == (host.w.own.config != Some(res.value.candidate))
    {
      var trimmed := snap;
      var maxDrops := PoolServers(snap.tunnels);
      var drop := 0;
      TrimmedSelf(snap.tunnels);
      while true
        invariant 0 <= drop <= maxDrops
        invariant Trimmed(trimmed.tunnels, snap.tunnels) && trimmed == snap.(tunnels := trimmed.tunnels)
        decreases maxDrops - drop
      {
        var made := host.g.generate(trimmed, lists, users);
        if made.None? {
          return None;
        }
        var same := host.w.own.config == made;
        var unreadable: bool := *;
        if unreadable {
          return None;
        }
        if same && !force {
          return Some(Prepared(made.value, false));
        }
        var accepted: bool := *;
        if !accepted {
          var isMember: bool := *;
          if isMember && drop < maxDrops {
            var id: string := *;
            var url: string := *;
            TrimmedMore(trimmed.tunnels, snap.tunnels, id, url);
            trimmed := trimmed.(tunnels := WithoutServer(trimmed.tunnels, id, url));
            drop := drop + 1;
            continue;
          }
          return None;
        }
        return Some(Prepared(made.value, !same));
      }
    }

    /** Restarts the runtime through its startup hook. When that is reported done, the runtime is down
        or runs the configuration on disk. */
    method Reload() returns (ok: bool)
      requires host.Sound() && !host.locked
      modifies host
      ensures host.Sound() && old(host.history) <= host.history && !host.locked
      ensures host.alive ==> old(host.alive) && host.w.own == old(host.w.own)
      ensures ok ==> host.alive && (host.w.running.None? || host.w.running == host.w.own.config)
      ensures forall c :: StagedFor(host.g, old(host.w), c) && host.alive ==> StagedFor(host.g, host.w, c)
    {
      ok := RestartStep(StopRuntime(host.w));
      if !ok {
        return;
      }
      ok := RestartStep(StartupHook(host.w));
      if !ok {
        return;
      }
      ok := RestartStep(Launch(host.w));
    }

    /** One step of a restart, like the same step happening by itself. */
    method RestartStep(next: World) returns (ok: bool)
      requires host.Sound() && !host.locked
      requires next == StopRuntime(host.w) || next == StartupHook(host.w) || next == Launch(host.w)
      modifies host
      ensures host.Sound() && old(host.history) <= host.history && !host.locked
      ensures ok ==> host.alive && Drift(next, host.w, false)
      ensures host.alive ==> old(host.alive) && Drift(old(host.w), host.w, false)
      ensures forall c :: StagedFor(host.g, old(host.w), c) && host.alive ==> StagedFor(host.g, host.w, c)
    {
      if next == StopRuntime(host.w) {
        AroundKeepsInv(host.g, host.w);
        StopDrifts(host.w, false);
      } else if next == StartupHook(host.w) {
        StartupKeepsInv(host.g, host.w);
        HookDrifts(host.w);
      } else {
        LaunchKeepsInv(host.g, host.w);
        LaunchDrifts(host.w, false);
      }
      ghost var start := host.w;
      ok := host.Perform(next);
      if host.alive {
        if Drift(next, host.w, false) {
          DriftTransitive(start, next, host.w, false);
        }
        forall c | StagedFor(host.g, start, c)
          ensures StagedFor(host.g, host.w, c)
        {
          DriftKeepsStaged(host.g, start, host.w, false, c);
        }
      }
    }

    /** Puts the checked bytes in place and restarts the runtime. Without a change nothing is restarted
        unless recovery forces it. */
    method Commit(prepared: Prepared, force: bool) returns (ok: bool)
      requires host.Sound() && host.alive && !host.locked
      requires StagedFor(host.g, host.w, prepared.candidate) && host.w.own.wgGuard
      requires prepared.changed || host.w.own.config == Some(prepared.candidate)
      requires prepared.changed || force || host.w.running.None? || host.w.running == host.w.own.config
      modifies host
      ensures host.Sound() && old(host.history) <= host.history && !host.locked
      ensures host.alive ==> host.w.own.(config := None) == old(host.w.own).(config := None)
      ensures ok ==> host.alive && StagedFor(host.g, host.w, prepared.candidate)
      ensures ok ==> host.w.own.config == Some(prepared.candidate)
      ensures ok ==> host.w.running.None? || host.w.running == host.w.own.config
    {
      if prepared.changed {
        ghost var next := host.w.(own := host.w.own.(config := Some(prepared.candidate)));
        ReplaceKeepsInv(host.g, host.w, prepared.candidate);
        ok := host.Perform(host.w.(own := host.w.own.(config := Some(prepared.candidate))));
        if !ok {
          return;
        }
        DriftKeepsStaged(host.g, next, host.w, false, prepared.candidate);
      }
      if prepared.changed || force {
        var notSynced: bool := *;
        if notSynced {
          return false;
        }
        ok := Reload();
        return;
      }
      return true;
    }

    /** Changes records, kernel table or database while both ways in are shut. */
    method WriteOwned(next: Owned) returns (ok: bool)
      requires host.Sound() && host.alive && !host.locked && Closed(host.g, host.w)
      requires next.config == host.w.own.config && next.wgGuard
      requires var v := host.w.(own := next);
               OldSeedIsDead(v) && IsAuthored(v, next.committed) && IsAuthored(v, next.seed) && (next.committed.Some? ==> next.seedSpent)
      modifies host
      ensures host.Sound() && old(host.history) <= host.history && !host.locked
      ensures host.alive ==> Closed(host.g, host.w) && (host.w.own == next || host.w.own == old(host.w.own))
      ensures host.alive ==> host.w.running.None? || host.w.running == old(host.w.running) || host.w.running == next.config
      ensures ok ==> host.alive && host.w.own == next
    {
      ghost var before, after := host.w, host.w.(own := next);
      ClosedIsFree(host.g, before, after);
      ok := host.Perform(host.w.(own := next));
      if host.alive {
        StillClosed(host.g, before, after, host.w);
      }
    }

    /** Everything between closing and opening: configuration, kernel table, committed record, seed. */
    method Exchange(gen: Generation, prepared: Prepared, force: bool) returns (ok: bool)
      requires host.Sound() && host.alive && !host.locked
      requires StagedFor(host.g, host.w, prepared.candidate) && host.w.own.wgGuard
      requires prepared.changed || host.w.own.config == Some(prepared.candidate)
      requires prepared.changed || force || host.w.running.None? || host.w.running == host.w.own.config
      requires MadeFrom(host.g, prepared.candidate, gen) && Erase(gen.policy) in host.w.own.authored
      modifies host
      ensures host.Sound() && old(host.history) <= host.history && !host.locked
      ensures host.alive ==> SameAccess(old(host.w.own), host.w.own)
      ensures ok ==> host.alive && host.w.own.wgGuard && host.w.own.seed.None?
      ensures ok ==> CoherentWith(host.g, host.w, gen) && host.w.own.config == Some(prepared.candidate)
    {
      ok := Commit(prepared, force);
      if !ok {
        return;
      }
      ok := WriteOwned(host.w.own.(nft := Some(gen)));
      if !ok {
        return;
      }
      var interrupted: bool := *;  // a cancelled request, or a list artifact that changed meanwhile
      if interrupted {
        return false;
      }
      ok := WriteOwned(host.w.own.(committed := Some(gen), seedSpent := true));
      if !ok {
        return;
      }
      ok := WriteOwned(host.w.own.(seed := None));
    }

    // -------------------------------------------------------------- publication

    /** Under the lock: marks the saved manifest guarded, then shuts public access for all it lists. */
    method GuardManifest() returns (ok: bool)
      requires host.Sound() && host.alive && !host.locked && host.w.manifest.Some?
      modifies host
      ensures host.Sound() && old(host.history) <= host.history && !host.locked
      ensures host.alive ==> host.w.own == old(host.w.own) && SameRecords(old(host.w), host.w)
      ensures ok ==> host.alive && host.w.manifest == Some(old(host.w.manifest).value.(guarded := true)) && SavedGuarded(host.w)
    {
      host.locked := true;
      var marked := host.w.manifest.value.(guarded := true);
      ok := WriteManifest(marked);
      ghost var shut := host.w;
      if ok {
        ok := ShutPublic();
        shut := host.w;
        if ok {
          DriftKeepsGuarded(shut, shut, true);
        }
      }
      Unlock();
      ok := ok && host.alive;
      if ok {
        DriftKeepsGuarded(shut, host.w, false);
      }
    }

    /** Shuts public access for the saved manifest. When that is reported done, the manifest says so for good
        and nothing on disk or running can be reached. */
    method EmergencyPublicGuard() returns (ok: bool)
      requires host.Sound() && !host.locked
      modifies host
      ensures host.Sound() && old(host.history) <= host.history && !host.locked
      ensures host.alive ==> old(host.alive) && host.w.own == old(host.w.own) && SameRecords(old(host.w), host.w)
      ensures ok ==> host.alive && host.w.manifest.Some? && SavedGuarded(host.w) && Shielded(host.g, host.w)
      ensures ok ==> old(host.w.manifest).Some? && host.w.manifest == Some(old(host.w.manifest).value.(guarded := true))
    {
      var unreadable: bool := *;
      if !host.alive || unreadable || host.w.manifest.None? {
        return false;
      }
      ok := GuardManifest();
      if ok {
        GuardedIsShielded(host.g, host.w);
      }
    }

    /** The manifest is missing, unreadable or says that public access is guarded. */
    method PublicGuarded() returns (guarded: bool)
      ensures !guarded ==> host.w.manifest.Some? && !host.w.manifest.value.guarded
    {
      var unreadable: bool := *;
      return unreadable || host.w.manifest.None? || host.w.manifest.value.guarded;
    }

    /** The closed half of a publication: stages the candidate, shuts both ways in and exchanges everything. */
    method Replace(gen: Generation, prepared: Prepared, force: bool) returns (ok: bool)
      requires Valid() && host.alive
      requires MadeFrom(host.g, prepared.candidate, gen) && Erase(gen.policy) in host.w.own.authored
      requires prepared.changed == (host.w.own.config != Some(prepared.candidate))
      requires uncertain ==> force
      modifies `uncertain, host
      ensures Valid() && old(host.history) <= host.history
      ensures host.alive ==> SameAccess(old(host.w.own), host.w.own)
      ensures ok ==> host.alive && uncertain && host.w.own.wgGuard && host.w.own.seed.None?
      ensures ok ==> CoherentWith(host.g, host.w, gen) && host.w.own.config == Some(prepared.candidate)
      ensures ok ==> host.g.endpoints(prepared.candidate).Some?
    {
      var staging := StagePublic(prepared.candidate);
      if staging.PortBusy? {
        return false;
      }
      uncertain := true;
      ghost var staged := host.w.(own := host.w.own.(wgGuard := true));
      ok := SetGuard(true);
      if staging.NotStaged? || !ok {
        return false;
      }
      DriftKeepsStaged(host.g, staged, host.w, false, prepared.candidate);
      var notRouted: bool := *;  // WireGuard or policy routing could not be configured
      if notRouted {
        return false;
      }
      ok := Exchange(gen, prepared, force);
    }

    /** An active list artifact that fails its verification shuts everything at once: both ways are asked to
        shut, and when both report it done, nothing can be reached by either. */
    method CheckActive() returns (intact: bool, wgShut: bool, publicShut: bool)
      requires Valid() && host.alive
      modifies `uncertain, host
      ensures Valid() && old(host.history) <= host.history
      ensures host.alive ==> SameRecords(old(host.w), host.w)
      ensures intact ==> host.alive && host.w == old(host.w) && uncertain == old(uncertain) && !wgShut && !publicShut
      ensures !intact ==> uncertain
      ensures wgShut && publicShut ==> Closed(host.g, host.w) && SavedGuarded(host.w)
      ensures publicShut ==> host.alive && host.w.manifest.Some? && SavedGuarded(host.w) && Shielded(host.g, host.w)
      ensures wgShut && host.alive ==> host.w.own.wgGuard
    {
      var damaged: bool := *;
      if !initialized || uncertain || !damaged {
        return true, false, false;
      }
      wgShut := SetGuard(true);
      publicShut := EmergencyPublicGuard();
      uncertain := true;
      intact := false;
    }

    /** The opening half of a publication. */
    method OpenBoth(candidate: Bytes) returns (ok: bool)
      requires Valid() && host.alive && uncertain && initialized
      requires CoherentWith(host.g, host.w, Generation(base, contents)) && Ready(host.g, host.w)
      requires host.g.endpoints(candidate).Some?
      modifies `uncertain, host
      ensures Valid() && old(host.history) <= host.history
      ensures host.alive ==> SameRecords(old(host.w), host.w)
      ensures ok ==> host.alive && !uncertain && exists w :: w in host.history && ReleasedFor(host.g, w, candidate)
      ensures !ok ==> uncertain
    {
      var cancelled: bool := *;
      if cancelled {
        return false;
      }
      ghost var ready := host.w;
      ok := ReleasePublic(candidate);
      if !ok {
        var _ := SetGuard(true);
        return;
      }
      SameRecordsKeep(host.g, ready, host.w, Generation(base, contents));
      uncertain := false;
    }

    /** Replaces the applied generation by a checked candidate and opens ingress for it. */
    method Switch(gen: Generation, prepared: Prepared, force: bool) returns (ok: bool)
      requires Valid() && host.alive
      requires MadeFrom(host.g, prepared.candidate, gen) && Erase(gen.policy) in host.w.own.authored
      requires prepared.changed == (host.w.own.config != Some(prepared.candidate))
      requires uncertain ==> force
      requires AllLive(host.g.users(prepared.candidate), host.w.own.db) && !gen.legacy
      modifies this, host
      ensures Valid() && old(host.history) <= host.history
      ensures host.alive ==> SameAccess(old(host.w.own), host.w.own)
      ensures ok ==> host.alive && initialized && !uncertain && base == gen.policy && contents == gen.lists
      ensures ok ==> exists w :: w in host.history && ReleasedFor(host.g, w, prepared.candidate)
    {
      ok := Replace(gen, prepared, force);
      if ok {
        base, contents, initialized := gen.policy, gen.lists, true;
        ok := OpenBoth(prepared.candidate);
      }
    }

    /** Validates a policy with its lists and users and prepares a candidate; nothing is touched. */
    method Validate(snap: Policy, lists: Contents) returns (prepared: Option<Prepared>, force: bool)
      requires Valid()
      ensures uncertain ==> force
      ensures prepared.Some? ==> MadeFrom(host.g, prepared.value.candidate, Generation(snap, lists))
      ensures prepared.Some? ==> AllLive(host.g.users(prepared.value.candidate), host.w.own.db)
      ensures prepared.Some? ==> prepared.value.changed == (host.w.own.config != Some(prepared.value.candidate))
    {
      var rejected: bool := *;  // the policy or the gateway's addresses do not validate
      var users := RealityRuntime(snap, host.w.own.db);
      if rejected || users.None? {
        return None, true;
      }
      var publicUncertain := PublicGuarded();
      force := uncertain || publicUncertain;
      prepared := Prepare(snap, lists, users.value, force);
    }

    /** Validates a policy with its lists, and publishes it through closed doors: every state on the way
        is safe, and after success configuration, runtime, kernel table and record are of this policy and
        these lists. A failure leaves the gate uncertain unless nothing was touched. */
    method Publish(snap: Policy, loaded: Contents, recovery: bool, repair: bool) returns (ok: bool)
      requires Valid() && host.alive && Erase(snap) in host.w.own.authored
      modifies this, host
      ensures Valid() && old(host.history) <= host.history
      ensures host.alive ==> SameAccess(old(host.w.own), host.w.own)
      ensures ok ==> host.alive && initialized && !uncertain && base == snap
      ensures ok ==> Selected(snap, if recovery then old(contents) else loaded) == Some(contents)
    {
      var intact, _, _ := CheckActive();
      if !intact {
        return false;
      }
      var selected := Selected(snap, if recovery then contents else loaded);
      if selected.None? {
        return false;
      }
      var prepared, force := Validate(snap, selected.value);
      if prepared.None? {
        return false;
      }
      var changedGeneration := base != snap || contents != selected.value;
      var needRestart := force || prepared.value.changed || changedGeneration;
      if !repair && !needRestart {
        return true;
      }
      var cancelled: bool := *;
      if cancelled {
        return false;
      }
      ok := Switch(Generation(snap, selected.value), prepared.value, needRestart);
    }

    // -------------------------------------------------------------- who publishes

    /** An explicit Apply: the only way a new policy gets in. */
    method Apply(snap: Policy, loaded: Contents) returns (ok: bool)
      requires Valid() && host.alive
      modifies this, host
      ensures Valid() && old(host.history) <= host.history
      ensures ok ==> base == snap && !uncertain
    {
      AuthorKeepsInv(host.g, host.w, snap);
      host.Enter(Author(host.w, snap));
      ok := Publish(snap, loaded, false, true);
    }

    /** New pool servers go into the applied policy; nothing else of the current snapshot does. */
    method ApplyPools(current: Policy) returns (ok: bool)
      requires Valid() && host.alive
      modifies this, host
      ensures Valid() && old(host.history) <= host.history
      ensures ok ==> old(initialized) && Erase(base) == Erase(old(base))
    {
      if !initialized {
        return false;
      }
      var next := WithPoolServers(base, current);
      ok := Publish(next, map[], true, false);
    }

    /** New list contents under the applied policy. */
    method RefreshLists(loaded: Contents) returns (ok: bool)
      requires Valid() && host.alive
      modifies this, host
      ensures Valid() && old(host.history) <= host.history
      ensures ok ==> old(initialized) && base == old(base)
    {
      if !initialized {
        return false;
      }
      ok := Publish(base, loaded, false, false);
    }

    /** Recovers the committed generation, or the seed when nothing was ever committed; never reads the
        editable policy. A record of the first version that needs native lists is left alone, and so is a host
        without any record: both wait for an explicit Apply. */
    method Recover() returns (ok: bool)
      requires Valid() && host.alive && !initialized && uncertain
      modifies this, host
      ensures Valid() && old(host.history) <= host.history
      ensures host.alive ==> SameAccess(old(host.w.own), host.w.own)
      ensures ok ==> host.alive && (initialized <==> Recoverable(old(host.w.own)))
      ensures ok && initialized ==> base == AuthorityOf(old(host.w.own)).value.policy
      ensures ok && initialized && old(host.w.own.committed).None? ==> !old(host.w.own.seedSpent)
      ensures ok && initialized ==> !uncertain
      ensures ok && !initialized ==> host.w == old(host.w) && uncertain
    {
      var unreadable: bool := *;
      if unreadable {
        return false;
      }
      var record := AuthorityOf(host.w.own);
      if record.None? {
        return true;
      }
      if record.value.legacy {
        return true;
      }
      base, contents, initialized := record.value.policy, record.value.lists, true;
      ok := Publish(base, map[], true, false);
    }

    predicate Recoverable(own: Owned) {
      AuthorityOf(own).Some? && !AuthorityOf(own).value.legacy
    }

    /** Shuts what a start may have found open, in order: public access for the saved manifest, then WireGuard,
        which comes up shut. */
    method ShutDoors() returns (ok: bool)
      requires host.Sound() && host.alive && !host.locked
      modifies host
      ensures host.Sound() && old(host.history) <= host.history && !host.locked
      ensures host.alive ==> host.w.own.(wgGuard := true, wgUp := true) == old(host.w.own).(wgGuard := true, wgUp := true)
      ensures ok ==> host.alive && host.w.own.wgUp && host.w.own.wgGuard && SavedGuarded(host.w) && Closed(host.g, host.w)
    {
      ok := GuardSaved();
      if !ok {
        return;
      }
      ghost var guarded := host.w;
      ok := SetGuard(true);
      if !ok {
        return;
      }
      DriftKeepsGuarded(guarded.(own := guarded.own.(wgGuard := true)), host.w, false);
      WgUpKeepsInv(host.g, host.w);
      ghost var up := host.w.(own := host.w.own.(wgUp := true));
      ok := host.Perform(host.w.(own := host.w.own.(wgUp := true)));
      if ok {
        DriftKeepsGuarded(up, host.w, false);
        GuardedIsShielded(host.g, host.w);
      }
    }

    /** The daemon starts: it guards what is saved, shuts WireGuard before it brings it up, and recovers. A daemon
        that stays up either has published exactly what was saved, or has nothing to publish and keeps both
        ways shut. Any failure ends it. */
    method StartDaemon()
      requires Valid() && !host.alive
      modifies this, host
      ensures Valid() && old(host.history) <= host.history
      ensures host.alive ==> host.w.own.wgUp && (initialized <==> Recoverable(old(host.w.own)))
      ensures host.alive && initialized ==> !uncertain && base == AuthorityOf(old(host.w.own)).value.policy
      ensures host.alive && !initialized ==> uncertain && Closed(host.g, host.w) && SavedGuarded(host.w)
    {
      base, contents, initialized, uncertain := NO_POLICY, map[], false, true;
      host.alive := true;
      var ok := ShutDoors();
      if ok {
        ok := Recover();
      }
      if !ok {
        host.alive := false;
        host.locked := false;
      }
    }

    /** Shuts public access for the saved manifest. A fresh host has neither manifest nor configuration, an old one
        may have a configuration without public listeners; a manifest without a configuration is refused. */
    method GuardSaved() returns (ok: bool)
      requires host.Sound() && host.alive && !host.locked
      modifies host
      ensures host.Sound() && old(host.history) <= host.history && !host.locked
      ensures host.alive ==> host.w.own == old(host.w.own)
      ensures ok ==> host.alive && SavedGuarded(host.w)
      ensures ok && old(host.w.manifest).Some? ==> old(host.w.own.config).Some?
    {
      if host.w.manifest.None? {
        return true;
      }
      var unreadable: bool := *;
      if unreadable || host.w.own.config.None? {
        return false;
      }
      ok := GuardManifest();
    }

    // -------------------------------------------------------------- revocation

    /** Leaves durable guard intent before live access changes. */
    method CloseForRevocation() returns (ok: bool)
      requires Valid() && host.alive
      modifies `uncertain, host
      ensures Valid() && old(host.history) <= host.history
      ensures host.alive ==> host.w.own.db == old(host.w.own.db)
      ensures ok ==> host.alive && uncertain && Shielded(host.g, host.w)
    {
      var unreadable: bool := *;
      if unreadable || host.w.own.config.None? {
        return false;
      }
      ghost var start := host.w;
      var staging := StagePublic(host.w.own.config.value);
      if host.alive {
        SameRecordsKeep(host.g, start, host.w, Generation(base, contents));
      }
      if !staging.Staged? {
        return false;
      }
      uncertain := true;
      ghost var staged := host.w.(own := host.w.own.(wgGuard := true));
      ok := SetGuard(true);
      if ok {
        DriftKeepsStaged(host.g, staged, host.w, false, start.own.config.value);
      }
    }

    /** One database transaction. It may take access away only while public access is shut. */
    method WriteDatabase(db: Database) returns (ok: bool)
      requires Valid() && host.alive && (Shielded(host.g, host.w) || KeepsLive(host.w.own.db, db))
      modifies host
      ensures Valid() && old(host.history) <= host.history
      ensures ok ==> host.alive && host.w.own.db == db
    {
      ghost var gen, before, after := Generation(base, contents), host.w, host.w.(own := host.w.own.(db := db));
      DatabaseKeepsInv(host.g, before, db);
      ok := host.Perform(host.w.(own := host.w.own.(db := db)));
      if host.alive {
        DatabaseKeepsCoherent(host.g, before, db, host.w, gen);
      }
    }

    /** Writes a change and, after a revocation, publishes the applied policy again without the revoked users. */
    method ChangeAccess(db: Database, revoke: bool) returns (ok: bool)
      requires Valid() && host.alive && (revoke || KeepsLive(host.w.own.db, db))
      modifies this, host
      ensures Valid() && old(host.history) <= host.history
      ensures ok ==> host.alive && host.w.own.db == db
      ensures ok && revoke ==> !uncertain
    {
      if revoke {
        ok := CloseForRevocation();
        if !ok {
          return;
        }
      }
      ok := WriteDatabase(db);
      if !ok {
        return;
      }
      if revoke {
        if !initialized {
          return false;  // the empty policy does not validate
        }
        ok := Publish(base, map[], true, false);
      }
    }

    method PatchPeer(id: string, patch: PeerPatch, newCredential: string) returns (ok: bool)
      requires Valid() && host.alive
      modifies this, host
      ensures Valid() && old(host.history) <= host.history
      ensures ok ==> id in old(host.w.own.db.peers) && host.w.own.db == PatchDb(old(host.w.own.db), id, patch, newCredential)
      ensures ok && Revokes(old(host.w.own.db).peers[id], patch) ==> forall u: User :: u.peer == id ==> !IsLive(host.w.own.db, u)
    {
      var db := host.w.own.db;
      if id !in db.peers {
        return false;
      }
      var invalid: bool := *;
      if invalid {
        return false;
      }
      OtherChangesKeepLive(db, id, patch, newCredential, db.realityOn, db.peers[id]);
      ok := ChangeAccess(PatchDb(db, id, patch, newCredential), Revokes(db.peers[id], patch));
    }

    method DeletePeer(id: string) returns (ok: bool)
      requires Valid() && host.alive
      modifies this, host
      ensures Valid() && old(host.history) <= host.history
      ensures ok ==> host.w.own.db == DeleteDb(old(host.w.own.db), id)
      ensures ok ==> forall u: User :: u.peer == id ==> !IsLive(host.w.own.db, u)
    {
      var db := host.w.own.db;
      if id !in db.peers {
        return false;
      }
      OtherChangesKeepLive(db, id, PeerPatch(None, None), "", db.realityOn, db.peers[id]);
      ok := ChangeAccess(DeleteDb(db, id), db.peers[id].reality && db.peers[id].enabled);
    }

    method RotateReality(id: string, expected: nat) returns (ok: bool)
      requires Valid() && host.alive
      modifies this, host
      ensures Valid() && old(host.history) <= host.history
      ensures ok ==> id in old(host.w.own.db.peers) && host.w.own.db == RotateDb(old(host.w.own.db), id)
      ensures ok ==> forall u: User :: u.peer == id && IsLive(old(host.w.own.db), u) ==> !IsLive(host.w.own.db, u)
    {
      var db := host.w.own.db;
      if id !in db.peers || expected != db.peers[id].revision || !db.peers[id].reality {
        return false;
      }
      ok := ChangeAccess(RotateDb(db, id), true);
    }

    method SaveSettings(realityOn: bool) returns (ok: bool)
      requires Valid() && host.alive
      modifies this, host
      ensures Valid() && old(host.history) <= host.history
      ensures ok ==> host.w.own.db == SettingsDb(old(host.w.own.db), realityOn)
      ensures ok && !realityOn ==> forall u: User :: !IsLive(host.w.own.db, u)
    {
      var invalid: bool := *;
      if invalid {
        return false;
      }
      var db := host.w.own.db;
      OtherChangesKeepLive(db, "", PeerPatch(None, None), "", realityOn, PeerRow(false, false, "", 0));
      ok := ChangeAccess(SettingsDb(db, realityOn), db.realityOn && !realityOn);
    }

    /** Adds a peer to an applied policy whose WireGuard addresses are still those of the settings. */
    method CreatePeer(id: string, row: PeerRow, wgAddress: string) returns (ok: bool)
      requires Valid() && host.alive
      modifies this, host
      ensures Valid() && old(host.history) <= host.history
      ensures ok ==> old(initialized) && wgAddress == old(base.wgAddress)
      ensures ok ==> host.w.own.db == CreateDb(old(host.w.own.db), id, row)
    {
      if !initialized || wgAddress != base.wgAddress {
        return false;
      }
      var db := host.w.own.db;
      OtherChangesKeepLive(db, id, PeerPatch(None, None), "", db.realityOn, row);
      ok := ChangeAccess(CreateDb(db, id, row), false);
    }

    // -------------------------------------------------------------- with the daemon stopped

    /** Takes the authority from the records, the seed first. It may stop after any step. */
    method Invalidate()
      requires Valid() && !host.alive && Shielded(host.g, host.w) && !WgOpen(host.w)
      modifies host
      ensures Valid() && old(host.history) <= host.history
    {
      InvalidationKeepsInv(host.g, host.w);
      host.Enter(host.w.(own := host.w.own.(seed := None)));
      var interrupted: bool := *;
      if interrupted {
        return;
      }
      InvalidationKeepsInv(host.g, host.w);
      host.Enter(host.w.(own := host.w.own.(committed := None)));
    }

    /** A fresh installation writes a seed; an orphan record refuses it. */
    method Install(seed: Generation)
      requires Valid() && !host.alive
      modifies host
      ensures Valid() && old(host.history) <= host.history
    {
      if host.w.own.committed.Some? || host.w.own.seed.Some? {
        return;
      }
      SeedingKeepsInv(host.g, host.w, seed);
      host.Enter(Seeded(host.w, seed));
    }

    // -------------------------------------------------------------- any run

    /** Something happens: an operation of the daemon, a start of it, or events around it. */
    method Anything(snap: Policy, lists: Contents, id: string, patch: PeerPatch, row: PeerRow, n: nat, on: bool)
      requires Valid()
      modifies this, host
      ensures Valid() && old(host.history) <= host.history
    {
      if !host.alive {
        if * {
          StartDaemon();
        } else if * {
          Install(Generation(snap, lists, on));
        } else if Shielded(host.g, host.w) && !WgOpen(host.w) {
          Invalidate();
        }
        return;
      }
      var ok: bool;
      if * {
        ok := Apply(snap, lists);
      } else if * {
        ok := ApplyPools(snap);
      } else if * {
        ok := RefreshLists(lists);
      } else if * {
        ok := PatchPeer(id, patch, row.credential);
      } else if * {
        ok := DeletePeer(id);
      } else if * {
        ok := RotateReality(id, n);
      } else if * {
        ok := SaveSettings(on);
      } else {
        ok := CreatePeer(id, row, snap.wgAddress);
      }
    }

    /** Events around a host between operations. */
    method Wait()
      requires Valid()
      modifies host
      ensures Valid() && old(host.history) <= host.history
    {
      ghost var before := host.w;
      host.Surroundings();
      if host.alive {
        DriftKeeps(host.g, before, host.w, false, Generation(base, contents));
      }
    }
  }

  /** Over any run from a fresh host, with any step failing, the daemon crashing, the host rebooting and the
      startup hook running between any two steps, every state is safe. */
  method AnyRun(g: Generator, w: World, steps: nat) returns (host: Host)
    requires AdmitsNoOthers(g) && IsFresh(w)
    ensures host.g == g && forall v :: v in host.history ==> Safe(g, v)
  {
    host := new Host(g, w);
    var gate := new Gate(host);
    for i := 0 to steps
      invariant gate.host == host && gate.Valid() && host.g == g
    {
      var snap: Policy := *;
      var lists: Contents := *;
      var id: string := *;
      var patch: PeerPatch := *;
      var row: PeerRow := *;
      var n :| 0 <= n;
      var on: bool := *;
      gate.Anything(snap, lists, id, patch, row, n, on);
      gate.Wait();
    }
    forall v | v in host.history
      ensures Safe(g, v)
    {
      var i :| 0 <= i < |host.history| && host.history[i] == v;
      AllSafeAt(g, host.history, i);
    }
  }
}
