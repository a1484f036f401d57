/** The publication gate of the daemon: every step may fail, the daemon may crash and the host may reboot
    between any two steps, and the startup hook runs beside it under a file lock
    (cmd/razdachad/network_generation.go, cmd/razdachad/reality.go, cmd/razdachad/apply.go). */
module PublicationGate {
  import opened Options
  import opened Policies
  import opened Publication

  ghost predicate AllSafe(g: Generator, history: seq<World>) {
    history != [] ==> AllSafe(g, history[..|history| - 1]) && Safe(g, history[|history| - 1])
  }

  lemma {:induction false} AllSafeSnoc(g: Generator, history: seq<World>, w: World)
    requires AllSafe(g, history) && Safe(g, w)
    ensures AllSafe(g, history + [w])
  {
    assert (history + [w])[..|history|] == history;
  }

  lemma {:induction false} AllSafeAt(g: Generator, history: seq<World>, i: nat)
    requires AllSafe(g, history) && i < |history|
    ensures Safe(g, history[i])
    decreases |history|
  {
    if i < |history| - 1 {
      AllSafeAt(g, history[..|history| - 1], i);
    }
  }

  /** The host with its surroundings. `history` holds every state it was ever in. */
  class Host {
    const g: Generator
    var w: World
    var alive: bool    // the daemon runs
    var locked: bool   // the daemon holds the file lock
    ghost var history: seq<World>

    constructor (g: Generator, w: World)
      requires AdmitsNoOthers(g) && Inv(g, w)
      ensures this.g == g && this.w == w && !alive && !locked && history == [w]
      ensures Sound()
    {
      this.g, this.w, alive, locked, history := g, w, false, false, [w];
      new;
      InvIsSafe(g, w);
      assert history[..0] == [];
    }

    ghost predicate Sound()
      reads this
    {
      AdmitsNoOthers(g) && Inv(g, w) && AllSafe(g, history) && (locked ==> alive)
    }

    /** Enters a new state. */
    method Enter(next: World)
      requires Sound() && Inv(g, next)
      modifies `w, `history
      ensures Sound() && w == next && history == old(history) + [next]
    {
      InvIsSafe(g, next);
      AllSafeSnoc(g, history, next);
      w := next;
      history := history + [next];
    }

    /** One thing that may happen outside the daemon, or to it: the runtime stops, the startup hook
        runs or fails half way, the runtime starts, the daemon crashes, or the host reboots. */
    method Event()
      requires Sound()
      modifies `w, `alive, `locked, `history
      ensures Sound() && old(history) <= history
      ensures alive ==> old(alive) && locked == old(locked) && Drift(old(w), w, locked)
    {
      var next, dies := AnyEvent(g, w, locked);
      Enter(next);
      if dies {
        alive, locked := false, false;
      }
    }

    /** Any number of events. */
    method Surroundings()
      requires Sound()
      modifies `w, `alive, `locked, `history
      ensures Sound() && old(history) <= history
      ensures alive ==> old(alive) && locked == old(locked) && Drift(old(w), w, locked)
    {
      var n :| 0 <= n;
      StopDrifts(w, locked);
      for i := 0 to n
        invariant Sound() && old(history) <= history
        invariant alive ==> old(alive) && locked == old(locked) && Drift(old(w), w, locked)
      {
        ghost var before := w;
        Event();
        if alive {
          DriftTransitive(old(w), before, w, locked);
        }
      }
    }

    /** One effect of the daemon. It may happen, fail before or after it happened, or be the last thing
        the daemon does. A dead daemon does nothing. */
    method Perform(next: World) returns (ok: bool)
      requires Sound() && (alive ==> Inv(g, next))
      modifies `w, `alive, `locked, `history
      ensures Sound() && old(history) <= history
      ensures ok ==> alive && old(alive) && locked == old(locked) && Drift(next, w, locked) && next in history
      ensures alive ==> old(alive) && locked == old(locked) && (Drift(next, w, locked) || Drift(old(w), w, locked))
    {
      if !alive {
        return false;
      }
      var happens: bool := *;
      var reported: bool := *;
      if happens {
        Enter(next);
        assert history[|history| - 1] == next;
      }
      Surroundings();
      ok := happens && reported && alive;
    }
  }
}
