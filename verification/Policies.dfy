/** Applied policies, pool membership carried into them, and the live authentication that a
    configuration may admit (cmd/razdachad/apply.go, cmd/razdachad/reality.go, internal/store/reality.go). */
module Policies {
  import opened Options

  // ---------------------------------------------------------------- policies

  /** A tunnel; only a pool has servers that updates replace. `body` is all the rest of it. */
  datatype Tunnel = Tunnel(id: string, isPool: bool, pool: seq<string>, poolUpdated: nat, body: string)

  /** A credential of one peer at one revision. */
  datatype User = User(peer: string, credential: string, revision: nat)

  /** A snapshot of policy. `admissions` are the credentials it lets in, `wgAddress` the address settings of
      WireGuard, `body` is all that the model does not look into. */
  datatype Policy = Policy(
    body: string,
    identity: string,
    wgAddress: string,
    realityOn: bool,
    admissions: seq<User>,
    activePeers: set<string>,
    sources: set<string>,
    tunnels: seq<Tunnel>)

  const NO_POLICY := Policy("", "", "", false, [], {}, {}, [])

  function EraseTunnel(t: Tunnel): Tunnel {
    if t.isPool then t.(pool := [], poolUpdated := 0) else t
  }

  function EraseTunnels(ts: seq<Tunnel>): (out: seq<Tunnel>)
    ensures |out| == |ts|
  {
    if ts == [] then [] else EraseTunnels(ts[..|ts| - 1]) + [EraseTunnel(ts[|ts| - 1])]
  }

  /** The policy with pool membership erased: what a user's explicit Apply decided. */
  function Erase(p: Policy): Policy {
    p.(tunnels := EraseTunnels(p.tunnels))
  }

  // ---------------------------------------------------------------- carrying pools over

  /** The last pool of an id in a list of tunnels. */
  function PoolOf(ts: seq<Tunnel>, id: string): Option<Tunnel> {
    if ts == [] then None
    else if ts[|ts| - 1].isPool && ts[|ts| - 1].id == id then Some(ts[|ts| - 1])
    else PoolOf(ts[..|ts| - 1], id)
  }

  function Carried(t: Tunnel, others: seq<Tunnel>): Tunnel {
    if t.isPool && PoolOf(others, t.id).Some? then
      t.(pool := PoolOf(others, t.id).value.pool, poolUpdated := PoolOf(others, t.id).value.poolUpdated)
    else t
  }

  function CarriedAll(ts: seq<Tunnel>, others: seq<Tunnel>): (out: seq<Tunnel>)
    ensures |out| == |ts|
  {
    if ts == [] then [] else CarriedAll(ts[..|ts| - 1], others) + [Carried(ts[|ts| - 1], others)]
  }

  /** The list with its first `i` tunnels carried over. */
  function Halfway(ts: seq<Tunnel>, others: seq<Tunnel>, i: nat): (out: seq<Tunnel>)
    requires i <= |ts|
    ensures |out| == |ts| && (i < |ts| ==> out[i] == ts[i])
  {
    CarriedAll(ts[..i], others) + ts[i..]
  }

  lemma {:induction false} CarryStep(ts: seq<Tunnel>, others: seq<Tunnel>, i: nat)
    requires i < |ts|
    ensures Halfway(ts, others, i + 1) == Halfway(ts, others, i)[i := Carried(ts[i], others)]
  {
    assert ts[..i + 1][..i] == ts[..i];
    assert Halfway(ts, others, i + 1) == CarriedAll(ts[..i], others) + [Carried(ts[i], others)] + ts[i + 1..];
  }

  lemma {:induction false} CarriedErases(ts: seq<Tunnel>, others: seq<Tunnel>)
    ensures EraseTunnels(CarriedAll(ts, others)) == EraseTunnels(ts)
    decreases |ts|
  {
    if ts != [] {
      var front := CarriedAll(ts[..|ts| - 1], others);
      CarriedErases(ts[..|ts| - 1], others);
      assert (front + [Carried(ts[|ts| - 1], others)])[..|front|] == front;
    }
  }

  /** Looks a pool up the way a map filled in list order does. */
  ghost predicate Looks(pools: map<string, Tunnel>, ts: seq<Tunnel>) {
    forall id: string :: PoolOf(ts, id) == if id in pools then Some(pools[id]) else None
  }

  lemma {:induction false} LooksSnoc(pools: map<string, Tunnel>, ts: seq<Tunnel>, t: Tunnel)
    requires Looks(pools, ts)
    ensures Looks(if t.isPool then pools[t.id := t] else pools, ts + [t])
  {
    assert (ts + [t])[..|ts|] == ts;
    forall id: string
      ensures PoolOf(ts + [t], id) ==
              var next := if t.isPool then pools[t.id := t] else pools; if id in next then Some(next[id]) else None
    {
      assert PoolOf(ts, id) == if id in pools then Some(pools[id]) else None;
    }
  }

  lemma {:induction false} CarryDone(p: Policy, others: seq<Tunnel>)
    ensures Halfway(p.tunnels, others, |p.tunnels|) == CarriedAll(p.tunnels, others)
    ensures Erase(p.(tunnels := CarriedAll(p.tunnels, others))) == Erase(p)
  {
    assert p.tunnels[..|p.tunnels|] == p.tunnels;
    CarriedErases(p.tunnels, others);
  }

  method IndexPools(ts: seq<Tunnel>) returns (pools: map<string, Tunnel>)
    ensures Looks(pools, ts)
  {
    pools := map[];
    for i := 0 to |ts|
      invariant Looks(pools, ts[..i])
    {
      LooksSnoc(pools, ts[..i], ts[i]);
      assert ts[..i + 1] == ts[..i] + [ts[i]];
      if ts[i].isPool {
        pools := pools[ts[i].id := ts[i]];
      }
    }
    assert ts[..|ts|] == ts;
  }

  /** One tunnel of the list: a known pool takes its servers over, anything else stays. */
  lemma {:induction false} CarryOne(ts: seq<Tunnel>, others: seq<Tunnel>, i: nat, pools: map<string, Tunnel>)
    requires i < |ts| && Looks(pools, others)
    ensures Halfway(ts, others, i)[i] == ts[i]
    ensures Halfway(ts, others, i + 1) ==
      if ts[i].isPool && ts[i].id in pools then
        Halfway(ts, others, i)[i := ts[i].(pool := pools[ts[i].id].pool, poolUpdated := pools[ts[i].id].poolUpdated)]
      else Halfway(ts, others, i)
  {
    var t, half := ts[i], Halfway(ts, others, i);
    CarryStep(ts, others, i);
    assert PoolOf(others, t.id) == if t.id in pools then Some(pools[t.id]) else None;
    assert half[i := t] == half;
  }

  /** Carries the servers of known pools from a current snapshot into an applied one. Nothing else of
      the current snapshot gets through: with pools erased, the applied policy is the same. */
  method WithPoolServers(applied: Policy, current: Policy) returns (out: Policy)
    ensures Erase(out) == Erase(applied)
    ensures out == applied.(tunnels := CarriedAll(applied.tunnels, current.tunnels))
  {
    var pools := IndexPools(current.tunnels);
    var tunnels := applied.tunnels;
    for i := 0 to |tunnels|
      invariant |tunnels| == |applied.tunnels|
      invariant tunnels == Halfway(applied.tunnels, current.tunnels, i)
    {
      CarryOne(applied.tunnels, current.tunnels, i, pools);
      var t := tunnels[i];
      if !t.isPool {
        continue;
      }
      if t.id !in pools {
        continue;
      }
      tunnels := tunnels[i := t.(pool := pools[t.id].pool, poolUpdated := pools[t.id].poolUpdated)];
    }
    CarryDone(applied, current.tunnels);
    out := applied.(tunnels := tunnels);
  }

  // ---------------------------------------------------------------- dropping rejected pool members

  function Remove(pool: seq<string>, url: string): seq<string> {
    if pool == [] then []
    else Remove(pool[..|pool| - 1], url) + if pool[|pool| - 1] == url then [] else [pool[|pool| - 1]]
  }

  /** The tunnels without one server; the first tunnel of the id loses it. */
  function WithoutServer(ts: seq<Tunnel>, id: string, url: string): seq<Tunnel> {
    if ts == [] then []
    else if ts[0].id == id then [ts[0].(pool := Remove(ts[0].pool, url))] + ts[1..]
    else [ts[0]] + WithoutServer(ts[1..], id, url)
  }

  ghost predicate SubPool(xs: seq<string>, ys: seq<string>) {
    forall s :: s in xs ==> s in ys
  }

  /** The same tunnels, with nothing but pool members missing. */
  ghost predicate Trimmed(xs: seq<Tunnel>, ys: seq<Tunnel>) {
    && |xs| == |ys|
    && (xs != [] ==>
          && xs[0] == ys[0].(pool := xs[0].pool) && SubPool(xs[0].pool, ys[0].pool)
          && Trimmed(xs[1..], ys[1..]))
  }

  lemma {:induction false} RemoveIsSub(pool: seq<string>, url: string)
    ensures SubPool(Remove(pool, url), pool)
    decreases |pool|
  {
    if pool != [] {
      RemoveIsSub(pool[..|pool| - 1], url);
      assert pool == pool[..|pool| - 1] + [pool[|pool| - 1]];
    }
  }

  lemma {:induction false} TrimmedSelf(ts: seq<Tunnel>)
    ensures Trimmed(ts, ts)
    decreases |ts|
  {
    if ts != [] {
      TrimmedSelf(ts[1..]);
    }
  }

  lemma {:induction false} TrimmedMore(xs: seq<Tunnel>, ts: seq<Tunnel>, id: string, url: string)
    requires Trimmed(xs, ts)
    ensures Trimmed(WithoutServer(xs, id, url), ts)
    decreases |xs|
  {
    if xs != [] {
      RemoveIsSub(xs[0].pool, url);
      if xs[0].id == id {
        assert ([xs[0].(pool := Remove(xs[0].pool, url))] + xs[1..])[1..] == xs[1..];
      } else {
        TrimmedMore(xs[1..], ts[1..], id, url);
        assert ([xs[0]] + WithoutServer(xs[1..], id, url))[1..] == WithoutServer(xs[1..], id, url);
      }
    }
  }

  function PoolServers(ts: seq<Tunnel>): nat {
    if ts == [] then 0 else PoolServers(ts[..|ts| - 1]) + if ts[|ts| - 1].isPool then |ts[|ts| - 1].pool| else 0
  }

  // ---------------------------------------------------------------- live authentication

  /** A peer row with its credential; an empty credential is no credential. */
  datatype PeerRow = PeerRow(enabled: bool, reality: bool, credential: string, revision: nat)

  /** The live database: peers, the switch for public access and the server's identity. */
  datatype Database = Database(peers: map<string, PeerRow>, realityOn: bool, identity: Option<string>)

  predicate IsActive(row: PeerRow) {
    row.enabled && row.reality && row.credential != ""
  }

  /** Users the database lets in now. */
  predicate IsLive(db: Database, u: User) {
    && db.realityOn && u.peer in db.peers && IsActive(db.peers[u.peer])
    && db.peers[u.peer].credential == u.credential && db.peers[u.peer].revision == u.revision
  }

  ghost predicate AllLive(users: set<User>, db: Database) {
    forall u :: u in users ==> IsLive(db, u)
  }

  predicate NamesPeer(admissions: seq<User>, peer: string) {
    admissions != [] && (NamesPeer(admissions[..|admissions| - 1], peer) || admissions[|admissions| - 1].peer == peer)
  }

  /** Every admission is complete and no peer is admitted twice. */
  predicate ValidAdmissions(admissions: seq<User>) {
    admissions != [] ==>
      var front, last := admissions[..|admissions| - 1], admissions[|admissions| - 1];
      && ValidAdmissions(front) && !NamesPeer(front, last.peer)
      && last.peer != "" && last.credential != "" && last.revision >= 1
  }

  /** A lookup of admissions by peer. */
  ghost predicate Finds(admitted: map<string, User>, admissions: seq<User>) {
    && (forall peer :: peer in admitted <==> NamesPeer(admissions, peer))
    && (forall peer :: peer in admitted ==> admitted[peer].peer == peer)
    && (forall u: User :: u in admissions <==> u.peer in admitted && admitted[u.peer] == u)
  }

  lemma {:induction false} FindsSnoc(admitted: map<string, User>, admissions: seq<User>, u: User)
    requires Finds(admitted, admissions) && !NamesPeer(admissions, u.peer)
    ensures Finds(admitted[u.peer := u], admissions + [u])
  {
    assert (admissions + [u])[..|admissions|] == admissions;
  }

  lemma {:induction false} InvalidAdmission(admissions: seq<User>, i: nat)
    requires i < |admissions|
    requires var u := admissions[i];
             u.peer == "" || u.credential == "" || u.revision < 1 || NamesPeer(admissions[..i], u.peer)
    ensures !ValidAdmissions(admissions)
    decreases |admissions|
  {
    if i < |admissions| - 1 {
      assert admissions[..|admissions| - 1][..i] == admissions[..i];
      InvalidAdmission(admissions[..|admissions| - 1], i);
    }
  }

  method IndexAdmissions(admissions: seq<User>) returns (admitted: Option<map<string, User>>)
    ensures admitted.Some? <==> ValidAdmissions(admissions)
    ensures admitted.Some? ==> Finds(admitted.value, admissions)
  {
    var found: map<string, User> := map[];
    for i := 0 to |admissions|
      invariant ValidAdmissions(admissions[..i]) && Finds(found, admissions[..i])
    {
      var u := admissions[i];
      assert admissions[..i + 1] == admissions[..i] + [u] && admissions[..i + 1][..i] == admissions[..i];
      if u.peer == "" || u.credential == "" || u.revision < 1 {
        InvalidAdmission(admissions, i);
        return None;
      }
      if u.peer in found {
        InvalidAdmission(admissions, i);
        return None;
      }
      FindsSnoc(found, admissions[..i], u);
      found := found[u.peer := u];
    }
    assert admissions[..|admissions|] == admissions;
    return Some(found);
  }

  /** Lets in a user whom the policy admits and holds active and whose credential is live. */
  predicate LetIn(p: Policy, db: Database, u: User) {
    p.realityOn && u in p.admissions && u.peer in p.activePeers && IsLive(db, u)
  }

  /** The one user a peer's row may stand for. */
  lemma {:induction false} OneOfPeer(p: Policy, db: Database, admitted: map<string, User>, id: string, u: User)
    requires Finds(admitted, p.admissions) && id in db.peers && u.peer == id && p.realityOn && db.realityOn
    ensures LetIn(p, db, u) <==>
              && IsActive(db.peers[id]) && id in admitted && id in p.activePeers && u == admitted[id]
              && u.credential == db.peers[id].credential && u.revision == db.peers[id].revision
  {
  }

  /** Exactly the users that policy and live database both let in; refused when public access is on but the
      server's identity is not the admitted one or an admission is not valid. */
  method RealityRuntime(p: Policy, db: Database) returns (res: Option<set<User>>)
    ensures res.None? <==>
              p.realityOn && db.realityOn && (db.identity != Some(p.identity) || !ValidAdmissions(p.admissions))
    ensures res.Some? ==> forall u: User :: u in res.value <==> LetIn(p, db, u)
  {
    if !p.realityOn || !db.realityOn {
      return Some({});
    }
    if db.identity != Some(p.identity) {
      return None;
    }
    var admitted := IndexAdmissions(p.admissions);
    if admitted.None? {
      return None;
    }
    var users: set<User> := {};
    var left := db.peers.Keys;
    while left != {}
      invariant left <= db.peers.Keys
      invariant forall u: User :: u in users <==> u.peer in db.peers && u.peer !in left && LetIn(p, db, u)
      decreases |left|
    {
      var id :| id in left;
      var row := db.peers[id];
      forall u: User | u.peer == id {
        OneOfPeer(p, db, admitted.value, id, u);
      }
      if IsActive(row) && id in admitted.value && id in p.activePeers
         && admitted.value[id].credential == row.credential && admitted.value[id].revision == row.revision {
        users := users + {admitted.value[id]};
      }
      left := left - {id};
    }
    return Some(users);
  }

  /** Nobody who was live stops being live. */
  ghost predicate KeepsLive(before: Database, after: Database) {
    forall u: User :: IsLive(before, u) ==> IsLive(after, u)
  }

  lemma {:induction false} LiveIsKept(users: set<User>, before: Database, after: Database)
    requires AllLive(users, before) && KeepsLive(before, after)
    ensures AllLive(users, after)
  {
  }

  // ---------------------------------------------------------------- changes to the database

  datatype PeerPatch = PeerPatch(enabled: Option<bool>, reality: Option<bool>)

  function PatchedRow(row: PeerRow, patch: PeerPatch, newCredential: string): PeerRow {
    var next := row.(enabled := if patch.enabled.Some? then patch.enabled.value else row.enabled,
                     reality := if patch.reality.Some? then patch.reality.value else row.reality);
    var keyed := if next.reality && next.credential == "" then next.(credential := newCredential, revision := 1) else next;
    if row.enabled && row.reality && !(keyed.enabled && keyed.reality) then keyed.(revision := keyed.revision + 1) else keyed
  }

  function PatchDb(db: Database, id: string, patch: PeerPatch, newCredential: string): Database
    requires id in db.peers
  {
    db.(peers := db.peers[id := PatchedRow(db.peers[id], patch, newCredential)])
  }

  /** A patch that takes access away from a peer that has it. */
  predicate Revokes(row: PeerRow, patch: PeerPatch) {
    row.reality && row.enabled && (patch.enabled == Some(false) || patch.reality == Some(false))
  }

  function DeleteDb(db: Database, id: string): Database {
    db.(peers := db.peers - {id})
  }

  function RotateDb(db: Database, id: string): Database
    requires id in db.peers
  {
    db.(peers := db.peers[id := db.peers[id].(revision := db.peers[id].revision + 1)])
  }

  /** Switching public access off moves every credential to a new revision. */
  function SettingsDb(db: Database, on: bool): Database {
    if db.realityOn && !on then
      db.(peers := map id | id in db.peers :: db.peers[id].(revision := db.peers[id].revision + 1), realityOn := false)
    else db.(realityOn := on)
  }

  function CreateDb(db: Database, id: string, row: PeerRow): Database {
    if id in db.peers then db else db.(peers := db.peers[id := row])
  }

  /** The branches that skip closing public access take it from nobody. */
  lemma {:induction false} OtherChangesKeepLive(db: Database, id: string, patch: PeerPatch, newCredential: string, on: bool, row: PeerRow)
    ensures id in db.peers && !Revokes(db.peers[id], patch) ==> KeepsLive(db, PatchDb(db, id, patch, newCredential))
    ensures id in db.peers && !(db.peers[id].reality && db.peers[id].enabled) ==> KeepsLive(db, DeleteDb(db, id))
    ensures !(db.realityOn && !on) ==> KeepsLive(db, SettingsDb(db, on))
    ensures KeepsLive(db, CreateDb(db, id, row))
  {
  }

  /** What a revocation takes away is exactly the peer's own access. */
  lemma {:induction false} RevokedIsNotLive(db: Database, id: string, patch: PeerPatch, newCredential: string, u: User)
    requires id in db.peers && u.peer == id
    ensures Revokes(db.peers[id], patch) ==> !IsLive(PatchDb(db, id, patch, newCredential), u)
    ensures !IsLive(DeleteDb(db, id), u)
    ensures IsLive(db, u) ==> !IsLive(RotateDb(db, id), u)
    ensures !IsLive(SettingsDb(db, false), u)
  {
  }
}
