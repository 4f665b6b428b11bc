/**
 The generated admin Secret: adoption by the cluster of its name, release by the
 finalizer, and its survival across every delete and recreation under Retain.
 */
module AdminSecret {
  import opened Calls
  import opened Options

  datatype Kind = TechnitiumCluster | OtherKind

  /** Owner references of kind TechnitiumCluster on this Secret are to the cluster of its name, past or present. */
  datatype OwnerRef = OwnerRef(uid: nat, kind: Kind, controller: bool)

  datatype Secret = Secret(owners: seq<OwnerRef>, password: Option<string>)

  datatype Cluster = Cluster(uid: nat, finalizer: bool, deleting: bool)

  datatype Policy = Policy(adminSecretRef: bool, deleteVolumes: bool)

  const RETAIN: Policy := Policy(false, false)

  // ---------- owner references ----------

  function Dropping(owners: seq<OwnerRef>, drop: OwnerRef -> bool): seq<OwnerRef> {
    if owners == [] then []
    else
      var last := owners[|owners| - 1];
      Dropping(owners[..|owners| - 1], drop) + (if drop(last) then [] else [last])
  }

  function First(owners: seq<OwnerRef>, p: OwnerRef -> bool): (i: nat)
    ensures i <= |owners| && (i < |owners| ==> p(owners[i]))
    ensures forall j :: 0 <= j < i ==> !p(owners[j])
  {
    if owners == [] || p(owners[0]) then 0 else 1 + First(owners[1..], p)
  }

  predicate Stale(ref: OwnerRef, uid: nat) {
    ref.controller && ref.kind.TechnitiumCluster? && ref.uid != uid
  }

  function StaleFor(uid: nat): OwnerRef -> bool {
    ref => Stale(ref, uid)
  }

  function OfUid(uid: nat): OwnerRef -> bool {
    (ref: OwnerRef) => ref.uid == uid
  }

  predicate IsCluster(ref: OwnerRef) {
    ref.kind.TechnitiumCluster?
  }

  predicate IsController(ref: OwnerRef) {
    ref.controller
  }

  /** SetControllerReference: refuse another object's controller reference, else replace or append our own. */
  function Controlled(owners: seq<OwnerRef>, uid: nat): Option<seq<OwnerRef>> {
    var c := First(owners, IsController);
    if c < |owners| && !IsCluster(owners[c]) then None
    else
      var i := First(owners, IsCluster);
      var ref := OwnerRef(uid, TechnitiumCluster, true);
      Some(if i < |owners| then owners[i := ref] else owners + [ref])
  }

  /** What reconcileAdminSecret wants the Secret to be; None when it may not take it over. */
  function TakenOver(secret: Option<Secret>, uid: nat, generated: string): Option<Secret> {
    var current := if secret.Some? then secret.value else Secret([], None);
    match Controlled(Dropping(current.owners, StaleFor(uid)), uid)
    case None => None
    case Some(owners) => Some(Secret(owners, if current.password.Some? then current.password else Some(generated)))
  }

  lemma {:induction false} DroppingMeans(owners: seq<OwnerRef>, drop: OwnerRef -> bool, ref: OwnerRef)
    ensures ref in Dropping(owners, drop) <==> ref in owners && !drop(ref)
    ensures |Dropping(owners, drop)| <= |owners|
    ensures |Dropping(owners, drop)| == |owners| <==> forall r :: r in owners ==> !drop(r)
    decreases |owners|
  {
    if owners != [] {
      var m := |owners| - 1;
      DroppingMeans(owners[..m], drop, ref);
      assert forall r :: r in owners <==> r in owners[..m] || r == owners[m];
    }
  }

  /**
   Taking a Secret over keeps its password, leaves no other cluster in control,
   and fails only where an object of another kind is a controller.
   */
  lemma TakeoverMeans(secret: Secret, uid: nat, generated: string)
    ensures var w := TakenOver(Some(secret), uid, generated);
      && (w.Some? ==>
            && OwnerRef(uid, TechnitiumCluster, true) in w.value.owners
            && (forall ref :: ref in w.value.owners ==> !Stale(ref, uid))
            && (forall ref :: ref in w.value.owners && !IsCluster(ref) ==> ref in secret.owners)
            && w.value.password == (if secret.password.Some? then secret.password else Some(generated)))
      && ((forall ref :: ref in secret.owners && ref.controller ==> IsCluster(ref)) ==> w.Some?)
  {
    var kept := Dropping(secret.owners, StaleFor(uid));
    forall ref ensures ref in kept <==> ref in secret.owners && !Stale(ref, uid) {
      DroppingMeans(secret.owners, StaleFor(uid), ref);
    }
    var i := First(kept, IsCluster);
    var own := OwnerRef(uid, TechnitiumCluster, true);
    if i < |kept| {
      assert kept[i := own][i] == own;
    } else {
      assert (kept + [own])[i] == own;
    }
  }

  // ---------- the operations ----------

  /** Outcome of releasing the owner reference: the Secret, and whether the finalizer may go on. */
  function Released(secret: Option<Secret>, uid: nat, policy: Policy, call: Call): (Option<Secret>, bool) {
    if policy.adminSecretRef || policy.deleteVolumes || secret.None? then (secret, true)
    else
      var kept := Dropping(secret.value.owners, OfUid(uid));
      if |kept| == |secret.value.owners| then (secret, true)
      else (if call.TakesEffect() then Some(secret.value.(owners := kept)) else secret, call.Succeeds?)
  }

  /**
   Where the Secret is this operator's to keep, releasing takes away the
   references to this cluster and nothing else, and goes on unless that took a
   call and the call failed. Everywhere else it does nothing.
   */
  lemma ReleaseMeans(secret: Option<Secret>, uid: nat, policy: Policy, call: Call)
    ensures var (after, ok) := Released(secret, uid, policy, call);
      var held := policy == RETAIN && secret.Some? && exists ref :: ref in secret.value.owners && ref.uid == uid;
      && (!held || !call.TakesEffect() ==> after == secret)
      && (held && call.TakesEffect() ==>
            && after.Some? && after.value.password == secret.value.password
            && forall ref :: ref in after.value.owners <==> ref in secret.value.owners && ref.uid != uid)
      && (ok <==> !held || call.Succeeds?)
  {
    if secret.Some? {
      forall ref ensures ref in Dropping(secret.value.owners, OfUid(uid)) <==> ref in secret.value.owners && ref.uid != uid {
        DroppingMeans(secret.value.owners, OfUid(uid), ref);
      }
      DroppingMeans(secret.value.owners, OfUid(uid), OwnerRef(uid, TechnitiumCluster, true));
    }
  }

  /** Removing the finalizer of an object being deleted lets it go. */
  function Unfinalized(cluster: Cluster): Option<Cluster> {
    if cluster.deleting then None else Some(cluster.(finalizer := false))
  }

  /** The cluster resource and the Secret of its name. */
  class Namespace {
    var cluster: Option<Cluster>
    var secret: Option<Secret>

    constructor ()
      ensures cluster == None && secret == None
    {
      cluster, secret := None, None;
    }

    /** reconcileAdminSecret; generated is the password to use in case there is none. */
    method ReconcileAdminSecret(uid: nat, generated: string, call: Call) returns (ok: bool)
      modifies this`secret
      ensures var w := TakenOver(old(secret), uid, generated);
        && secret == (if w.Some? && call.TakesEffect() then w else old(secret))
        && ok == (w.Some? && call.Succeeds?)
    {
      var current := if secret.Some? then secret.value else Secret([], None);
      var owners: seq<OwnerRef> := [];
      for i := 0 to |current.owners|
        invariant owners == Dropping(current.owners[..i], StaleFor(uid))
      {
        assert current.owners[..i + 1][..i] == current.owners[..i];
        if !Stale(current.owners[i], uid) {
          owners := owners + [current.owners[i]];
        }
      }
      assert current.owners[..|current.owners|] == current.owners;
      var controlled := Controlled(owners, uid);
      if controlled.None? {
        return false;
      }
      current := current.(owners := controlled.value);
      if current.password.None? {
        current := current.(password := Some(generated));
      }
      if call.TakesEffect() {
        secret := Some(current);
      }
      return call.Succeeds?;
    }

    /** reconcileAdminSecretRetention. */
    method ReleaseAdminSecret(uid: nat, policy: Policy, call: Call) returns (ok: bool)
      modifies this`secret
      ensures (secret, ok) == Released(old(secret), uid, policy, call)
    {
      if policy.adminSecretRef || policy.deleteVolumes || secret.None? {
        return true;
      }
      var owners := secret.value.owners;
      var kept: seq<OwnerRef> := [];
      for i := 0 to |owners|
        invariant kept == Dropping(owners[..i], OfUid(uid))
      {
        assert owners[..i + 1][..i] == owners[..i];
        if owners[i].uid != uid {
          kept := kept + [owners[i]];
        }
      }
      assert owners[..|owners|] == owners;
      if |kept| == |owners| {
        return true;
      }
      if call.TakesEffect() {
        secret := Some(secret.value.(owners := kept));
      }
      return call.Succeeds?;
    }

    /** finalizeCluster: the finalizer goes only after the Secret was released and the volumes were seen to. */
    method FinalizeCluster(policy: Policy, release: Call, volumes: bool, update: Call) returns (ok: bool)
      requires cluster.Some? && cluster.value.deleting
      modifies this
      ensures !old(cluster).value.finalizer ==> ok && secret == old(secret) && cluster == old(cluster)
      ensures old(cluster).value.finalizer ==>
        var r := Released(old(secret), old(cluster).value.uid, policy, release);
        && secret == r.0
        && cluster == (if r.1 && volumes && update.TakesEffect() then None else old(cluster))
        && ok == (r.1 && volumes && update.Succeeds?)
    {
      if !cluster.value.finalizer {
        return true;
      }
      ok := ReleaseAdminSecret(cluster.value.uid, policy, release);
      if !ok || !volumes {
        return false;
      }
      if update.TakesEffect() {
        cluster := Unfinalized(cluster.value);
      }
      return update.Succeeds?;
    }
  }

  // ---------- every run ----------

  /** Where the operator is in a pass; a pass runs against the cluster it read. */
  datatype Pc = Idle | Reconciling(uid: nat) | Releasing(uid: nat)

  datatype World = World(cluster: Option<Cluster>, secret: Option<Secret>, pc: Pc, used: set<nat>, others: set<nat>)

  datatype Step =
    | Create(uid: nat)
    | RequestDelete
    | AddFinalizer(call: Call)
    | ReconcileSecret(generated: string, call: Call)
    | Release(call: Call)
    | RemoveFinalizer(volumes: bool, call: Call)
    | Crash
    | OwnerDies(uid: nat)
    | Prune
    | Collect

  predicate Alive(w: World, ref: OwnerRef) {
    if IsCluster(ref) then w.cluster.Some? && w.cluster.value.uid == ref.uid else ref.uid in w.others
  }

  function DeadIn(w: World): OwnerRef -> bool {
    ref => !Alive(w, ref)
  }

  /** Garbage collection takes an object that has owners, all of which are gone. */
  predicate Collectable(w: World) {
    w.secret.Some? && w.secret.value.owners != [] && forall ref :: ref in w.secret.value.owners ==> !Alive(w, ref)
  }

  predicate Enabled(w: World, s: Step) {
    match s
    case Create(uid) => w.cluster.None? && uid !in w.used
    case RequestDelete => w.cluster.Some?
    case AddFinalizer(_) => w.pc.Idle? && w.cluster.Some? && !w.cluster.value.deleting
    case ReconcileSecret(_, _) => w.pc.Reconciling?
    case Release(_) => w.pc.Idle? && w.cluster.Some? && w.cluster.value.deleting && w.cluster.value.finalizer
    case RemoveFinalizer(_, _) => w.pc.Releasing? && w.cluster.Some?
    case Crash => true
    case OwnerDies(uid) => true
    case Prune => w.secret.Some? && exists ref :: ref in w.secret.value.owners && Alive(w, ref)
    case Collect => Collectable(w)
  }

  /**
   One step of the operator, the API server or garbage collection. Between two
   calls of a pass anything else may happen.
   */
  function Next(w: World, s: Step, policy: Policy): World
    requires Enabled(w, s)
  {
    match s
    case Create(uid) => w.(cluster := Some(Cluster(uid, false, false)), used := w.used + {uid})
    case RequestDelete =>
      w.(cluster := if w.cluster.value.finalizer then Some(w.cluster.value.(deleting := true)) else None)
    case AddFinalizer(call) =>
      var c := w.cluster.value;
      if c.finalizer || call.Succeeds? then w.(cluster := Some(c.(finalizer := true)), pc := Reconciling(c.uid))
      else if call.TakesEffect() then w.(cluster := Some(c.(finalizer := true)))
      else w
    case ReconcileSecret(generated, call) =>
      var wanted := TakenOver(w.secret, w.pc.uid, generated);
      var next := if wanted.Some? && call.TakesEffect() && !policy.adminSecretRef then wanted else w.secret;
      w.(secret := next, pc := Idle)
    case Release(call) =>
      var r := Released(w.secret, w.cluster.value.uid, policy, call);
      w.(secret := r.0, pc := if r.1 then Releasing(w.cluster.value.uid) else Idle)
    case RemoveFinalizer(volumes, call) =>
      w.(cluster := if volumes && call.TakesEffect() then Unfinalized(w.cluster.value) else w.cluster, pc := Idle)
    case Crash => w.(pc := Idle)
    case OwnerDies(uid) => w.(others := w.others - {uid})
    case Prune => w.(secret := Some(w.secret.value.(owners := Dropping(w.secret.value.owners, DeadIn(w)))))
    case Collect => w.(secret := None)
  }

  /** Every cluster reference is to the living cluster, which its finalizer holds. */
  predicate Held(w: World) {
    w.secret.Some? ==> forall ref :: ref in w.secret.value.owners && IsCluster(ref) ==>
      ref.controller && w.cluster.Some? && w.cluster.value.finalizer && ref.uid == w.cluster.value.uid
  }

  predicate Positioned(w: World) {
    match w.pc
    case Idle => true
    case Reconciling(uid) => w.cluster.Some? && w.cluster.value.uid == uid && w.cluster.value.finalizer
    case Releasing(uid) =>
      && w.cluster.Some? && w.cluster.value.uid == uid && w.cluster.value.finalizer && w.cluster.value.deleting
      && (w.secret.Some? ==> forall ref :: ref in w.secret.value.owners ==> !IsCluster(ref))
  }

  predicate Inv(w: World) {
    && Held(w) && Positioned(w)
    && (w.cluster.Some? ==> w.cluster.value.uid in w.used && (w.cluster.value.deleting ==> w.cluster.value.finalizer))
  }

  lemma ReleaseDrops(w: World, s: Step)
    requires Inv(w) && s.Release? && Enabled(w, s)
    ensures Inv(Next(w, s, RETAIN))
  {
    var uid := w.cluster.value.uid;
    if w.secret.Some? {
      forall ref ensures ref in Dropping(w.secret.value.owners, OfUid(uid)) <==> ref in w.secret.value.owners && ref.uid != uid {
        DroppingMeans(w.secret.value.owners, OfUid(uid), ref);
      }
      DroppingMeans(w.secret.value.owners, OfUid(uid), OwnerRef(uid, TechnitiumCluster, true));
    }
  }

  lemma ReconcileAdopts(w: World, s: Step)
    requires Inv(w) && s.ReconcileSecret? && Enabled(w, s)
    ensures Inv(Next(w, s, RETAIN))
    ensures w.secret.Some? ==> Keeps(w, Next(w, s, RETAIN))
  {
    var uid := w.pc.uid;
    var current := if w.secret.Some? then w.secret.value else Secret([], None);
    forall ref ensures ref in Dropping(current.owners, StaleFor(uid)) <==> ref in current.owners && !Stale(ref, uid) {
      DroppingMeans(current.owners, StaleFor(uid), ref);
    }
  }

  lemma PruneKeeps(w: World, s: Step)
    requires Inv(w) && s.Prune? && Enabled(w, s)
    ensures Inv(Next(w, s, RETAIN)) && Keeps(w, Next(w, s, RETAIN))
  {
    forall ref ensures ref in Next(w, s, RETAIN).secret.value.owners ==> ref in w.secret.value.owners {
      DroppingMeans(w.secret.value.owners, DeadIn(w), ref);
    }
  }

  /** The Secret and a password once set stay, and nobody else becomes an owner. */
  predicate Keeps(w: World, w': World)
    requires w.secret.Some?
  {
    && w'.secret.Some?
    && (w.secret.value.password.Some? ==> w'.secret.value.password == w.secret.value.password)
    && (forall ref :: ref in w'.secret.value.owners && !IsCluster(ref) ==> ref in w.secret.value.owners)
  }

  lemma StepKeepsInv(w: World, s: Step)
    requires Inv(w) && Enabled(w, s)
    ensures Inv(Next(w, s, RETAIN))
  {
    match s
    case Release(_) => ReleaseDrops(w, s);
    case ReconcileSecret(_, _) => ReconcileAdopts(w, s);
    case Prune => PruneKeeps(w, s);
    case _ =>
  }

  /** When the collector can take the Secret: exactly when its owners are all foreign and all gone. */
  lemma CollectableExactly(w: World)
    requires Inv(w)
    ensures Collectable(w) <==>
      && w.secret.Some? && w.secret.value.owners != []
      && forall ref :: ref in w.secret.value.owners ==> !IsCluster(ref) && ref.uid !in w.others
  {
  }

  predicate OperatorOnly(w: World) {
    w.secret.Some? ==> forall ref :: ref in w.secret.value.owners ==> IsCluster(ref)
  }

  lemma StepKeepsSecret(w: World, s: Step)
    requires Inv(w) && OperatorOnly(w) && Enabled(w, s) && w.secret.Some?
    ensures Keeps(w, Next(w, s, RETAIN)) && OperatorOnly(Next(w, s, RETAIN))
  {
    var owners := w.secret.value.owners;
    assert owners == [] || owners[0] in owners;
    match s
    case Collect => assert false;
    case ReconcileSecret(_, _) => ReconcileAdopts(w, s);
    case Prune => PruneKeeps(w, s);
    case Release(_) =>
      forall ref ensures ref in Next(w, s, RETAIN).secret.value.owners ==> ref in w.secret.value.owners {
        DroppingMeans(w.secret.value.owners, OfUid(w.cluster.value.uid), ref);
      }
    case _ =>
  }

  /** With no call failing, a pass leaves the cluster finalized and in control of a Secret with a password. */
  lemma PassTakesOver(w: World, generated: string)
    requires Inv(w) && OperatorOnly(w) && Enabled(w, AddFinalizer(Succeeds))
    ensures var w1 := Next(w, AddFinalizer(Succeeds), RETAIN);
      var s := ReconcileSecret(generated, Succeeds);
      && Enabled(w1, s)
      && var w2 := Next(w1, s, RETAIN);
         && w2.cluster == Some(w.cluster.value.(finalizer := true)) && w2.secret.Some?
         && OwnerRef(w.cluster.value.uid, TechnitiumCluster, true) in w2.secret.value.owners
         && w2.secret.value.password ==
              (if w.secret.Some? && w.secret.value.password.Some? then w.secret.value.password else Some(generated))
  {
    TakeoverMeans(if w.secret.Some? then w.secret.value else Secret([], None), w.cluster.value.uid, generated);
  }

  /** With no call failing, a finalizer attempt lets the cluster go and leaves the Secret behind without owners. */
  lemma FinalizerLetsGo(w: World)
    requires Inv(w) && OperatorOnly(w) && Enabled(w, Release(Succeeds))
    ensures var w1 := Next(w, Release(Succeeds), RETAIN);
      var s := RemoveFinalizer(true, Succeeds);
      && Enabled(w1, s)
      && var w2 := Next(w1, s, RETAIN);
         && w2.cluster.None?
         && (w.secret.Some? ==> w2.secret == Some(w.secret.value.(owners := [])))
         && (w.secret.None? ==> w2.secret.None?)
  {
    ReleaseMeans(w.secret, w.cluster.value.uid, RETAIN, Succeeds);
    var w1 := Next(w, Release(Succeeds), RETAIN);
    if w.secret.Some? {
      var owners := w1.secret.value.owners;
      assert owners == [] || owners[0] in owners;
    }
  }

  /** A run under one policy. */
  ghost predicate Run(worlds: seq<World>, steps: seq<Step>, policy: Policy) {
    && |worlds| == |steps| + 1
    && forall k {:trigger steps[k]} :: 0 <= k < |steps| ==> Enabled(worlds[k], steps[k]) && worlds[k + 1] == Next(worlds[k], steps[k], policy)
  }

  lemma {:induction false} RunKeepsInv(worlds: seq<World>, steps: seq<Step>, k: nat)
    requires Run(worlds, steps, RETAIN) && Inv(worlds[0]) && k <= |steps|
    ensures Inv(worlds[k])
  {
    if k > 0 {
      RunKeepsInv(worlds, steps, k - 1);
      assert Enabled(worlds[k - 1], steps[k - 1]);
      StepKeepsInv(worlds[k - 1], steps[k - 1]);
    }
  }

  /**
   Under Retain, over any run of passes, deletes, finalizer attempts that fail
   at any call, crashes, recreations and garbage collection: once the Secret is
   there with a password, it stays there with that password.
   */
  lemma {:induction false} CredentialsRetained(worlds: seq<World>, steps: seq<Step>, i: nat, j: nat, password: string)
    requires Run(worlds, steps, RETAIN) && Inv(worlds[0]) && i <= j <= |steps|
    requires worlds[i].secret.Some? && OperatorOnly(worlds[i]) && worlds[i].secret.value.password == Some(password)
    ensures worlds[j].secret.Some? && OperatorOnly(worlds[j]) && worlds[j].secret.value.password == Some(password)
    decreases j
  {
    if i < j {
      CredentialsRetained(worlds, steps, i, j - 1, password);
      RunKeepsInv(worlds, steps, j - 1);
      assert Enabled(worlds[j - 1], steps[j - 1]);
      StepKeepsSecret(worlds[j - 1], steps[j - 1]);
    }
  }

  /** A namespace with neither cluster nor Secret, which is where runs begin. */
  predicate Fresh(w: World) {
    w.cluster.None? && w.secret.None? && w.pc.Idle?
  }

  lemma {:induction false} OnlyOperatorOwns(worlds: seq<World>, steps: seq<Step>, k: nat)
    requires Run(worlds, steps, RETAIN) && Fresh(worlds[0]) && k <= |steps|
    ensures Inv(worlds[k]) && OperatorOnly(worlds[k]) && !Collectable(worlds[k])
    ensures worlds[k].secret.Some? ==> worlds[k].secret.value.password.Some?
  {
    RunKeepsInv(worlds, steps, k);
    if k > 0 {
      OnlyOperatorOwns(worlds, steps, k - 1);
      var w, s := worlds[k - 1], steps[k - 1];
      assert Enabled(w, s);
      if w.secret.Some? {
        StepKeepsSecret(w, s);
      } else if s.ReconcileSecret? {
        assert Dropping([], StaleFor(w.pc.uid)) == [];
      }
    }
    if worlds[k].secret.Some? && worlds[k].secret.value.owners != [] {
      assert worlds[k].secret.value.owners[0] in worlds[k].secret.value.owners;
    }
  }

  /** Under Delete the reference stays, so once the finalizer is gone the Secret can be collected. */
  lemma DeleteCollects(w: World, release: Call, update: Call)
    requires Inv(w) && OperatorOnly(w) && w.secret.Some? && w.secret.value.owners != []
    requires Enabled(w, Release(release)) && update.TakesEffect()
    ensures var policy := Policy(false, true);
      var released := Next(w, Release(release), policy);
      && Enabled(released, RemoveFinalizer(true, update))
      && Collectable(Next(released, RemoveFinalizer(true, update), policy))
  {
  }
}
