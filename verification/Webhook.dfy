/**
 Exchanges with ExternalDNS: apply a request, then list. The listing is what was
 asked for together with everything the request left alone, after any number of
 requests, which is what lets ExternalDNS reach a fixed point.
 */
module Webhook {
  import opened Calls
  import opened EndpointList
  import opened PlanLaws
  import opened Plans
  import opened Sorting
  import opened Translate

  datatype Answer = NoContent | BadRequest(why: Built) | ServerError

  /** applyChanges: a request that cannot be planned touches nothing; otherwise the plan is run. */
  method ApplyChanges(t: Translator, c: Changes, store: RecordStore, call: nat -> Call) returns (answer: Answer)
    modifies store
    ensures var b := BuilderOf(t);
      if !AllBuildable(b, c.create) || !AllBuildable(b, c.updateNew) then answer.BadRequest? && store.records == old(store.records)
      else
        var ops := OpsOf(PlanOf(b, c));
        if answer.NoContent? then store.records == Applied(t, c, old(store.records))
        else answer.ServerError? && exists done: nat {:trigger ops[..done]} ::
          done <= |ops| && store.records == ExecAll(old(store.records), ops[..done]) && Stopped(old(store.records), ops, call, done)
  {
    var r := BuildPlan(BuilderOf(t), c);
    if r.Rejected? {
      return BadRequest(r.why);
    }
    var ok, done := store.Apply(r.plan, call);
    assert OpsOf(r.plan)[..|OpsOf(r.plan)|] == OpsOf(r.plan);
    answer := if ok then NoContent else ServerError;
  }

  /** The store after a request that is rejected or goes through. */
  function Applied(t: Translator, c: Changes, store: Store): Store {
    var b := BuilderOf(t);
    if AllBuildable(b, c.create) && AllBuildable(b, c.updateNew) then Final(b, c, store) else store
  }

  /** What listing by the owner label returns: this webhook's objects, once each, in any order. */
  ghost predicate Selected(t: Translator, store: Store, records: seq<RecordObject>) {
    && Distinct(records)
    && forall r :: r in records <==> r.owner == t.owner && exists n :: n in store && store[n] == r
  }

  /** The store holds, as this webhook's objects, exactly the Records of these endpoints. */
  ghost predicate Owns(t: Translator, eps: seq<Endpoint>, store: Store) {
    && Holds(BuilderOf(t), store, eps)
    && (forall n :: n in store && store[n].owner == t.owner ==> Named(BuilderOf(t), eps, n))
  }

  /** What the endpoints come to: those the request leaves alone and those it asks for. */
  function Afterwards(kept: seq<Endpoint>, c: Changes): seq<Endpoint> {
    kept + c.create + c.updateNew
  }

  /**
   A request about some of the endpoints that are there; kept are the others. Keys
   are distinct, and the endpoints that come of it are canonical.
   */
  ghost predicate RequestOver(t: Translator, eps: seq<Endpoint>, kept: seq<Endpoint>, c: Changes) {
    var b := BuilderOf(t);
    && Injective(t.digest) && Clean(t, Endpoints(c) + kept)
    && Coherent(b, c) && KeysDistinct(b, kept) && KeysApart(b, kept, Endpoints(c))
    && Distinct(Afterwards(kept, c))
    && (forall ep :: ep in Afterwards(kept, c) ==> Canonical(t, ep))
    && (forall ep :: ep in eps <==> ep in kept || ep in c.updateOld || ep in c.delete)
  }

  lemma CanonicalBuilds(t: Translator, eps: seq<Endpoint>)
    requires forall ep :: ep in eps ==> Canonical(t, ep)
    ensures AllBuildable(BuilderOf(t), eps)
  {
    forall k, i | 0 <= k < |eps| && 0 <= i < |eps[k].targets| ensures BuilderOf(t).desired(eps[k], eps[k].targets[i]).Ok? {
      assert eps[k] in eps && eps[k].targets[i] in eps[k].targets;
      DesiredShows(t, eps[k], eps[k].targets[i]);
    }
  }

  /** Over a store that holds what it is about, such a request is one the plan laws speak of. */
  lemma RequestFits(t: Translator, eps: seq<Endpoint>, kept: seq<Endpoint>, c: Changes, store: Store)
    requires RequestOver(t, eps, kept, c) && Owns(t, eps, store)
    ensures Request(BuilderOf(t), c, store)
  {
    assert forall ep :: ep in c.create || ep in c.updateNew ==> ep in Afterwards(kept, c);
    CanonicalBuilds(t, c.create);
    CanonicalBuilds(t, c.updateNew);
    assert forall ep :: ep in Endpoints(c) ==> ep in Endpoints(c) + kept;
    TranslatorIsFaithful(t, Endpoints(c));
  }

  lemma KeysAfterwards(t: Translator, eps: seq<Endpoint>, kept: seq<Endpoint>, c: Changes)
    requires RequestOver(t, eps, kept, c)
    ensures DistinctKeys(Afterwards(kept, c))
  {
    var b, all := BuilderOf(t), Afterwards(kept, c);
    forall i, j | 0 <= i < j < |all| ensures Own(all[i]) != Own(all[j]) {
      assert all[i] in all && all[j] in all;
      assert b.key(all[i]) == Own(all[i]) && b.key(all[j]) == Own(all[j]);
      assert forall ep :: ep in all <==> ep in kept || ep in c.create || ep in c.updateNew;
      assert forall ep :: ep in c.create || ep in c.updateNew ==> ep in Endpoints(c);
    }
  }

  /** No object name of a kept endpoint is one the request is about. */
  lemma KeptNames(t: Translator, eps: seq<Endpoint>, kept: seq<Endpoint>, c: Changes, ep: Endpoint, tg: string)
    requires RequestOver(t, eps, kept, c) && ep in kept && tg in ep.targets
    ensures var b := BuilderOf(t); !Named(b, c.create + c.updateNew, b.name(ep, tg)) && !Named(b, c.updateOld + c.delete, b.name(ep, tg))
  {
    var b := BuilderOf(t);
    assert ep in Endpoints(c) + kept;
    forall f, y | f in Endpoints(c) && y in f.targets ensures b.name(f, y) != b.name(ep, tg) {
      if b.name(f, y) == b.name(ep, tg) {
        NameInjective(t, t, ep, tg, f, y);
        assert false;
      }
    }
    assert forall f :: f in c.create + c.updateNew || f in c.updateOld + c.delete ==> f in Endpoints(c);
  }

  /** After the plan this webhook's objects are exactly the Records of what the endpoints come to. */
  lemma OwnedAfterwards(t: Translator, eps: seq<Endpoint>, kept: seq<Endpoint>, c: Changes, store: Store)
    requires RequestOver(t, eps, kept, c) && Owns(t, eps, store)
    ensures Request(BuilderOf(t), c, store)
    ensures Owns(t, Afterwards(kept, c), Applied(t, c, store))
  {
    var b, all := BuilderOf(t), Afterwards(kept, c);
    RequestFits(t, eps, kept, c, store);
    PlanMeaning(b, c, store);
    var final := Final(b, c, store);
    forall ep, tg | ep in all && tg in ep.targets
      ensures b.desired(ep, tg).Ok? && b.name(ep, tg) in final && final[b.name(ep, tg)] == Stored(b.desired(ep, tg).record)
    {
      if ep in kept {
        KeptNames(t, eps, kept, c, ep, tg);
        assert SameAt(store, final, b.name(ep, tg));
      } else {
        assert ep in c.create + c.updateNew;
      }
    }
    forall n | n in final && final[n].owner == t.owner ensures Named(b, all, n) {
      OwnedIsNamed(t, eps, kept, c, store, n);
    }
  }

  lemma OwnedIsNamed(t: Translator, eps: seq<Endpoint>, kept: seq<Endpoint>, c: Changes, store: Store, n: string)
    requires RequestOver(t, eps, kept, c) && Owns(t, eps, store) && Request(BuilderOf(t), c, store)
    requires n in Final(BuilderOf(t), c, store) && Final(BuilderOf(t), c, store)[n].owner == t.owner
    ensures Named(BuilderOf(t), Afterwards(kept, c), n)
  {
    var b, wanted, past := BuilderOf(t), c.create + c.updateNew, c.updateOld + c.delete;
    PlanMeaning(b, c, store);
    if Named(b, wanted, n) {
      var ep, tg :| ep in wanted && tg in ep.targets && n == b.name(ep, tg);
      assert ep in Afterwards(kept, c);
    } else {
      assert !Named(b, past, n);
      assert SameAt(store, Final(b, c, store), n);
      var ep, tg :| ep in eps && tg in ep.targets && n == b.name(ep, tg);
      assert ep in kept || ep in past;
      assert ep in Afterwards(kept, c);
    }
  }

  /** Listing a store this webhook has in hand returns its endpoints, sorted by key. */
  lemma OwnedIsListed(t: Translator, eps: seq<Endpoint>, store: Store, records: seq<RecordObject>)
    requires DistinctKeys(eps) && (forall ep :: ep in eps ==> Canonical(t, ep))
    requires Owns(t, eps, store) && Selected(t, store, records)
    ensures EndpointsOf(records) == Sort(eps, KeyLess)
  {
    var b := BuilderOf(t);
    forall ep, tg | ep in eps && tg in ep.targets
      ensures b.name(ep, tg) in store && store[b.name(ep, tg)] == StoredFor(t, ep, tg) && StoredFor(t, ep, tg).owner == t.owner
    {
      assert b.desired(ep, tg) == Desired(t, ep, tg);
    }
    forall r ensures r in records <==> exists ep, tg :: ep in eps && tg in ep.targets && r == StoredFor(t, ep, tg) {
      if r in records {
        var n :| n in store && store[n] == r;
        var ep, tg :| ep in eps && tg in ep.targets && n == b.name(ep, tg);
      }
    }
    EndpointRoundTrip(t, eps, records);
  }

  /** Applying a request and listing afterwards returns what it left alone and what it asked for, sorted by key. */
  lemma AppliedIsListed(
    t: Translator, eps: seq<Endpoint>, kept: seq<Endpoint>, c: Changes, store: Store, records: seq<RecordObject>)
    requires RequestOver(t, eps, kept, c) && Owns(t, eps, store)
    requires Selected(t, Applied(t, c, store), records)
    ensures EndpointsOf(records) == Sort(Afterwards(kept, c), KeyLess)
  {
    OwnedAfterwards(t, eps, kept, c, store);
    KeysAfterwards(t, eps, kept, c);
    OwnedIsListed(t, Afterwards(kept, c), Applied(t, c, store), records);
  }

  // ---------- any number of requests ----------

  datatype Round = Round(kept: seq<Endpoint>, c: Changes)

  /** The endpoints there are after some rounds. */
  function After(eps: seq<Endpoint>, rounds: seq<Round>): seq<Endpoint> {
    if rounds == [] then eps else Afterwards(rounds[|rounds| - 1].kept, rounds[|rounds| - 1].c)
  }

  /** Every round is a request over what the rounds before it came to. */
  ghost predicate Session(t: Translator, eps: seq<Endpoint>, rounds: seq<Round>) {
    forall k :: 0 <= k < |rounds| ==> InTurn(t, eps, rounds, k)
  }

  ghost predicate InTurn(t: Translator, eps: seq<Endpoint>, rounds: seq<Round>, k: nat)
    requires k < |rounds|
  {
    RequestOver(t, After(eps, rounds[..k]), rounds[k].kept, rounds[k].c)
  }

  /** The store after some rounds. */
  function Played(t: Translator, store: Store, rounds: seq<Round>): Store {
    if rounds == [] then store
    else Applied(t, rounds[|rounds| - 1].c, Played(t, store, rounds[..|rounds| - 1]))
  }

  /** In every session the store stays in hand, round after round. */
  lemma {:induction false} SessionOwns(t: Translator, eps: seq<Endpoint>, store: Store, rounds: seq<Round>)
    requires Owns(t, eps, store) && Session(t, eps, rounds)
    ensures Owns(t, After(eps, rounds), Played(t, store, rounds))
    decreases |rounds|
  {
    if rounds != [] {
      var m := |rounds| - 1;
      var front := rounds[..m];
      forall k | 0 <= k < m ensures InTurn(t, eps, front, k) {
        assert InTurn(t, eps, rounds, k) && front[..k] == rounds[..k];
      }
      SessionOwns(t, eps, store, front);
      assert InTurn(t, eps, rounds, m);
      OwnedAfterwards(t, After(eps, front), rounds[m].kept, rounds[m].c, Played(t, store, front));
    }
  }

  /** After any session, the listing is what the last round came to. */
  lemma SessionIsListed(t: Translator, eps: seq<Endpoint>, store: Store, rounds: seq<Round>, records: seq<RecordObject>)
    requires Owns(t, eps, store) && Session(t, eps, rounds) && rounds != []
    requires Selected(t, Played(t, store, rounds), records)
    ensures EndpointsOf(records) == Sort(After(eps, rounds), KeyLess)
  {
    var m := |rounds| - 1;
    SessionOwns(t, eps, store, rounds);
    assert InTurn(t, eps, rounds, m);
    KeysAfterwards(t, After(eps, rounds[..m]), rounds[m].kept, rounds[m].c);
    OwnedIsListed(t, After(eps, rounds), Played(t, store, rounds), records);
  }

  /** After any session every object this webhook has is on its server, in the longest zone that contains its name. */
  lemma SessionIsPlaced(t: Translator, eps: seq<Endpoint>, store: Store, rounds: seq<Round>, n: string)
    requires Owns(t, eps, store) && Session(t, eps, rounds)
    requires n in Played(t, store, rounds) && Played(t, store, rounds)[n].owner == t.owner
    ensures Placed(t, Played(t, store, rounds)[n])
  {
    SessionOwns(t, eps, store, rounds);
    var b, now := BuilderOf(t), After(eps, rounds);
    var ep, tg :| ep in now && tg in ep.targets && n == b.name(ep, tg);
    assert b.desired(ep, tg) == Desired(t, ep, tg);
    BuiltMeans(t, ep, tg);
  }
}
