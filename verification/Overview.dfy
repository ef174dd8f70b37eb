/** The main results put together for a chain that starts without leases and accounts: every
    premise of the theorems about runs is met there, and the invariants that later theorems
    start from hold after every run. */
module Overview {
  import opened Types
  import opened Ledger
  import opened Invariants
  import opened Reachable
  import opened Lifetime
  import opened Billing
  import opened Guarantees
  import opened MinimumDuration
  import opened Expiry
  import opened Structure
  import opened Genesis
  import opened Provenance
  import UuidV7

  /** An empty chain meets what the theorems about runs ask of the store they start from. */
  lemma EmptyMeetsPremises(params: Params, bank: Bank, now: Time)
    requires ValidParams(params)
    ensures var st := EmptyStore(params, bank);
            && Good(st) && ReservedExactly(st) && NoLegacy(st.leases) && Named(st, {}, 0, []) && Bounded(st)
            && AllOk(st.leases) && Orderly(st, now) && forall t, d :: Backed(st, [], t, d)
  {
    EmptyIsGood(params, bank);
    EmptyIsBounded(params, bank);
    hide Good, Named, Bounded, ValidParams, ReservedExactly, NoLegacy, Backed;
    forall t, d ensures Backed(EmptyStore(params, bank), [], t, d) {
      EmptyIsBacked(params, bank, t, d);
    }
  }

  lemma ParamsLeaveLeases(env: Env, st: Store, ev: Event)
    requires ev.SetParams?
    ensures Deliver(env, st, ev).st.leases == st.leases
  {
    hide ValidParams;
  }

  /** Identifier order stays creation order, parameter changes included. */
  lemma {:induction false} RunIsOrderly(st: Store, now: Time, steps: seq<Step>)
    requires Orderly(st, now) && FreshRun(st, steps)
    requires Clocked(now, steps) && CoarseRun(st, steps)
    ensures Orderly(Run(st, steps).st, LastTime(now, steps))
    decreases |steps|
  {
    hide Good, UuidV7.Generate, Deliver, Timely, Handle, Stamped, TimeOrdered, Coarse, AllPersist;
    if steps != [] {
      var n := |steps| - 1;
      RunIsOrderly(st, now, steps[..n]);
      RunKeepsGood(st, steps);
      RunPersists(st, now, steps);
      var before := Run(st, steps[..n]).st;
      TimePasses(before.leases, LastTime(now, steps[..n]), steps[n].env.now);
      if steps[n].event.SetParams? {
        ParamsLeaveLeases(steps[n].env, before, steps[n].event);
      } else {
        DeliverGrows(steps[n].env, before, steps[n].event);
      }
    }
  }

  lemma ParamsStayValid(env: Env, st: Store, ev: Event)
    requires Good(st) && ValidParams(st.params)
    requires Creates(ev) && Handle(env, st, ev).Ok? ==> NextUuid(env, st) !in st.leases
    ensures ValidParams(Deliver(env, st, ev).st.params)
  {
    if !ev.SetParams? {
      hide ValidParams, Deliver, Good, Handle, NextUuid;
      DeliverKeepsParams(env, st, ev);
    } else {
      hide Good, NextUuid;
      assert Handle(env, st, ev) == UpdateParams(env, st, ev.sender, ev.params);
      hide ValidParams;
    }
  }

  lemma {:induction false} RunKeepsParamsValid(st: Store, steps: seq<Step>)
    requires Good(st) && FreshRun(st, steps) && ValidParams(st.params)
    ensures ValidParams(Run(st, steps).st.params)
    decreases |steps|
  {
    hide Good, UuidV7.Generate, Deliver, Handle, ValidParams;
    if steps != [] {
      var n := |steps| - 1;
      RunKeepsParamsValid(st, steps[..n]);
      RunKeepsGood(st, steps[..n]);
      ParamsStayValid(steps[n].env, Run(st, steps[..n]).st, steps[n].event);
    }
  }

  /** After every run from an empty chain the store has all invariants, so its export passes
      validation unless a stored domain has been reserved since, and importing the export
      rebuilds the store.  Identifiers are ordered as creation times are when block times that
      differ, differ in milliseconds. */
  lemma EveryRunFromEmpty(params: Params, bank: Bank, now: Time, steps: seq<Step>, g: GenesisState, env: Env, blank: Store)
    requires ValidParams(params) && UuidV7.RateLimited(Births(EmptyStore(params, bank), [], steps)) && Clocked(now, steps)
    requires forall i :: 0 <= i < |steps| ==> CatalogOk(steps[i].env.catalog)
    ensures var st := Run(EmptyStore(params, bank), steps).st;
            && FreshRun(EmptyStore(params, bank), steps)
            && Good(st) && ReservedExactly(st) && NoLegacy(st.leases)
            && Timely(st.leases, LastTime(now, steps)) && AllOk(st.leases) && ValidParams(st.params)
            && (CoarseRun(EmptyStore(params, bank), steps) ==> Orderly(st, LastTime(now, steps)))
            && (IsExport(st, g) ==> (Valid(g) <==> forall u :: u in st.leases ==> NotReserved(st.params, st.leases[u])))
            && (IsExport(st, g) && LastTime(now, steps) <= env.now && Blank(blank) && blank.bank == st.bank
                && (forall u :: u in st.leases ==> Known(env.catalog, st.leases[u]))
                ==> InitGenesis(env, blank, g) == Ok(st))
  {
    hide Named, UuidV7.RateLimited, Births, Run, FreshRun, Clocked, CoarseRun, CatalogOk, ValidParams, AllOk, IsExport, Valid, NotReserved, Known, Blank, InitGenesis, Bounded, Stamped, TimeOrdered, Timely, Indexed, ReservedExactly, NoLegacy, Orderly;
    var st0 := EmptyStore(params, bank);
    EmptyMeetsPremises(params, bank, now);
    OrderlyIsTimely(st0, now);
    RunIsFresh(st0, {}, 0, [], steps);
    RunKeepsGood(st0, steps);
    RunKeepsReserved(st0, steps);
    RunPersists(st0, now, steps);
    RunIsOk(st0, steps);
    if CoarseRun(st0, steps) {
      RunIsOrderly(st0, now, steps);
    }
    assert st0.params == params;
    RunKeepsParamsValid(st0, steps);
    var st := Run(st0, steps).st;
    if IsExport(st, g) {
      ExportIsValidIff(st, g, LastTime(now, steps));
      if LastTime(now, steps) <= env.now && Blank(blank) && blank.bank == st.bank && forall u :: u in st.leases ==> Known(env.catalog, st.leases[u]) {
        TimePasses(st.leases, LastTime(now, steps), env.now);
        RoundTrip(env, st, g, blank);
      }
    }
  }

  lemma OrderlyIsTimely(st: Store, now: Time)
    requires Orderly(st, now)
    ensures Timely(st.leases, now)
  {
    hide Good, Timely, Stamped, TimeOrdered;
  }

  /** The leases present at the start carry milliseconds before `ms`, all creations happen from
      `ms` on, and no millisecond sees more than 4096 of them. */
  ghost predicate PacedFrom(st: Store, ms: int, steps: seq<Step>) {
    var births := Births(st, [], steps);
    && (forall u :: u in st.leases ==> exists m: nat :: m < ms && Carries(u, m))
    && (forall i :: 0 <= i < |births| ==> ms <= births[i]) && UuidV7.RateLimited(births)
  }

  lemma PacedIsFresh(st: Store, ms: int, steps: seq<Step>)
    requires Good(st) && PacedFrom(st, ms, steps)
    ensures FreshRun(st, steps)
  {
    hide Good, Named, Births, Predates, Carries, FreshRun;
    AnyStartIsNamed(st);
    EarlierPredates(st.leases.Keys, ms, Births(st, [], steps));
    RunIsFresh(st, st.leases.Keys, st.sequence, [], steps);
  }

  /** After every run from a genesis that validation accepts, legacy leases included, the indexes
      and counters are exact and all records well formed; the reservations are exact if no live
      lease of the genesis is a legacy one or no update changed the minimum duration; with
      timestamps in order they stay so, the lifecycle is respected, every bill is fair, and every
      state a lease came into has a cause in the run. */
  lemma EveryRunFromGenesis(env: Env, g: GenesisState, blank: Store, ms: int, steps: seq<Step>)
    requires Valid(g) && Blank(blank) && InitGenesis(env, blank, g).Ok?
    requires var st0 := InitGenesis(env, blank, g).value; FreshRun(st0, steps) || PacedFrom(st0, ms, steps)
    requires forall i :: 0 <= i < |steps| ==> CatalogOk(steps[i].env.catalog)
    ensures var st0 := InitGenesis(env, blank, g).value;
            var st := Run(st0, steps).st;
            && Good(st) && AllOk(st.leases) && ValidParams(st.params)
            && (NoLegacy(st0.leases) || SameMinimum(steps, st0.params.minLeaseDuration) ==> ReservedExactly(st))
            && (forall now :: Timely(st0.leases, now) && Clocked(now, steps) ==>
                  && Timely(st.leases, LastTime(now, steps)) && AllPersist(st0.leases, st.leases)
                  && (forall u, d :: FairBill(st0, Run(st0, steps), u, d))
                  && forall u :: u in st.leases && (u in st0.leases ==> st0.leases[u].state != st.leases[u].state) ==> HasCause(st0, steps, u, st.leases[u]))
  {
    hide HasCause, Valid, Blank, InitGenesis, Run, FreshRun, PacedFrom, CatalogOk, Good, AllOk, ValidParams, NoLegacy, SameMinimum, ReservedExactly, Timely, Clocked, AllPersist, LeaseMap, FairBill;
    ValidGenesisIsGood(env, g, blank);
    var st0 := InitGenesis(env, blank, g).value;
    if PacedFrom(st0, ms, steps) {
      PacedIsFresh(st0, ms, steps);
    }
    RunKeepsGood(st0, steps);
    RunIsOk(st0, steps);
    RunKeepsParamsValid(st0, steps);
    if NoLegacy(st0.leases) || SameMinimum(steps, st0.params.minLeaseDuration) {
      RunKeepsReserved(st0, steps);
    }
    forall now | Timely(st0.leases, now) && Clocked(now, steps)
      ensures Timely(Run(st0, steps).st.leases, LastTime(now, steps)) && AllPersist(st0.leases, Run(st0, steps).st.leases)
      ensures forall u, d :: FairBill(st0, Run(st0, steps), u, d)
      ensures var st := Run(st0, steps).st;
              forall u :: u in st.leases && (u in st0.leases ==> st0.leases[u].state != st.leases[u].state) ==> HasCause(st0, steps, u, st.leases[u])
    {
      var st := Run(st0, steps).st;
      forall u | u in st.leases && (u in st0.leases ==> st0.leases[u].state != st.leases[u].state) ensures HasCause(st0, steps, u, st.leases[u]) {
        StateHasCause(st0, now, steps, u);
      }
      RunPersists(st0, now, steps);
      forall u, d ensures FairBill(st0, Run(st0, steps), u, d) {
        WholeLifeBound(st0, now, steps, u, d);
      }
    }
  }

  /** Whatever valid parameters are set in between, no lease expires within a minute. */
  lemma ExpiryTakesAMinute(st: Store, now: Time, steps: seq<Step>, u: Uuid)
    requires Sound(st, now, steps) && ValidParams(st.params) && u in Run(st, steps).st.leases && Run(st, steps).st.leases[u].state == Expired
    requires u in st.leases ==> st.leases[u].state != Expired
    ensures var l := Run(st, steps).st.leases[u]; l.expiredAt.Some? && l.expiredAt.value - l.createdAt > 60_000_000_000
  {
    hide Run, Good, AllOk, Timely, FreshRun, Clocked, CatalogOk;
    forall i | 0 <= i < |steps| ensures Run(st, steps[..i]).st.params.pendingTimeout >= 60 {
      SoundPrefix(st, now, steps, i);
      RunKeepsParamsValid(st, steps[..i]);
    }
    NoEarlyExpiry(st, now, steps, u, 60);
  }
}
