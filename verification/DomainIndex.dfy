/** The reverse index from custom domains to lease items, and the reconciliation that a
    lease write performs on it.

    `ReleaseInOrder` and `InstallInOrder` process the service names one at a time in a given
    order, as the two loops over Go maps do.  `Reconcile` says what comes out without
    mentioning an order.  `OrderIsIrrelevant` connects the two for every order. */
module DomainIndex {
  import opened Types

  type Index = map<string, CustomDomainTarget>

  predicate Points(idx: Index, d: string, u: Uuid, s: string) {
    d in idx && idx[d] == CustomDomainTarget(u, s)
  }

  /** Service name to domain, for the items that carry one; a later item wins. */
  function ByService(items: seq<LeaseItem>): map<string, string> {
    if items == [] then map[]
    else
      var m := ByService(items[..|items| - 1]);
      var it := items[|items| - 1];
      if it.customDomain != "" then m[it.serviceName := it.customDomain] else m
  }

  /** The domains a lease holds: those of its items while it is pending or active. */
  function Claims(l: Lease): map<string, string> {
    if Live(l) then ByService(l.items) else map[]
  }

  /** Two leases whose items name the same services with the same domains. */
  predicate SameDomains(a: seq<LeaseItem>, b: seq<LeaseItem>) {
    |a| == |b| &&
    forall i :: 0 <= i < |a| ==> a[i].serviceName == b[i].serviceName && a[i].customDomain == b[i].customDomain
  }

  lemma {:induction false} SameDomainsSameMap(a: seq<LeaseItem>, b: seq<LeaseItem>)
    requires SameDomains(a, b)
    ensures ByService(a) == ByService(b)
    decreases |a|
  {
    if a != [] {
      SameDomainsSameMap(a[..|a| - 1], b[..|b| - 1]);
    }
  }

  /** The two loops, one service name at a time. */
  function ReleaseOne(idx: Index, u: Uuid, s: string, d: string, kept: map<string, string>): Index {
    if s in kept && kept[s] == d then idx
    else if d in idx && idx[d] == CustomDomainTarget(u, s) then idx - {d}
    else idx
  }

  function ReleaseInOrder(idx: Index, u: Uuid, prev: map<string, string>, kept: map<string, string>, order: seq<string>): Index
    requires forall s :: s in order ==> s in prev
  {
    if order == [] then idx
    else
      var s := order[|order| - 1];
      ReleaseOne(ReleaseInOrder(idx, u, prev, kept, order[..|order| - 1]), u, s, prev[s], kept)
  }

  function InstallOne(idx: Index, u: Uuid, s: string, d: string): Result<Index> {
    if d !in idx then Ok(idx[d := CustomDomainTarget(u, s)])
    else if idx[d] == CustomDomainTarget(u, s) then Ok(idx)
    else Err(CustomDomainAlreadyClaimed)
  }

  function InstallInOrder(idx: Index, u: Uuid, new_: map<string, string>, order: seq<string>): Result<Index>
    requires forall s :: s in order ==> s in new_
  {
    if order == [] then Ok(idx)
    else
      var s := order[|order| - 1];
      var before :- InstallInOrder(idx, u, new_, order[..|order| - 1]);
      InstallOne(before, u, s, new_[s])
  }

  /** Order-free description of both phases. */
  function Released(idx: Index, u: Uuid, prev: map<string, string>, kept: map<string, string>): Index {
    map d | d in idx && !(idx[d].leaseUuid == u &&
                          idx[d].serviceName in prev && prev[idx[d].serviceName] == d &&
                          !(idx[d].serviceName in kept && kept[idx[d].serviceName] == d)) :: idx[d]
  }

  predicate Injective(m: map<string, string>) {
    forall s, s' :: s in m && s' in m && m[s] == m[s'] ==> s == s'
  }

  predicate Installable(idx: Index, u: Uuid, new_: map<string, string>) {
    Injective(new_) &&
    forall s :: s in new_ && new_[s] in idx ==> idx[new_[s]] == CustomDomainTarget(u, s)
  }

  /** `r` is `idx` with the new claims written over it. */
  predicate IsInstalled(r: Index, idx: Index, u: Uuid, new_: map<string, string>) {
    && (forall d :: d in r ==> d in idx || d in new_.Values)
    && (forall d :: d in idx ==> d in r)
    && (forall s :: s in new_ ==> Points(r, new_[s], u, s))
    && (forall d :: d in idx && d !in new_.Values ==> r[d] == idx[d])
  }

  function Installed(idx: Index, u: Uuid, new_: map<string, string>): (r: Index)
    requires Injective(new_)
    ensures IsInstalled(r, idx, u, new_)
  {
    idx + map s | s in new_ :: new_[s] := CustomDomainTarget(u, s)
  }

  /** The index after lease `l` replaces `prev` (absent for a first write). */
  function Reconcile(idx: Index, prev: Option<Lease>, l: Lease): Result<Index> {
    var released := Released(idx, l.uuid, PreviousDomains(prev), Claims(l));
    if Installable(released, l.uuid, Claims(l)) then Ok(Installed(released, l.uuid, Claims(l)))
    else Err(CustomDomainAlreadyClaimed)
  }

  ghost predicate Enumerates(order: seq<string>, m: map<string, string>) {
    (forall s :: s in order <==> s in m) &&
    forall i, j :: 0 <= i < j < |order| ==> order[i] != order[j]
  }

  lemma {:induction false} ReleaseAnyOrder(idx: Index, u: Uuid, prev: map<string, string>, kept: map<string, string>, order: seq<string>)
    requires forall s :: s in order ==> s in prev
    ensures ReleaseInOrder(idx, u, prev, kept, order) == Released(idx, u, map s | s in order :: prev[s], kept)
  {
    if order != [] {
      var n := |order| - 1;
      ReleaseAnyOrder(idx, u, prev, kept, order[..n]);
      var before := map s | s in order[..n] :: prev[s];
      assert forall s :: s in order <==> s in order[..n] || s == order[n];
      assert (map s | s in order :: prev[s]) == before[order[n] := prev[order[n]]];
      hide Released, ReleaseOne;
      ReleaseLast(idx, u, before, kept, order[n], prev[order[n]]);
    }
  }

  lemma ReleaseLast(idx: Index, u: Uuid, before: map<string, string>, kept: map<string, string>, s: string, d: string)
    requires s in before ==> before[s] == d
    ensures ReleaseOne(Released(idx, u, before, kept), u, s, d, kept) == Released(idx, u, before[s := d], kept)
  {
  }

  lemma {:induction false} InstallAnyOrder(idx: Index, u: Uuid, new_: map<string, string>, order: seq<string>)
    requires forall s :: s in order ==> s in new_
    requires forall i, j :: 0 <= i < j < |order| ==> order[i] != order[j]
    ensures var done := map s | s in order :: new_[s];
            InstallInOrder(idx, u, new_, order) ==
            if Installable(idx, u, done) then Ok(Installed(idx, u, done)) else Err(CustomDomainAlreadyClaimed)
  {
    var done := map s | s in order :: new_[s];
    if order != [] {
      var n := |order| - 1;
      InstallAnyOrder(idx, u, new_, order[..n]);
      var before := map s | s in order[..n] :: new_[s];
      assert forall s :: s in order <==> s in order[..n] || s == order[n];
      assert done == before[order[n] := new_[order[n]]];
      InstallLast(idx, u, before, order[n], new_[order[n]]);
    } else {
      InstalledIsUnique(Installed(idx, u, map[]), idx, idx, u, map[]);
      assert done == map[];
    }
  }

  lemma InstallLast(idx: Index, u: Uuid, before: map<string, string>, s: string, d: string)
    requires s !in before
    ensures var done := before[s := d];
            (if Installable(idx, u, before) then InstallOne(Installed(idx, u, before), u, s, d)
             else Err(CustomDomainAlreadyClaimed)) ==
            if Installable(idx, u, done) then Ok(Installed(idx, u, done)) else Err(CustomDomainAlreadyClaimed)
  {
    InstallableSnoc(idx, u, before, s, d);
    if Installable(idx, u, before) {
      var r := Installed(idx, u, before);
      InstallOneCases(r, idx, u, before, s, d);
      if Installable(idx, u, before[s := d]) {
        var r' := Installed(idx, u, before[s := d]);
        InstalledSnoc(r, idx, u, before, s, d);
        InstalledIsUnique(r', r[d := CustomDomainTarget(u, s)], idx, u, before[s := d]);
      }
    }
  }

  lemma InstallOneCases(r: Index, idx: Index, u: Uuid, before: map<string, string>, s: string, d: string)
    requires s !in before && IsInstalled(r, idx, u, before)
    ensures InstallOne(r, u, s, d) ==
            if d !in before.Values && (d in idx ==> idx[d] == CustomDomainTarget(u, s))
            then Ok(r[d := CustomDomainTarget(u, s)]) else Err(CustomDomainAlreadyClaimed)
  {
    if d in before.Values {
      var s' :| s' in before && before[s'] == d;
      assert Points(r, before[s'], u, s');
    } else if d in idx && idx[d] == CustomDomainTarget(u, s) {
      assert r[d := CustomDomainTarget(u, s)] == r;
    }
  }

  lemma InstallableSnoc(idx: Index, u: Uuid, before: map<string, string>, s: string, d: string)
    requires s !in before
    ensures Installable(idx, u, before[s := d]) <==>
            Installable(idx, u, before) && d !in before.Values && (d in idx ==> idx[d] == CustomDomainTarget(u, s))
  {
    var done := before[s := d];
    assert forall s' :: s' in before ==> s' in done && done[s'] == before[s'];
    assert done[s] == d;
    if d in before.Values {
      var s' :| s' in before && before[s'] == d;
      assert done[s'] == done[s];
    }
  }

  lemma InstalledSnoc(r: Index, idx: Index, u: Uuid, before: map<string, string>, s: string, d: string)
    requires s !in before && d !in before.Values && IsInstalled(r, idx, u, before)
    ensures IsInstalled(r[d := CustomDomainTarget(u, s)], idx, u, before[s := d])
  {
    var done := before[s := d];
    assert done[s] == d;
    forall d' ensures d' in done.Values <==> d' in before.Values || d' == d {
      if d' in before.Values { var s' :| s' in before && before[s'] == d'; assert done[s'] == d'; }
    }
    forall s' | s' in done ensures Points(r[d := CustomDomainTarget(u, s)], done[s'], u, s') {
      if s' != s { assert Points(r, before[s'], u, s') && before[s'] in before.Values; }
    }
  }

  lemma InstalledIsUnique(r: Index, r': Index, idx: Index, u: Uuid, new_: map<string, string>)
    requires IsInstalled(r, idx, u, new_) && IsInstalled(r', idx, u, new_)
    ensures r == r'
  {
    forall d | d in r || d in r' ensures d in r && d in r' && r[d] == r'[d] {
      if d in new_.Values {
        var s :| s in new_ && new_[s] == d;
        assert Points(r, new_[s], u, s) && Points(r', new_[s], u, s);
      }
    }
  }

  /** Every order of the two loops gives the same result: the same refusal, or the same index. */
  lemma OrderIsIrrelevant(idx: Index, prev: Option<Lease>, l: Lease, releases: seq<string>, installs: seq<string>)
    requires Enumerates(releases, PreviousDomains(prev))
    requires Enumerates(installs, Claims(l))
    ensures var before := PreviousDomains(prev);
            InstallInOrder(ReleaseInOrder(idx, l.uuid, before, Claims(l), releases), l.uuid, Claims(l), installs)
            == Reconcile(idx, prev, l)
  {
    var before := PreviousDomains(prev);
    ReleaseAnyOrder(idx, l.uuid, before, Claims(l), releases);
    assert (map s | s in releases :: before[s]) == before;
    InstallAnyOrder(Released(idx, l.uuid, before, Claims(l)), l.uuid, Claims(l), installs);
    assert (map s | s in installs :: Claims(l)[s]) == Claims(l);
  }

  predicate Holds(leases: map<Uuid, Lease>, d: string, u: Uuid, s: string) {
    u in leases && s in Claims(leases[u]) && Claims(leases[u])[s] == d
  }

  /** The index is exactly the inverse of the live claims. */
  ghost predicate Exact(idx: Index, leases: map<Uuid, Lease>) {
    forall d, u, s :: Points(idx, d, u, s) <==> Holds(leases, d, u, s)
  }

  function Previous(leases: map<Uuid, Lease>, u: Uuid): Option<Lease> {
    if u in leases then Some(leases[u]) else None
  }

  /** Service names with domains of the record that a write replaces. */
  function PreviousDomains(prev: Option<Lease>): map<string, string> {
    if prev.Some? then ByService(prev.value.items) else map[]
  }

  /** No domain of `l` is held by another lease. */
  ghost predicate Unclaimed(leases: map<Uuid, Lease>, l: Lease) {
    forall d, v, s :: Holds(leases, d, v, s) && v != l.uuid ==> d !in Claims(l).Values
  }

  /** A write succeeds exactly when its domains are pairwise different and free, and then the
      index is again the inverse of the claims. */
  lemma ReconcileExact(idx: Index, leases: map<Uuid, Lease>, l: Lease)
    requires Exact(idx, leases)
    ensures var r := Reconcile(idx, Previous(leases, l.uuid), l);
            (r.Ok? <==> Injective(Claims(l)) && Unclaimed(leases, l)) &&
            (r.Ok? ==> Exact(r.value, leases[l.uuid := l]))
  {
    var released := Released(idx, l.uuid, PreviousDomains(Previous(leases, l.uuid)), Claims(l));
    forall d, u, s
      ensures Points(released, d, u, s) <==>
              Holds(leases, d, u, s) && (u == l.uuid ==> s in Claims(l) && Claims(l)[s] == d)
    {
      assert Points(idx, d, u, s) <==> Holds(leases, d, u, s);
    }
    InstallableIff(released, leases, l);
    if Installable(released, l.uuid, Claims(l)) {
      InstalledExact(released, leases, l);
    }
  }

  /** After the release phase the index holds the claims of the other leases and those claims
      of the written lease that it keeps. */
  ghost predicate Trimmed(released: Index, leases: map<Uuid, Lease>, l: Lease) {
    forall d, u, s :: Points(released, d, u, s) <==>
                      Holds(leases, d, u, s) && (u == l.uuid ==> s in Claims(l) && Claims(l)[s] == d)
  }

  lemma InstallableIff(released: Index, leases: map<Uuid, Lease>, l: Lease)
    requires Trimmed(released, leases, l)
    ensures Installable(released, l.uuid, Claims(l)) <==> Injective(Claims(l)) && Unclaimed(leases, l)
  {
    if Installable(released, l.uuid, Claims(l)) {
      forall d, v, s | Holds(leases, d, v, s) && v != l.uuid ensures d !in Claims(l).Values {
        assert Points(released, d, v, s);
      }
    }
    if Injective(Claims(l)) && Unclaimed(leases, l) {
      forall s | s in Claims(l) && Claims(l)[s] in released
        ensures released[Claims(l)[s]] == CustomDomainTarget(l.uuid, s)
      {
        var d := Claims(l)[s];
        var t := released[d];
        assert Points(released, d, t.leaseUuid, t.serviceName);
      }
    }
  }

  lemma InstalledExact(released: Index, leases: map<Uuid, Lease>, l: Lease)
    requires Trimmed(released, leases, l)
    requires Installable(released, l.uuid, Claims(l))
    ensures Exact(Installed(released, l.uuid, Claims(l)), leases[l.uuid := l])
  {
    InstallableIff(released, leases, l);
    var installed := Installed(released, l.uuid, Claims(l));
    var after := leases[l.uuid := l];
    forall d, u, s ensures Points(installed, d, u, s) <==> Holds(after, d, u, s) {
      if d in Claims(l).Values {
        var s' :| s' in Claims(l) && Claims(l)[s'] == d;
        assert Points(installed, Claims(l)[s'], l.uuid, s');
        assert Holds(after, d, u, s) && u != l.uuid ==> Holds(leases, d, u, s);
      } else {
        assert Points(installed, d, u, s) <==> Points(released, d, u, s);
        assert u != l.uuid ==> (Holds(after, d, u, s) <==> Holds(leases, d, u, s));
        assert u == l.uuid && Holds(after, d, u, s) ==> d in Claims(l).Values;
      }
    }
  }

  /** The leases determine the index. */
  lemma ExactIsUnique(idx: Index, idx': Index, leases: map<Uuid, Lease>)
    requires Exact(idx, leases) && Exact(idx', leases)
    ensures idx == idx'
  {
    forall d ensures d in idx ==> d in idx' && idx'[d] == idx[d] {
      if d in idx { assert Points(idx, d, idx[d].leaseUuid, idx[d].serviceName); }
    }
    forall d ensures d in idx' ==> d in idx {
      if d in idx' { assert Points(idx', d, idx'[d].leaseUuid, idx'[d].serviceName); }
    }
  }

  /** A write that ends the lease or leaves its domains alone cannot be refused. */
  lemma KeepingDomainsSucceeds(idx: Index, leases: map<Uuid, Lease>, l: Lease)
    requires Exact(idx, leases)
    requires Claims(l) == map[] || (l.uuid in leases && Claims(l) == Claims(leases[l.uuid]))
    ensures Reconcile(idx, Previous(leases, l.uuid), l).Ok?
  {
    ReconcileExact(idx, leases, l);
    if Claims(l) != map[] {
      assert forall s :: s in Claims(l) ==> Holds(leases, Claims(l)[s], l.uuid, s);
      forall s, s' | s in Claims(l) && s' in Claims(l) && Claims(l)[s] == Claims(l)[s'] ensures s == s' {
        assert Points(idx, Claims(l)[s], l.uuid, s) && Points(idx, Claims(l)[s'], l.uuid, s');
      }
      forall d, v, s | Holds(leases, d, v, s) && v != l.uuid ensures d !in Claims(l).Values {
        assert Points(idx, d, v, s);
      }
    }
  }
}
