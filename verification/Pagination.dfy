/** Cursor pagination over a string index.  `PageOf` says what a page is; the two methods are the
    loops that compute it; `AllPages` follows the cursors. */
module Pagination {
  import opened Types

  const DEFAULT_LIMIT := 100

  /** Result of looking up a primary key: present, absent (an orphaned index entry), or an error. */
  datatype Fetch<V> = Found(value: V) | Missing | Broken

  datatype PageRequest = PageRequest(key: string, offset: nat, limit: nat, countTotal: bool)

  datatype Page<V> = Page(values: seq<V>, nextKey: string, total: nat)

  function LimitOf(req: PageRequest): nat { if req.limit == 0 then DEFAULT_LIMIT else req.limit }

  /** The entries that exist and pass the filter, in index order. */
  function Entries<V>(keys: seq<string>, fetch: string -> Fetch<V>, keep: V -> bool): seq<(string, V)> {
    if keys == [] then []
    else
      var k := keys[|keys| - 1];
      var before := Entries(keys[..|keys| - 1], fetch, keep);
      if fetch(k).Found? && keep(fetch(k).value) then before + [(k, fetch(k).value)] else before
  }

  predicate DistinctKeys(keys: seq<string>) {
    (forall i :: 0 <= i < |keys| ==> keys[i] != "") &&
    forall i, j :: 0 <= i < j < |keys| ==> keys[i] != keys[j]
  }

  /** The index from the cursor on; all of it without a cursor, nothing for an unknown one. */
  function From(keys: seq<string>, key: string): seq<string> {
    if key == "" then keys
    else if keys == [] then []
    else if keys[0] == key then keys
    else From(keys[1..], key)
  }

  function Values<V>(es: seq<(string, V)>): seq<V> {
    seq(|es|, i requires 0 <= i < |es| => es[i].1)
  }

  /** Offset applies only without a cursor. */
  function Skipped(req: PageRequest): nat { if req.key == "" then req.offset else 0 }

  function PageFrom<V>(es: seq<(string, V)>, skip: nat, limit: nat, countTotal: bool): Page<V> {
    var rest := if skip <= |es| then es[skip..] else [];
    Page(Values(if |rest| <= limit then rest else rest[..limit]),
         if |rest| <= limit then "" else rest[limit].0,
         if countTotal then |es| else 0)
  }

  function PageOf<V>(keys: seq<string>, fetch: string -> Fetch<V>, keep: V -> bool, req: PageRequest): Page<V> {
    PageFrom(Entries(From(keys, req.key), fetch, keep), Skipped(req), LimitOf(req), req.countTotal)
  }

  /** The call looks up the entry at position `i`: the cursor has been met and, unless the total
      is counted, the page and its next key are not complete yet. */
  predicate LooksUp<V>(keys: seq<string>, fetch: string -> Fetch<V>, keep: V -> bool, req: PageRequest, i: nat)
    requires i < |keys|
  {
    && (req.key == "" || req.key in keys[..i + 1])
    && (req.countTotal || |Entries(From(keys[..i], req.key), fetch, keep)| <= Skipped(req) + LimitOf(req))
  }

  /** Some lookup the call makes fails. */
  predicate Fails<V>(keys: seq<string>, fetch: string -> Fetch<V>, keep: V -> bool, req: PageRequest) {
    exists i :: 0 <= i < |keys| && LooksUp(keys, fetch, keep, req, i) && fetch(keys[i]).Broken?
  }

  // ---------------------------------------------------------------- laws of the index

  lemma {:induction false} EntriesConcat<V>(a: seq<string>, b: seq<string>, fetch: string -> Fetch<V>, keep: V -> bool)
    ensures Entries(a + b, fetch, keep) == Entries(a, fetch, keep) + Entries(b, fetch, keep)
    decreases |b|
  {
    if b == [] {
      assert a + b == a;
    } else {
      var n := |b| - 1;
      EntriesConcat(a, b[..n], fetch, keep);
      assert (a + b)[..|a + b| - 1] == a + b[..n];
      assert (a + b)[|a + b| - 1] == b[n];
    }
  }

  lemma {:induction false} EntryKeys<V>(keys: seq<string>, fetch: string -> Fetch<V>, keep: V -> bool)
    requires DistinctKeys(keys)
    ensures forall i :: 0 <= i < |Entries(keys, fetch, keep)| ==> Entries(keys, fetch, keep)[i].0 in keys
    ensures forall i, j :: 0 <= i < j < |Entries(keys, fetch, keep)| ==> Entries(keys, fetch, keep)[i].0 != Entries(keys, fetch, keep)[j].0
    decreases |keys|
  {
    if keys != [] {
      var n := |keys| - 1;
      EntryKeys(keys[..n], fetch, keep);
      assert keys[n] !in keys[..n];
      assert forall k :: k in keys[..n] ==> k in keys;
      assert keys[n] in keys;
    }
  }

  /** A known cursor splits the index. */
  lemma {:induction false} FromSplits(keys: seq<string>, key: string) returns (p: nat)
    requires key != "" && key in keys
    ensures p < |keys| && keys[p] == key && From(keys, key) == keys[p..] && key !in keys[..p]
  {
    if keys[0] == key {
      p := 0;
    } else {
      p := FromSplits(keys[1..], key);
      assert keys[1..][p..] == keys[p + 1..];
      assert keys[..p + 1] == [keys[0]] + keys[1..][..p];
      p := p + 1;
    }
  }

  lemma {:induction false} FromUnknown(keys: seq<string>, key: string)
    requires key != "" && key !in keys
    ensures From(keys, key) == []
  {
    if keys != [] {
      FromUnknown(keys[1..], key);
    }
  }

  lemma {:induction false} FromSnoc(keys: seq<string>, k: string, key: string)
    ensures From(keys + [k], key) == if key == "" || key in keys || k == key then From(keys, key) + [k] else []
  {
    var all := keys + [k];
    if key != "" && keys != [] && keys[0] != key {
      FromSnoc(keys[1..], k, key);
      assert all[1..] == keys[1..] + [k];
      assert key in keys <==> key in keys[1..];
    } else if key != "" && keys == [] {
      assert all[1..] == [];
    }
  }

  // ---------------------------------------------------------------- the loops

  /** The page depends only on the first entries once it is full. */
  lemma FullPageIsFinal<V>(a: seq<(string, V)>, b: seq<(string, V)>, skip: nat, limit: nat)
    requires |a| > skip + limit
    ensures PageFrom(a + b, skip, limit, false) == PageFrom(a, skip, limit, false)
  {
    assert (a + b)[skip..] == a[skip..] + b;
    assert ((a + b)[skip..])[..limit] == (a[skip..])[..limit];
  }

  /** The loop variables: the page so far and the number of entries passed over. */
  datatype Acc<V> = Acc(values: seq<V>, nextKey: string, total: nat, skipped: nat)

  /** What the loop variables hold after the entries `es`. */
  ghost predicate Progress<V>(es: seq<(string, V)>, req: PageRequest, acc: Acc<V>) {
    && PageFrom(es, Skipped(req), LimitOf(req), req.countTotal) == Page(acc.values, acc.nextKey, acc.total)
    && acc.skipped == if |es| < Skipped(req) then |es| else Skipped(req)
  }

  /** How one more entry changes them. */
  function Absorb<V>(acc: Acc<V>, e: (string, V), req: PageRequest): Acc<V> {
    var counted := acc.(total := if req.countTotal then acc.total + 1 else acc.total);
    if acc.skipped < Skipped(req) then counted.(skipped := acc.skipped + 1)
    else if |acc.values| >= LimitOf(req) then counted.(nextKey := if acc.nextKey == "" then e.0 else acc.nextKey)
    else counted.(values := acc.values + [e.1])
  }

  lemma ProgressStart<V>(req: PageRequest)
    ensures Progress<V>([], req, Acc([], "", 0, 0))
  {
  }

  lemma AbsorbProgress<V>(es: seq<(string, V)>, e: (string, V), req: PageRequest, acc: Acc<V>)
    requires Progress(es, req, acc) && forall i :: 0 <= i < |es| ==> es[i].0 != ""
    ensures Progress(es + [e], req, Absorb(acc, e, req))
  {
    if acc.skipped == Skipped(req) {
      var rest, limit := es[acc.skipped..], LimitOf(req);
      assert (es + [e])[acc.skipped..] == rest + [e];
      if |rest| > limit {
        assert (rest + [e])[..limit] == rest[..limit];
        assert rest[limit] == es[acc.skipped + limit];
      } else if |rest| == limit {
        assert (rest + [e])[..limit] == rest;
      } else {
        assert Values(rest + [e]) == Values(rest) + [e.1];
      }
    }
  }

  lemma {:induction false} EntryKeysNonEmpty<V>(keys: seq<string>, fetch: string -> Fetch<V>, keep: V -> bool)
    requires forall i :: 0 <= i < |keys| ==> keys[i] != ""
    ensures forall i :: 0 <= i < |Entries(keys, fetch, keep)| ==> Entries(keys, fetch, keep)[i].0 != ""
    decreases |keys|
  {
    if keys != [] {
      EntryKeysNonEmpty(keys[..|keys| - 1], fetch, keep);
    }
  }

  lemma {:induction false} FromIsPart(keys: seq<string>, key: string)
    ensures forall k :: k in From(keys, key) ==> k in keys
  {
    if key != "" && keys != [] && keys[0] != key {
      FromIsPart(keys[1..], key);
    }
  }

  /** The entries after one more index key. */
  lemma EntriesNext<V>(keys: seq<string>, i: nat, key: string, fetch: string -> Fetch<V>, keep: V -> bool)
    requires i < |keys|
    ensures var es := Entries(From(keys[..i], key), fetch, keep);
            var k := keys[i];
            var started := key == "" || key in keys[..i] || k == key;
            && Entries(From(keys[..i + 1], key), fetch, keep) ==
               (if started && fetch(k).Found? && keep(fetch(k).value) then es + [(k, fetch(k).value)] else es)
            && (key == "" || key in keys[..i + 1] <==> started)
  {
    assert keys[..i + 1] == keys[..i] + [keys[i]];
    FromSnoc(keys[..i], keys[i], key);
    if key == "" || key in keys[..i] || keys[i] == key {
      var a := From(keys[..i], key);
      assert (a + [keys[i]])[..|a|] == a;
    } else {
      FromUnknown(keys[..i], key);
    }
  }

  lemma StoppedEarly<V>(keys: seq<string>, i: nat, req: PageRequest, fetch: string -> Fetch<V>, keep: V -> bool)
    requires i <= |keys| && (req.key == "" || req.key in keys[..i]) && !req.countTotal
    requires |Entries(From(keys[..i], req.key), fetch, keep)| > Skipped(req) + LimitOf(req)
    ensures PageOf(keys, fetch, keep, req) == PageOf(keys[..i], fetch, keep, req)
  {
    hide PageFrom;
    FromExtends(keys, i, req.key);
    EntriesConcat(From(keys[..i], req.key), keys[i..], fetch, keep);
    FullPageIsFinal(Entries(From(keys[..i], req.key), fetch, keep), Entries(keys[i..], fetch, keep), Skipped(req), LimitOf(req));
  }

  lemma {:induction false} FromExtends(keys: seq<string>, i: nat, key: string)
    requires i <= |keys| && (key == "" || key in keys[..i])
    ensures From(keys, key) == From(keys[..i], key) + keys[i..]
    decreases |keys|
  {
    if key == "" {
      assert keys == keys[..i] + keys[i..];
    } else if keys[0] == key {
      assert keys == keys[..i] + keys[i..];
    } else {
      assert keys[1..][..i - 1] == keys[..i][1..];
      FromExtends(keys[1..], i - 1, key);
      assert keys[1..][i - 1..] == keys[i..];
    }
  }

  lemma KeysOfPrefix<V>(keys: seq<string>, i: nat, key: string, fetch: string -> Fetch<V>, keep: V -> bool)
    requires DistinctKeys(keys) && i <= |keys|
    ensures forall j :: 0 <= j < |Entries(From(keys[..i], key), fetch, keep)| ==> Entries(From(keys[..i], key), fetch, keep)[j].0 != ""
  {
    FromIsPart(keys[..i], key);
    var part := From(keys[..i], key);
    assert forall j :: 0 <= j < |part| ==> part[j] in part;
    EntryKeysNonEmpty(part, fetch, keep);
  }

  /** One more key of the index, as the loops process it. */
  ghost function Visit<V>(acc: Acc<V>, k: string, started: bool, fetch: string -> Fetch<V>, keep: V -> bool, req: PageRequest): Acc<V> {
    if started && fetch(k).Found? && keep(fetch(k).value) then Absorb(acc, (k, fetch(k).value), req) else acc
  }

  ghost predicate Reached<V>(keys: seq<string>, i: nat, fetch: string -> Fetch<V>, keep: V -> bool, req: PageRequest, acc: Acc<V>)
    requires i <= |keys|
  {
    Progress(Entries(From(keys[..i], req.key), fetch, keep), req, acc)
  }

  lemma ReachedStart<V>(keys: seq<string>, fetch: string -> Fetch<V>, keep: V -> bool, req: PageRequest)
    ensures Reached(keys, 0, fetch, keep, req, Acc([], "", 0, 0))
  {
    ProgressStart<V>(req);
    assert keys[..0] == [];
  }

  lemma ReachedNext<V>(keys: seq<string>, i: nat, fetch: string -> Fetch<V>, keep: V -> bool, req: PageRequest, acc: Acc<V>)
    requires DistinctKeys(keys) && i < |keys| && Reached(keys, i, fetch, keep, req, acc)
    ensures Reached(keys, i + 1, fetch, keep, req, Visit(acc, keys[i], req.key == "" || req.key in keys[..i + 1], fetch, keep, req))
  {
    hide Progress, Entries, From, Absorb;
    EntriesNext(keys, i, req.key, fetch, keep);
    KeysOfPrefix(keys, i, req.key, fetch, keep);
    if fetch(keys[i]).Found? {
      AbsorbProgress(Entries(From(keys[..i], req.key), fetch, keep), (keys[i], fetch(keys[i]).value), req, acc);
    }
  }

  lemma ReachedEnd<V>(keys: seq<string>, fetch: string -> Fetch<V>, keep: V -> bool, req: PageRequest, acc: Acc<V>)
    requires Reached(keys, |keys|, fetch, keep, req, acc)
    ensures Page(acc.values, acc.nextKey, acc.total) == PageOf(keys, fetch, keep, req)
  {
    assert keys[..|keys|] == keys;
  }

  /** Once a next key is known and nothing is counted, the page is final. */
  lemma ReachedFull<V>(keys: seq<string>, i: nat, fetch: string -> Fetch<V>, keep: V -> bool, req: PageRequest, acc: Acc<V>)
    requires i <= |keys| && (req.key == "" || req.key in keys[..i]) && !req.countTotal
    requires Reached(keys, i, fetch, keep, req, acc) && acc.nextKey != ""
    ensures Page(acc.values, acc.nextKey, acc.total) == PageOf(keys, fetch, keep, req)
  {
    hide Entries, From;
    StoppedEarly(keys, i, req, fetch, keep);
  }

  /** While there is no next key the loop looks up every entry from the cursor on. */
  lemma LookupNow<V>(keys: seq<string>, i: nat, fetch: string -> Fetch<V>, keep: V -> bool, req: PageRequest, acc: Acc<V>)
    requires DistinctKeys(keys) && i < |keys| && Reached(keys, i, fetch, keep, req, acc) && (req.countTotal || acc.nextKey == "")
    ensures LooksUp(keys, fetch, keep, req, i) <==> req.key == "" || req.key in keys[..i + 1]
  {
    NextKeyOfPrefix(keys, i, fetch, keep, req);
    hide Entries, From, PageFrom;
  }

  lemma NextKeyOfPrefix<V>(keys: seq<string>, i: nat, fetch: string -> Fetch<V>, keep: V -> bool, req: PageRequest)
    requires DistinctKeys(keys) && i <= |keys|
    ensures var es := Entries(From(keys[..i], req.key), fetch, keep);
            PageFrom(es, Skipped(req), LimitOf(req), req.countTotal).nextKey == "" <==> |es| <= Skipped(req) + LimitOf(req)
  {
    hide Entries, From, PageFrom, DistinctKeys;
    KeysOfPrefix(keys, i, req.key, fetch, keep);
    NextKeyOfFull(Entries(From(keys[..i], req.key), fetch, keep), Skipped(req), LimitOf(req), req.countTotal);
  }

  lemma NextKeyOfFull<V>(es: seq<(string, V)>, skip: nat, limit: nat, countTotal: bool)
    requires forall j :: 0 <= j < |es| ==> es[j].0 != ""
    ensures PageFrom(es, skip, limit, countTotal).nextKey == "" <==> |es| <= skip + limit
  {
    if |es| > skip + limit {
      assert es[skip..][limit] == es[skip + limit];
    }
  }

  /** Once there is a next key and nothing is counted, nothing more is looked up. */
  lemma NoMoreLookups<V>(keys: seq<string>, i: nat, fetch: string -> Fetch<V>, keep: V -> bool, req: PageRequest, acc: Acc<V>)
    requires i <= |keys| && (req.key == "" || req.key in keys[..i]) && !req.countTotal
    requires Reached(keys, i, fetch, keep, req, acc) && acc.nextKey != ""
    ensures forall j :: i <= j < |keys| ==> !LooksUp(keys, fetch, keep, req, j)
  {
    hide Entries, From;
    forall j | i <= j < |keys| ensures !LooksUp(keys, fetch, keep, req, j) {
      EntriesGrow(keys, i, j, req.key, fetch, keep);
    }
  }

  lemma EntriesGrow<V>(keys: seq<string>, i: nat, j: nat, key: string, fetch: string -> Fetch<V>, keep: V -> bool)
    requires i <= j <= |keys| && (key == "" || key in keys[..i])
    ensures |Entries(From(keys[..i], key), fetch, keep)| <= |Entries(From(keys[..j], key), fetch, keep)|
  {
    hide Entries, From;
    assert keys[..j][..i] == keys[..i];
    FromExtends(keys[..j], i, key);
    EntriesConcat(From(keys[..i], key), keys[..j][i..], fetch, keep);
  }

  method PaginateStringIndex<V>(keys: seq<string>, fetch: string -> Fetch<V>, req: PageRequest, keep: V -> bool)
    returns (r: Option<Page<V>>)
    requires DistinctKeys(keys)
    ensures r.None? <==> Fails(keys, fetch, keep, req)
    ensures r.Some? ==> r == Some(PageOf(keys, fetch, keep, req))
  {
    hide Reached, PageOf, LooksUp;
    var limit := req.limit;
    if limit == 0 {
      limit := DEFAULT_LIMIT;
    }
    var values: seq<V> := [];
    var count, total, skipped, nextKey := 0, 0, 0, "";
    var foundStart := |req.key| == 0;
    ReachedStart(keys, fetch, keep, req);
    for i := 0 to |keys|
      invariant foundStart <==> req.key == "" || req.key in keys[..i]
      invariant count == |values| && skipped <= Skipped(req)
      invariant Reached(keys, i, fetch, keep, req, Acc(values, nextKey, total, skipped))
      invariant req.countTotal || nextKey == ""
      invariant forall j :: 0 <= j < i && LooksUp(keys, fetch, keep, req, j) ==> !fetch(keys[j]).Broken?
    {
      var pk := keys[i];
      assert keys[..i + 1] == keys[..i] + [pk];
      ReachedNext(keys, i, fetch, keep, req, Acc(values, nextKey, total, skipped));
      LookupNow(keys, i, fetch, keep, req, Acc(values, nextKey, total, skipped));
      if !foundStart {
        if req.key == pk {
          foundStart := true;
        } else {
          continue;
        }
      }
      var fetched := fetch(pk);
      if fetched.Broken? {
        return None;
      }
      if fetched.Missing? {
        continue;
      }
      var value := fetched.value;
      if !keep(value) {
        continue;
      }
      if req.countTotal {
        total := total + 1;
      }
      if |req.key| == 0 && skipped < req.offset {
        skipped := skipped + 1;
        continue;
      }
      if count >= limit {
        if |nextKey| == 0 {
          nextKey := pk;
        }
        if !req.countTotal {
          ReachedFull(keys, i + 1, fetch, keep, req, Acc(values, nextKey, total, skipped));
          NoMoreLookups(keys, i + 1, fetch, keep, req, Acc(values, nextKey, total, skipped));
          return Some(Page(values, nextKey, total));
        }
        continue;
      }
      values := values + [value];
      count := count + 1;
    }
    ReachedEnd(keys, fetch, keep, req, Acc(values, nextKey, total, skipped));
    return Some(Page(values, nextKey, total));
  }

  /** The second components of index keys (sku, lease). */
  function Seconds(pairs: seq<(string, string)>): seq<string> {
    seq(|pairs|, i requires 0 <= i < |pairs| => pairs[i].1)
  }

  /** The near-copy for the SKU index computes the same page. */
  method PaginateSkuIndex<V>(pairs: seq<(string, string)>, fetch: string -> Fetch<V>, req: PageRequest, keep: V -> bool)
    returns (r: Option<Page<V>>)
    requires DistinctKeys(Seconds(pairs))
    ensures r.None? <==> Fails(Seconds(pairs), fetch, keep, req)
    ensures r.Some? ==> r == Some(PageOf(Seconds(pairs), fetch, keep, req))
  {
    hide Reached, PageOf, LooksUp;
    var limit := DEFAULT_LIMIT;
    if req.limit > 0 {
      limit := req.limit;
    }
    ghost var keys := Seconds(pairs);
    var leases: seq<V> := [];
    var total, skipped, nextKey := 0, 0, "";
    var foundStart := |req.key| == 0;
    ReachedStart(keys, fetch, keep, req);
    for i := 0 to |pairs|
      invariant foundStart <==> req.key == "" || req.key in keys[..i]
      invariant skipped <= Skipped(req)
      invariant Reached(keys, i, fetch, keep, req, Acc(leases, nextKey, total, skipped))
      invariant req.countTotal || nextKey == ""
      invariant forall j :: 0 <= j < i && LooksUp(keys, fetch, keep, req, j) ==> !fetch(keys[j]).Broken?
    {
      var leaseUuid := pairs[i].1;
      assert keys[..i + 1] == keys[..i] + [leaseUuid];
      ReachedNext(keys, i, fetch, keep, req, Acc(leases, nextKey, total, skipped));
      LookupNow(keys, i, fetch, keep, req, Acc(leases, nextKey, total, skipped));
      if !foundStart {
        if req.key == leaseUuid {
          foundStart := true;
        } else {
          continue;
        }
      }
      var fetched := fetch(leaseUuid);
      if fetched.Broken? {
        return None;
      }
      if fetched.Missing? {
        continue;
      }
      if !keep(fetched.value) {
        continue;
      }
      if req.countTotal {
        total := total + 1;
      }
      if |req.key| == 0 && skipped < req.offset {
        skipped := skipped + 1;
        continue;
      }
      if |leases| >= limit {
        if |nextKey| == 0 {
          nextKey := leaseUuid;
        }
        if !req.countTotal {
          ReachedFull(keys, i + 1, fetch, keep, req, Acc(leases, nextKey, total, skipped));
          NoMoreLookups(keys, i + 1, fetch, keep, req, Acc(leases, nextKey, total, skipped));
          return Some(Page(leases, nextKey, total));
        }
        continue;
      }
      leases := leases + [fetched.value];
    }
    ReachedEnd(keys, fetch, keep, req, Acc(leases, nextKey, total, skipped));
    return Some(Page(leases, nextKey, total));
  }

  // ---------------------------------------------------------------- following the cursors

  /** Counting the total only looks further: a call that succeeds with it succeeds without it,
      on the same page with the same next key. */
  lemma CountingLooksFurther<V>(keys: seq<string>, fetch: string -> Fetch<V>, keep: V -> bool, req: PageRequest)
    ensures var counted, plain := req.(countTotal := true), req.(countTotal := false);
            var p, q := PageOf(keys, fetch, keep, counted), PageOf(keys, fetch, keep, plain);
            && p.values == q.values && p.nextKey == q.nextKey
            && (Fails(keys, fetch, keep, plain) ==> Fails(keys, fetch, keep, counted))
  {
    hide Entries, From;
    var counted, plain := req.(countTotal := true), req.(countTotal := false);
    if Fails(keys, fetch, keep, plain) {
      var i :| 0 <= i < |keys| && LooksUp(keys, fetch, keep, plain, i) && fetch(keys[i]).Broken?;
      assert LooksUp(keys, fetch, keep, counted, i);
    }
  }

  /** The index from a known cursor on is a suffix of the index. */
  lemma FromIsSuffix(keys: seq<string>, key: string) returns (p: nat)
    requires key == "" || key in keys
    ensures p <= |keys| && From(keys, key) == keys[p..]
  {
    if key == "" {
      p := 0;
    } else {
      p := FromSplits(keys, key);
    }
  }

  lemma SuffixIsDistinct(keys: seq<string>, p: nat)
    requires DistinctKeys(keys) && p <= |keys|
    ensures DistinctKeys(keys[p..])
  {
  }

  /** Restarting at a key of the suffix `keys[p..]` drops the part of the suffix before that key. */
  lemma Restart(keys: seq<string>, p: nat, key: string) returns (j: nat)
    requires DistinctKeys(keys) && p <= |keys| && key in keys[p..]
    ensures key != "" && key in keys && j < |keys| - p && keys[p..][j] == key
    ensures From(keys, key) == keys[p..][j..] && keys[p..][j..] != []
  {
    j :| 0 <= j < |keys| - p && keys[p..][j] == key;
    assert keys[p + j] == key;
    var q := FromSplits(keys, key);
    assert q == p + j;
    assert keys[p..][j..] == keys[p + j..];
  }

  lemma EntryKeyIsPresent<V>(keys: seq<string>, fetch: string -> Fetch<V>, keep: V -> bool, n: nat)
    requires DistinctKeys(keys) && n < |Entries(keys, fetch, keep)|
    ensures Entries(keys, fetch, keep)[n].0 in keys
  {
    hide Entries;
    EntryKeys(keys, fetch, keep);
  }

  /** A next key names the first entry that did not fit, and the index from there on holds
      exactly the entries that were left. */
  lemma NextKeyContinues<V>(keys: seq<string>, fetch: string -> Fetch<V>, keep: V -> bool, key: string, n: nat)
    requires DistinctKeys(keys) && (key == "" || key in keys)
    requires |Entries(From(keys, key), fetch, keep)| > n
    ensures var es := Entries(From(keys, key), fetch, keep);
            && es[n].0 in keys && es[n].0 != ""
            && Entries(From(keys, es[n].0), fetch, keep) == es[n..]
            && (n > 0 ==> |From(keys, es[n].0)| < |From(keys, key)|)
  {
    hide Entries, From, DistinctKeys;
    var p := FromIsSuffix(keys, key);
    var tail := keys[p..];
    SuffixIsDistinct(keys, p);
    EntryKeyIsPresent(tail, fetch, keep, n);
    var nk := Entries(tail, fetch, keep)[n].0;
    var j := Restart(keys, p, nk);
    assert tail == tail[..j] + tail[j..];
    SplitAtKey(tail[..j], tail[j..], fetch, keep, n);
  }

  lemma PartsAreDistinct(a: seq<string>, b: seq<string>)
    requires DistinctKeys(a + b)
    ensures DistinctKeys(a) && DistinctKeys(b)
    ensures forall i, j :: 0 <= i < |a| && 0 <= j < |b| ==> a[i] != b[j]
  {
    assert forall i :: 0 <= i < |a| ==> (a + b)[i] == a[i];
    assert forall i :: 0 <= i < |b| ==> (a + b)[|a| + i] == b[i];
  }

  lemma SplitAtKey<V>(a: seq<string>, b: seq<string>, fetch: string -> Fetch<V>, keep: V -> bool, n: nat)
    requires DistinctKeys(a + b) && b != []
    requires n < |Entries(a + b, fetch, keep)| && Entries(a + b, fetch, keep)[n].0 == b[0]
    ensures |Entries(a, fetch, keep)| == n && Entries(b, fetch, keep) == Entries(a + b, fetch, keep)[n..]
    ensures n > 0 ==> a != []
  {
    EntriesConcat(a, b, fetch, keep);
    var ea, eb := Entries(a, fetch, keep), Entries(b, fetch, keep);
    assert a == [] ==> ea == [];
    hide Entries, DistinctKeys;
    PartsAreDistinct(a, b);
    EntryKeys(a, fetch, keep);
    assert forall k :: 0 <= k < |ea| ==> ea[k].0 != b[0];
    assert n >= |ea|;
    HeadEntry(b, fetch, keep, n - |ea|);
  }

  /** If the first key appears among the entries at all, it is the first entry. */
  lemma HeadEntry<V>(b: seq<string>, fetch: string -> Fetch<V>, keep: V -> bool, m: nat)
    requires DistinctKeys(b) && b != [] && m < |Entries(b, fetch, keep)| && Entries(b, fetch, keep)[m].0 == b[0]
    ensures m == 0
  {
    assert b == [b[0]] + b[1..];
    EntriesConcat([b[0]], b[1..], fetch, keep);
    assert [b[0]][..0] == [];
    var head, rest := Entries([b[0]], fetch, keep), Entries(b[1..], fetch, keep);
    assert |head| <= 1;
    hide Entries, DistinctKeys;
    PartsAreDistinct([b[0]], b[1..]);
    EntryKeys(b[1..], fetch, keep);
    assert [b[0]][0] == b[0];
    assert forall k :: 0 <= k < |rest| ==> rest[k].0 != b[0];
  }

  /** All values in order, collected page by page: only the first page skips an offset. */
  function AllPages<V>(keys: seq<string>, fetch: string -> Fetch<V>, keep: V -> bool, req: PageRequest): seq<V>
    requires DistinctKeys(keys) && (req.key == "" || req.key in keys)
    decreases |From(keys, req.key)|
  {
    var page := PageOf(keys, fetch, keep, req);
    if page.nextKey == "" then page.values
    else
      PageEnds(keys, fetch, keep, req);
      page.values + AllPages(keys, fetch, keep, req.(key := page.nextKey))
  }

  function Dropped<T>(s: seq<T>, n: nat): seq<T> { if n <= |s| then s[n..] else [] }

  lemma ValuesConcat<V>(es: seq<(string, V)>, n: nat)
    requires n <= |es|
    ensures Values(es) == Values(es[..n]) + Values(es[n..])
  {
  }

  /** A page either ends the listing or hands over at the entry after its last. */
  lemma PageEnds<V>(keys: seq<string>, fetch: string -> Fetch<V>, keep: V -> bool, req: PageRequest)
    requires DistinctKeys(keys) && (req.key == "" || req.key in keys)
    ensures var page := PageOf(keys, fetch, keep, req);
            var es := Entries(From(keys, req.key), fetch, keep);
            var rest := Dropped(es, Skipped(req));
            && |page.values| <= LimitOf(req)
            && (page.nextKey == "" ==> page.values == Values(rest))
            && (page.nextKey != "" ==>
                && page.nextKey in keys
                && |From(keys, page.nextKey)| < |From(keys, req.key)|
                && |rest| > LimitOf(req)
                && page.values == Values(rest[..LimitOf(req)])
                && Entries(From(keys, page.nextKey), fetch, keep) == rest[LimitOf(req)..])
  {
    hide Entries, From, DistinctKeys;
    var es := Entries(From(keys, req.key), fetch, keep);
    var skip, limit := Skipped(req), LimitOf(req);
    if |es| > skip + limit {
      NextKeyContinues(keys, fetch, keep, req.key, skip + limit);
      assert es[skip..][limit..] == es[skip + limit..];
    }
  }

  /** Following the cursors visits every entry that passes the filter exactly once, in order. */
  lemma {:induction false} PagesCoverTheIndex<V>(keys: seq<string>, fetch: string -> Fetch<V>, keep: V -> bool, req: PageRequest)
    requires DistinctKeys(keys) && (req.key == "" || req.key in keys)
    ensures AllPages(keys, fetch, keep, req) == Values(Dropped(Entries(From(keys, req.key), fetch, keep), Skipped(req)))
    decreases |From(keys, req.key)|
  {
    hide Entries, From, DistinctKeys, PageOf, Values;
    PageEnds(keys, fetch, keep, req);
    var page := PageOf(keys, fetch, keep, req);
    if page.nextKey != "" {
      var next := req.(key := page.nextKey);
      PagesCoverTheIndex(keys, fetch, keep, next);
      var rest := Dropped(Entries(From(keys, req.key), fetch, keep), Skipped(req));
      ValuesConcat(rest, LimitOf(req));
      var left := rest[LimitOf(req)..];
      assert left[0..] == left;
    }
  }
}
