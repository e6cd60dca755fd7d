/**
 * What the merge promises for the whole list (uup-game-service.ts, lines
 * 346-422): one entry per active catalog assignment, the unlock rule, and
 * what the final sort by id does to it.
 */
module ListFacts {
  import opened Wrappers
  import opened GameTypes
  import opened Merger
  import opened EntryFacts

  /** The gate unlocks the first entry, and each later one exactly when its predecessor finished enough tasks. */
  lemma {:induction false} GateRule(ds: seq<AssignmentDetails>, taskRequirement: int)
    ensures |ds| > 0 ==> Gate(ds, taskRequirement)[0].unlocked
    ensures forall i :: 0 < i < |ds| ==>
              (Gate(ds, taskRequirement)[i].unlocked <==> ds[i - 1].tasksFullyFinished >= taskRequirement)
  {
    if |ds| > 1 {
      var init := ds[..|ds| - 1];
      GateRule(init, taskRequirement);
      assert forall i :: 0 <= i < |ds| - 1 ==> Gate(ds, taskRequirement)[i] == Gate(init, taskRequirement)[i];
    }
  }

  /** The gate changes nothing but `unlocked`. */
  lemma {:induction false} GateOnlyUnlocks(ds: seq<AssignmentDetails>, taskRequirement: int)
    ensures forall i :: 0 <= i < |ds| ==>
              Gate(ds, taskRequirement)[i] == ds[i].(unlocked := Gate(ds, taskRequirement)[i].unlocked)
  {
    if |ds| > 1 {
      var init := ds[..|ds| - 1];
      GateOnlyUnlocks(init, taskRequirement);
      assert forall i :: 0 <= i < |ds| - 1 ==> Gate(ds, taskRequirement)[i] == Gate(init, taskRequirement)[i];
    }
  }

  /** A catalog of active assignments only is its own active list. */
  lemma {:induction false} ActiveOfAllActive(catalog: seq<Assignment>)
    requires forall k :: 0 <= k < |catalog| ==> catalog[k].active
    ensures ActiveOf(catalog) == catalog
  {
    if |catalog| > 0 {
      ActiveOfAllActive(catalog[..|catalog| - 1]);
      assert catalog == catalog[..|catalog| - 1] + [catalog[|catalog| - 1]];
    }
  }

  /** The filter of a concatenation is the concatenation of the filters: catalog order and repeats are kept. */
  lemma {:induction false} ActiveOfAppend(a: seq<Assignment>, b: seq<Assignment>)
    ensures ActiveOf(a + b) == ActiveOf(a) + ActiveOf(b)
    decreases |b|
  {
    if |b| > 0 {
      var init := b[..|b| - 1];
      ActiveOfAppend(a, init);
      assert (a + b)[..|a + b| - 1] == a + init;
      assert b == init + [b[|b| - 1]];
    } else {
      assert a + b == a;
    }
  }

  /** One catalog entry passes the filter exactly when it is active. */
  lemma ActiveOfSingle(x: Assignment)
    ensures ActiveOf([x]) == if x.active then [x] else []
  {
    assert [x][..0] == [];
  }

  /** The merged entries keep the identity of their catalog assignment, in catalog order. */
  lemma MergeKeepsIdentity(data: RawStudentData, active: seq<Assignment>, types: seq<PowerupType>,
                           hintOf: Oracle<string>, pointsOf: Oracle<int>)
    requires MergeAll(data, active, types, hintOf, pointsOf).Success?
    ensures EntriesOf(MergeAll(data, active, types, hintOf, pointsOf).value, active)
  {
    MergeAllSuccess(data, active, types, hintOf, pointsOf);
  }

  /** The gate keeps each entry's identity, progress flags and completion tally. */
  lemma GateKeepsFields(ds: seq<AssignmentDetails>, taskRequirement: int)
    ensures |Gate(ds, taskRequirement)| == |ds|
    ensures forall i :: 0 <= i < |ds| ==>
              var g := Gate(ds, taskRequirement)[i];
              g.id == ds[i].id && g.name == ds[i].name && g.path == ds[i].path
              && g.started == ds[i].started && g.finished == ds[i].finished
              && g.tasksFullyFinished == ds[i].tasksFullyFinished
  {
    GateOnlyUnlocks(ds, taskRequirement);
  }

  /** `ds` holds one entry per assignment of `active`, with its identity, in the same order. */
  ghost predicate EntriesOf(ds: seq<AssignmentDetails>, active: seq<Assignment>)
  {
    && |ds| == |active|
    && forall i :: 0 <= i < |ds| ==>
         ds[i].id == active[i].id && ds[i].name == active[i].name && ds[i].path == active[i].path
  }

  /** Every entry of an arrangement of gated entries comes from an active assignment. */
  lemma ArrangementFromActive(catalog: seq<Assignment>, ds: seq<AssignmentDetails>,
                              taskRequirement: int, out: seq<AssignmentDetails>)
    requires EntriesOf(ds, ActiveOf(catalog))
    requires multiset(out) == multiset(Gate(ds, taskRequirement))
    ensures forall d :: d in out ==>
              exists x :: x in catalog && x.active && x.id == d.id && x.name == d.name && x.path == d.path
  {
    var active := ActiveOf(catalog);
    var g := Gate(ds, taskRequirement);
    GateKeepsFields(ds, taskRequirement);
    forall d | d in out
      ensures exists x :: x in catalog && x.active && x.id == d.id && x.name == d.name && x.path == d.path
    {
      assert d in multiset(g);
      var i :| 0 <= i < |g| && g[i] == d;
      assert active[i] in active;
    }
  }

  /** Every active assignment has an entry in an arrangement of gated entries, and nothing else does. */
  lemma ArrangementCoversActive(catalog: seq<Assignment>, ds: seq<AssignmentDetails>,
                                taskRequirement: int, out: seq<AssignmentDetails>)
    requires EntriesOf(ds, ActiveOf(catalog))
    requires multiset(out) == multiset(Gate(ds, taskRequirement))
    ensures |out| == |ActiveOf(catalog)|
    ensures forall x :: x in catalog && x.active ==> exists d :: d in out && d.id == x.id
  {
    var active := ActiveOf(catalog);
    var g := Gate(ds, taskRequirement);
    GateKeepsFields(ds, taskRequirement);
    assert |out| == |multiset(out)| == |multiset(g)| == |g|;
    forall x | x in catalog && x.active
      ensures exists d :: d in out && d.id == x.id
    {
      assert x in active;
      var i :| 0 <= i < |active| && active[i] == x;
      assert g[i] in multiset(out);
    }
  }

  /**
   * Any arrangement of the gated entries (the sorted output is one) has one
   * entry per active catalog assignment: every entry comes from an active
   * assignment, and every active assignment has an entry.
   */
  lemma OutputMatchesActive(data: RawStudentData, catalog: seq<Assignment>, types: seq<PowerupType>,
                            taskRequirement: int, hintOf: Oracle<string>, pointsOf: Oracle<int>,
                            out: seq<AssignmentDetails>)
    requires MergeAll(data, ActiveOf(catalog), types, hintOf, pointsOf).Success?
    requires multiset(out) == multiset(Gate(MergeAll(data, ActiveOf(catalog), types, hintOf, pointsOf).value, taskRequirement))
    ensures |out| == |ActiveOf(catalog)|
    ensures forall d :: d in out ==>
              exists x :: x in catalog && x.active && x.id == d.id && x.name == d.name && x.path == d.path
    ensures forall x :: x in catalog && x.active ==> exists d :: d in out && d.id == x.id
  {
    MergeKeepsIdentity(data, ActiveOf(catalog), types, hintOf, pointsOf);
    var ds := MergeAll(data, ActiveOf(catalog), types, hintOf, pointsOf).value;
    ArrangementFromActive(catalog, ds, taskRequirement, out);
    ArrangementCoversActive(catalog, ds, taskRequirement, out);
  }

  /** Ids strictly increase along `s`. */
  ghost predicate IncreasingIds(s: seq<Assignment>)
  {
    forall i, j :: 0 <= i < j < |s| ==> s[i].id < s[j].id
  }

  /** `s` is ordered by `key`. */
  ghost predicate SortedBy<T>(s: seq<T>, key: T -> int)
  {
    forall i, j :: 0 <= i < j < |s| ==> key(s[i]) <= key(s[j])
  }

  /** No two elements of `s` share a `key`. */
  ghost predicate DistinctKeys<T>(s: seq<T>, key: T -> int)
  {
    forall i, j :: 0 <= i < j < |s| ==> key(s[i]) != key(s[j])
  }

  /** Two arrangements of the same elements, both ordered by a key no two elements share, start alike. */
  lemma SortedArrangementsShareHead<T>(s: seq<T>, t: seq<T>, key: T -> int)
    requires SortedBy(s, key) && SortedBy(t, key) && multiset(s) == multiset(t)
    requires DistinctKeys(s, key)
    requires |s| > 0
    ensures |t| > 0 && s[0] == t[0]
  {
    assert s[0] in multiset(t);
    var m :| 0 <= m < |t| && t[m] == s[0];
    assert t[0] in multiset(s);
    var k :| 0 <= k < |s| && s[k] == t[0];
    assert key(s[0]) <= key(s[k]) == key(t[0]) <= key(t[m]) == key(s[0]);
  }

  /** Removing a common head keeps two arrangements of the same elements. */
  lemma SameTails<T>(s: seq<T>, t: seq<T>)
    requires multiset(s) == multiset(t)
    requires |s| > 0 && |t| > 0 && s[0] == t[0]
    ensures multiset(s[1..]) == multiset(t[1..])
  {
    assert s == [s[0]] + s[1..];
    assert t == [t[0]] + t[1..];
    assert multiset(s) == multiset{s[0]} + multiset(s[1..]);
    assert multiset(t) == multiset{t[0]} + multiset(t[1..]);
    assert multiset(s[1..]) == multiset(s) - multiset{s[0]};
  }

  /** Two arrangements of the same elements, both ordered by a key no two elements share, are equal. */
  lemma {:induction false} SortedArrangementUnique<T>(s: seq<T>, t: seq<T>, key: T -> int)
    requires SortedBy(s, key) && SortedBy(t, key) && multiset(s) == multiset(t)
    requires DistinctKeys(s, key)
    ensures s == t
    decreases |s|
  {
    if |s| == 0 {
      assert |t| == |multiset(t)| == 0;
    } else {
      SortedArrangementsShareHead(s, t, key);
      SameTails(s, t);
      assert SortedBy(s[1..], key) && SortedBy(t[1..], key) && DistinctKeys(s[1..], key);
      SortedArrangementUnique(s[1..], t[1..], key);
      assert s == [s[0]] + s[1..] && t == [t[0]] + t[1..];
    }
  }

  /** With increasing ids along `active`, the gated entries are already in id order. */
  lemma SortedArrangementIsGated(active: seq<Assignment>, ds: seq<AssignmentDetails>,
                                 taskRequirement: int, out: seq<AssignmentDetails>)
    requires IncreasingIds(active) && EntriesOf(ds, active)
    requires SortedById(out)
    requires multiset(out) == multiset(Gate(ds, taskRequirement))
    ensures out == Gate(ds, taskRequirement)
  {
    var g := Gate(ds, taskRequirement);
    GateKeepsFields(ds, taskRequirement);
    var id := (d: AssignmentDetails) => d.id;
    assert SortedBy(out, id);
    SortedArrangementUnique(g, out, id);
  }

  /**
   * When the active assignments come in increasing id order, the id-sorted
   * output is the gated list itself: the lowest id is unlocked, and each
   * later entry is unlocked exactly when the entry before it finished enough
   * tasks.
   */
  lemma SortedCatalogKeepsGateOrder(data: RawStudentData, catalog: seq<Assignment>, types: seq<PowerupType>,
                                    taskRequirement: int, hintOf: Oracle<string>, pointsOf: Oracle<int>,
                                    out: seq<AssignmentDetails>)
    requires IncreasingIds(ActiveOf(catalog))
    requires MergeAll(data, ActiveOf(catalog), types, hintOf, pointsOf).Success?
    requires SortedById(out)
    requires multiset(out) == multiset(Gate(MergeAll(data, ActiveOf(catalog), types, hintOf, pointsOf).value, taskRequirement))
    ensures out == Gate(MergeAll(data, ActiveOf(catalog), types, hintOf, pointsOf).value, taskRequirement)
    ensures |out| > 0 ==> out[0].unlocked
    ensures forall i :: 0 < i < |out| ==> (out[i].unlocked <==> out[i - 1].tasksFullyFinished >= taskRequirement)
  {
    var ds := MergeAll(data, ActiveOf(catalog), types, hintOf, pointsOf).value;
    MergeKeepsIdentity(data, ActiveOf(catalog), types, hintOf, pointsOf);
    SortedArrangementIsGated(ActiveOf(catalog), ds, taskRequirement, out);
    GateRule(ds, taskRequirement);
    GateKeepsFields(ds, taskRequirement);
  }
}
