/**
 * The powerup usage resolver (uup-game-service.ts, lines 319-344): which
 * powerups were spent on one assignment, and how many of each name the
 * student still holds.
 */
module Powerups {
  import opened Wrappers
  import opened GameTypes
  import opened Lookup

  // ---------------------------------------------------------------------------
  // Used powerups of one assignment
  // ---------------------------------------------------------------------------

  /** A log record that shows up in the used list of `assignmentId`. */
  predicate CountsAsUsed(rec: PowerupRecord, types: seq<PowerupType>, assignmentId: int) {
    FindType(types, rec.typeId).Some? && rec.used && rec.assignmentId == assignmentId
  }

  /** The entry such a record becomes: the catalog name and the task number. */
  function UsedEntry(rec: PowerupRecord, types: seq<PowerupType>): UsedPowerup
    requires FindType(types, rec.typeId).Some?
  {
    UsedPowerup(FindType(types, rec.typeId).value.name, rec.taskNumber)
  }

  /** The used powerups of `assignmentId` found in `log`, in log order. */
  function UsedOf(log: seq<PowerupRecord>, types: seq<PowerupType>, assignmentId: int): seq<UsedPowerup>
  {
    if |log| == 0 then []
    else
      var rest := UsedOf(log[..|log| - 1], types, assignmentId);
      var rec := log[|log| - 1];
      if CountsAsUsed(rec, types, assignmentId) then rest + [UsedEntry(rec, types)] else rest
  }

  method MapUsedPowerupData(log: seq<PowerupRecord>, types: seq<PowerupType>, assignmentId: int)
    returns (used: seq<UsedPowerup>)
    ensures used == UsedOf(log, types, assignmentId)
  {
    used := [];
    if |log| == 0 {
      return [];
    }
    for i := 0 to |log|
      invariant used == UsedOf(log[..i], types, assignmentId)
    {
      var rec := log[i];
      var typeData := FindType(types, rec.typeId);
      if typeData.Some? && rec.used && assignmentId == rec.assignmentId {
        used := used + [UsedPowerup(typeData.value.name, rec.taskNumber)];
      }
      assert log[..i + 1][..i] == log[..i];
    }
    assert log[..|log|] == log;
  }

  /** Resolving a concatenated log gives the two resolutions one after the other. */
  lemma {:induction false} UsedOfAppend(a: seq<PowerupRecord>, b: seq<PowerupRecord>, types: seq<PowerupType>, id: int)
    ensures UsedOf(a + b, types, id) == UsedOf(a, types, id) + UsedOf(b, types, id)
    decreases |b|
  {
    if |b| == 0 {
      assert a + b == a;
    } else {
      var b' := b[..|b| - 1];
      assert (a + b)[..|a + b| - 1] == a + b';
      assert (a + b)[|a + b| - 1] == b[|b| - 1];
      UsedOfAppend(a, b', types, id);
    }
  }

  /** A single record yields its entry exactly when it counts as used. */
  lemma UsedOfSingle(rec: PowerupRecord, types: seq<PowerupType>, id: int)
    ensures UsedOf([rec], types, id) == if CountsAsUsed(rec, types, id) then [UsedEntry(rec, types)] else []
  {
    assert [rec][..0] == [];
  }

  /** Every used entry comes from a used record of this assignment with a known type id. */
  lemma {:induction false} UsedOfSound(log: seq<PowerupRecord>, types: seq<PowerupType>, id: int)
    ensures forall u :: u in UsedOf(log, types, id) ==>
              exists k :: 0 <= k < |log| && CountsAsUsed(log[k], types, id) && u == UsedEntry(log[k], types)
  {
    if |log| > 0 {
      var prefix := log[..|log| - 1];
      UsedOfSound(prefix, types, id);
      forall u | u in UsedOf(log, types, id)
        ensures exists k :: 0 <= k < |log| && CountsAsUsed(log[k], types, id) && u == UsedEntry(log[k], types)
      {
        if u in UsedOf(prefix, types, id) {
          var k :| 0 <= k < |prefix| && CountsAsUsed(prefix[k], types, id) && u == UsedEntry(prefix[k], types);
          assert log[k] == prefix[k];
        } else {
          assert CountsAsUsed(log[|log| - 1], types, id) && u == UsedEntry(log[|log| - 1], types);
        }
      }
    }
  }

  /** Every used record of this assignment with a known type id yields an entry. */
  lemma {:induction false} UsedOfComplete(log: seq<PowerupRecord>, types: seq<PowerupType>, id: int)
    ensures forall k :: 0 <= k < |log| && CountsAsUsed(log[k], types, id) ==>
              UsedEntry(log[k], types) in UsedOf(log, types, id)
  {
    if |log| > 0 {
      var prefix := log[..|log| - 1];
      UsedOfComplete(prefix, types, id);
      forall k | 0 <= k < |log| && CountsAsUsed(log[k], types, id)
        ensures UsedEntry(log[k], types) in UsedOf(log, types, id)
      {
        if k < |log| - 1 {
          assert log[k] == prefix[k];
        }
      }
    }
  }

  /** Unknown powerup types never surface: every entry names a catalog entry. */
  lemma UsedNamesAreCatalogNames(log: seq<PowerupRecord>, types: seq<PowerupType>, id: int)
    ensures forall u :: u in UsedOf(log, types, id) ==> exists t :: t in types && t.name == u.name
  {
    UsedOfSound(log, types, id);
  }

  // ---------------------------------------------------------------------------
  // Unused powerups, tallied by name over the whole student
  // ---------------------------------------------------------------------------

  /** Add one powerup of `name` to a tally: bump its amount, or append it with amount 1. */
  function Bump(tally: seq<UnusedPowerup>, name: string): seq<UnusedPowerup>
  {
    var k := FindIndex(tally, (x: UnusedPowerup) => x.name == name);
    if k == -1 then tally + [UnusedPowerup(name, 1)]
    else tally[k := tally[k].(amount := tally[k].amount + 1)]
  }

  /** The tally of unused powerups with a known type id in `log`. */
  function TallyOf(log: seq<PowerupRecord>, types: seq<PowerupType>): seq<UnusedPowerup>
  {
    if |log| == 0 then []
    else
      var rest := TallyOf(log[..|log| - 1], types);
      var rec := log[|log| - 1];
      match FindType(types, rec.typeId)
      case Some(t) => if !rec.used then Bump(rest, t.name) else rest
      case None => rest
  }

  method MapUnusedPowerupData(log: seq<PowerupRecord>, types: seq<PowerupType>)
    returns (unused: seq<UnusedPowerup>)
    ensures unused == TallyOf(log, types)
  {
    unused := [];
    if |log| == 0 {
      return [];
    }
    for i := 0 to |log|
      invariant unused == TallyOf(log[..i], types)
    {
      var rec := log[i];
      var typeData := FindType(types, rec.typeId);
      assert log[..i + 1][..i] == log[..i];
      if typeData.Some? && !rec.used {
        var name := typeData.value.name;
        var index := FindIndex(unused, (x: UnusedPowerup) => x.name == name);
        if index == -1 {
          unused := unused + [UnusedPowerup(name, 1)];
        } else {
          unused := unused[index := unused[index].(amount := unused[index].amount + 1)];
        }
      }
    }
    assert log[..|log|] == log;
  }

  // The reference the tally is judged against: the names of the unused
  // records with a known type id, in log order.

  function UnusedNames(log: seq<PowerupRecord>, types: seq<PowerupType>): seq<string>
  {
    if |log| == 0 then []
    else
      var rest := UnusedNames(log[..|log| - 1], types);
      var rec := log[|log| - 1];
      match FindType(types, rec.typeId)
      case Some(t) => if !rec.used then rest + [t.name] else rest
      case None => rest
  }

  /** The distinct elements of `s` in order of first occurrence. */
  function FirstOccurrences(s: seq<string>): seq<string>
  {
    if |s| == 0 then []
    else
      var rest := FirstOccurrences(s[..|s| - 1]);
      if s[|s| - 1] in s[..|s| - 1] then rest else rest + [s[|s| - 1]]
  }

  function Names(tally: seq<UnusedPowerup>): (r: seq<string>)
    ensures |r| == |tally| && forall k :: 0 <= k < |tally| ==> r[k] == tally[k].name
  {
    seq(|tally|, k requires 0 <= k < |tally| => tally[k].name)
  }

  function TotalAmount(tally: seq<UnusedPowerup>): int
  {
    if |tally| == 0 then 0 else TotalAmount(tally[..|tally| - 1]) + tally[|tally| - 1].amount
  }

  lemma {:induction false} FirstOccurrencesMembers(s: seq<string>)
    ensures forall x :: x in FirstOccurrences(s) <==> x in s
  {
    if |s| > 0 {
      FirstOccurrencesMembers(s[..|s| - 1]);
      assert s == s[..|s| - 1] + [s[|s| - 1]];
    }
  }

  lemma {:induction false} FirstOccurrencesDistinct(s: seq<string>)
    ensures forall i, j :: 0 <= i < j < |FirstOccurrences(s)| ==> FirstOccurrences(s)[i] != FirstOccurrences(s)[j]
  {
    if |s| > 0 {
      FirstOccurrencesDistinct(s[..|s| - 1]);
      FirstOccurrencesMembers(s[..|s| - 1]);
    }
  }

  /** What the tally keeps about the names it has seen. */
  ghost predicate TallyOfNames(tally: seq<UnusedPowerup>, names: seq<string>)
  {
    && Names(tally) == FirstOccurrences(names)
    && (forall k :: 0 <= k < |tally| ==> tally[k].amount == multiset(names)[tally[k].name])
    && TotalAmount(tally) == |names|
  }

  lemma {:induction false} TotalAmountBump(tally: seq<UnusedPowerup>, k: int)
    requires 0 <= k < |tally|
    ensures TotalAmount(tally[k := tally[k].(amount := tally[k].amount + 1)]) == TotalAmount(tally) + 1
    decreases |tally|
  {
    var t' := tally[k := tally[k].(amount := tally[k].amount + 1)];
    var n := |tally|;
    if k < n - 1 {
      assert t'[..n - 1] == tally[..n - 1][k := tally[k].(amount := tally[k].amount + 1)];
      TotalAmountBump(tally[..n - 1], k);
    } else {
      assert t'[..n - 1] == tally[..n - 1];
    }
  }

  lemma BumpKeeps(tally: seq<UnusedPowerup>, names: seq<string>, name: string)
    requires TallyOfNames(tally, names)
    ensures TallyOfNames(Bump(tally, name), names + [name])
  {
    var names' := names + [name];
    assert names'[..|names'| - 1] == names;
    FirstOccurrencesMembers(names);
    var k := FindIndex(tally, (x: UnusedPowerup) => x.name == name);
    var t' := Bump(tally, name);
    if k == -1 {
      assert name !in Names(tally);
      assert Names(t') == Names(tally) + [name];
      assert TotalAmount(t'[..|t'| - 1]) == TotalAmount(tally) by { assert t'[..|t'| - 1] == tally; }
      forall j | 0 <= j < |t'|
        ensures t'[j].amount == multiset(names')[t'[j].name]
      {
        if j < |tally| {
          assert tally[j].name in Names(tally);
          assert tally[j].name != name;
        } else {
          assert name !in multiset(names);
        }
      }
    } else {
      assert name in Names(tally);
      assert Names(t') == Names(tally);
      TotalAmountBump(tally, k);
      FirstOccurrencesDistinct(names);
      forall j | 0 <= j < |t'|
        ensures t'[j].amount == multiset(names')[t'[j].name]
      {
        if j != k {
          assert Names(tally)[j] != Names(tally)[k];
        }
      }
    }
  }

  /** The tally agrees with the reference: names, amounts and their sum. */
  lemma {:induction false} TallyMatchesNames(log: seq<PowerupRecord>, types: seq<PowerupType>)
    ensures TallyOfNames(TallyOf(log, types), UnusedNames(log, types))
  {
    if |log| > 0 {
      var prefix := log[..|log| - 1];
      TallyMatchesNames(prefix, types);
      var rec := log[|log| - 1];
      match FindType(types, rec.typeId)
      case Some(t) =>
        if !rec.used {
          BumpKeeps(TallyOf(prefix, types), UnusedNames(prefix, types), t.name);
        }
      case None =>
    }
  }

  /**
   * The properties the source promises of the tally: names pairwise
   * distinct and in order of first occurrence, every amount at least 1 and
   * equal to the number of unused records of that name, amounts summing to
   * the number of unused records with a known type id.
   */
  lemma TallyProperties(log: seq<PowerupRecord>, types: seq<PowerupType>)
    ensures var tally, names := TallyOf(log, types), UnusedNames(log, types);
      && Names(tally) == FirstOccurrences(names)
      && (forall i, j :: 0 <= i < j < |tally| ==> tally[i].name != tally[j].name)
      && (forall k :: 0 <= k < |tally| ==> 1 <= tally[k].amount == multiset(names)[tally[k].name])
      && (forall n :: n in names <==> exists k :: 0 <= k < |tally| && tally[k].name == n)
      && TotalAmount(tally) == |names|
  {
    var tally, names := TallyOf(log, types), UnusedNames(log, types);
    TallyMatchesNames(log, types);
    FirstOccurrencesDistinct(names);
    FirstOccurrencesMembers(names);
    forall i, j | 0 <= i < j < |tally| ensures tally[i].name != tally[j].name {
      assert Names(tally)[i] != Names(tally)[j];
    }
    forall k | 0 <= k < |tally| ensures 1 <= tally[k].amount {
      assert Names(tally)[k] in FirstOccurrences(names);
    }
    forall n ensures n in names <==> exists k :: 0 <= k < |tally| && tally[k].name == n {
      if n in names {
        assert n in Names(tally);
        var k :| 0 <= k < |tally| && Names(tally)[k] == n;
      }
    }
  }

  /** The reference names are those of the unused records with a known type id. */
  lemma {:induction false} UnusedNamesSound(log: seq<PowerupRecord>, types: seq<PowerupType>)
    ensures forall n :: n in UnusedNames(log, types) ==>
              exists k :: 0 <= k < |log| && !log[k].used && FindType(types, log[k].typeId).Some?
                          && FindType(types, log[k].typeId).value.name == n
  {
    if |log| > 0 {
      var prefix := log[..|log| - 1];
      UnusedNamesSound(prefix, types);
      forall n | n in UnusedNames(log, types)
        ensures exists k :: 0 <= k < |log| && !log[k].used && FindType(types, log[k].typeId).Some?
                            && FindType(types, log[k].typeId).value.name == n
      {
        if n in UnusedNames(prefix, types) {
          var k :| 0 <= k < |prefix| && !prefix[k].used && FindType(types, prefix[k].typeId).Some?
                   && FindType(types, prefix[k].typeId).value.name == n;
          assert log[k] == prefix[k];
        }
      }
    }
  }

  /** The worked example: two unused hints and one unused second chance. */
  lemma TallyExample()
    ensures TallyOf([PowerupRecord(1, false, 0, 0), PowerupRecord(1, false, 0, 0), PowerupRecord(2, false, 0, 0)],
                    [PowerupType(1, "Hint", 0), PowerupType(2, "Second Chance", 0)])
         == [UnusedPowerup("Hint", 2), UnusedPowerup("Second Chance", 1)]
  {
    var types := [PowerupType(1, "Hint", 0), PowerupType(2, "Second Chance", 0)];
    var h := PowerupRecord(1, false, 0, 0);
    var s := PowerupRecord(2, false, 0, 0);
    var log := [h, h, s];
    assert log[..2] == [h, h] && [h, h][..1] == [h] && [h][..0] == [];
    assert FindType(types, 1) == Some(types[0]);
    assert FindType(types, 2) == Some(types[1]);
    assert TallyOf([h], types) == [UnusedPowerup("Hint", 1)];
    assert TallyOf([h, h], types) == [UnusedPowerup("Hint", 2)];
  }
}
