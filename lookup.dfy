/** The list searches the service relies on: `findIndex` and `find`. */
module Lookup {
  import opened Wrappers
  import opened GameTypes

  /** The index of the first element satisfying `p`, or -1 when there is none. */
  function FindIndex<T>(s: seq<T>, p: T -> bool): (i: int)
    ensures -1 <= i < |s|
    ensures i == -1 <==> forall k :: 0 <= k < |s| ==> !p(s[k])
    ensures 0 <= i ==> p(s[i]) && forall k :: 0 <= k < i ==> !p(s[k])
  {
    if |s| == 0 then -1
    else if p(s[0]) then 0
    else
      var j := FindIndex(s[1..], p);
      if j == -1 then -1 else j + 1
  }

  /** The first element satisfying `p`, as `find` returns it. */
  function Find<T>(s: seq<T>, p: T -> bool): (r: Option<T>)
    ensures r.None? <==> forall k :: 0 <= k < |s| ==> !p(s[k])
    ensures r.Some? ==> exists k :: 0 <= k < |s| && s[k] == r.value && p(r.value)
                                    && forall j :: 0 <= j < k ==> !p(s[j])
  {
    var k := FindIndex(s, p);
    if k == -1 then None else Some(s[k])
  }

  /** The first powerup catalog entry with the given id, as `find` returns it. */
  function FindType(types: seq<PowerupType>, typeId: int): (r: Option<PowerupType>)
    ensures r.None? <==> forall k :: 0 <= k < |types| ==> types[k].id != typeId
    ensures r.Some? ==> r.value in types && r.value.id == typeId
    ensures r.Some? ==> exists k :: 0 <= k < |types| && types[k] == r.value
                                    && forall j :: 0 <= j < k ==> types[j].id != typeId
  {
    Find(types, (t: PowerupType) => t.id == typeId)
  }
}
