/**
 * The aggregation step of `sendBeaconsInfo`: the sightings drained in one tick are
 * filtered (`rssi < 0`), reversed, and deduplicated by beacon name (`distinctBy`),
 * so that the batch keeps, for every beacon, only its last-arriving valid reading.
 */
module Beacons {

  /** One sighting from the scanner: the beacon's name and its signal strength. */
  datatype BeaconInfo = BeaconInfo(name: string, rssi: int)

  /** A reading is usable only when its signal strength is negative. */
  predicate IsValid(b: BeaconInfo) {
    b.rssi < 0
  }

  /** `filter { it.rssi < 0 }`: the valid sightings, in arrival order. */
  function OnlyValid(bs: seq<BeaconInfo>): (r: seq<BeaconInfo>)
    ensures forall b :: b in r <==> b in bs && IsValid(b)
    ensures |r| <= |bs|
  {
    if bs == [] then []
    else (if IsValid(bs[0]) then [bs[0]] else []) + OnlyValid(bs[1..])
  }

  /** `reversed()`: the sequence read back to front. */
  function Reversed<T>(s: seq<T>): (r: seq<T>)
    ensures |r| == |s|
    ensures forall i :: 0 <= i < |s| ==> r[i] == s[|s| - 1 - i]
  {
    if s == [] then [] else [s[|s| - 1]] + Reversed(s[..|s| - 1])
  }

  /**
   * `distinctBy { it.name }`, where `seen` holds the names already taken:
   * scans left to right and keeps an element only when its name is new.
   */
  function DistinctByName(s: seq<BeaconInfo>, seen: set<string>): (r: seq<BeaconInfo>)
    ensures |r| <= |s|
    ensures forall b :: b in r ==> b in s && b.name !in seen
  {
    if s == [] then []
    else if s[0].name in seen then DistinctByName(s[1..], seen)
    else [s[0]] + DistinctByName(s[1..], seen + {s[0].name})
  }

  /** No two elements kept by `distinctBy` share a name. */
  lemma {:induction false} DistinctByNameDistinct(s: seq<BeaconInfo>, seen: set<string>)
    ensures forall i, j :: 0 <= i < j < |DistinctByName(s, seen)| ==>
      DistinctByName(s, seen)[i].name != DistinctByName(s, seen)[j].name
  {
    if s != [] {
      if s[0].name in seen {
        DistinctByNameDistinct(s[1..], seen);
      } else {
        var rest := DistinctByName(s[1..], seen + {s[0].name});
        DistinctByNameDistinct(s[1..], seen + {s[0].name});
        var r := [s[0]] + rest;
        forall i, j | 0 <= i < j < |r| ensures r[i].name != r[j].name {
          assert r[j] == rest[j - 1];
          assert rest[j - 1] in rest;
        }
      }
    }
  }

  /** `distinctBy` keeps the first element of every name not already seen. */
  lemma {:induction false} DistinctByNameKeepsFirst(s: seq<BeaconInfo>, seen: set<string>)
    ensures forall k :: 0 <= k < |s| && s[k].name !in seen && (forall j :: 0 <= j < k ==> s[j].name != s[k].name) ==>
      s[k] in DistinctByName(s, seen)
  {
    if s != [] {
      var tail := s[1..];
      var seen' := if s[0].name in seen then seen else seen + {s[0].name};
      DistinctByNameKeepsFirst(tail, seen');
      forall k | 0 < k < |s| && s[k].name !in seen && (forall j :: 0 <= j < k ==> s[j].name != s[k].name)
        ensures s[k] in DistinctByName(s, seen)
      {
        assert s[0].name != s[k].name;
        assert s[k] == tail[k - 1];
        forall j | 0 <= j < k - 1 ensures tail[j].name != tail[k - 1].name {
          assert tail[j] == s[j + 1];
        }
      }
    }
  }

  /** The `onlyLast` list of `sendBeaconsInfo`. */
  function OnlyLast(beacons: seq<BeaconInfo>): (r: seq<BeaconInfo>)
    ensures |r| <= |beacons|
    ensures forall i, j :: 0 <= i < j < |r| ==> r[i].name != r[j].name
  {
    var candidates := Reversed(OnlyValid(beacons));
    DistinctByNameDistinct(candidates, {});
    DistinctByName(candidates, {})
  }

  /**
   * Index of the last valid sighting of `name` in arrival order, or -1 when
   * there is none (Kotlin's `indexOfLast`).
   */
  function LastValidIndex(bs: seq<BeaconInfo>, name: string): (k: int)
    ensures -1 <= k < |bs|
    ensures 0 <= k ==> bs[k].name == name && IsValid(bs[k])
  {
    if bs == [] then -1
    else if bs[|bs| - 1].name == name && IsValid(bs[|bs| - 1]) then |bs| - 1
    else LastValidIndex(bs[..|bs| - 1], name)
  }

  /** No valid sighting of `name` arrives after the one `LastValidIndex` picks. */
  lemma {:induction false} LastValidIndexIsLast(bs: seq<BeaconInfo>, name: string)
    ensures forall j :: LastValidIndex(bs, name) < j < |bs| ==> !(bs[j].name == name && IsValid(bs[j]))
  {
    if bs != [] {
      var init := bs[..|bs| - 1];
      LastValidIndexIsLast(init, name);
      assert forall j :: 0 <= j < |init| ==> bs[j] == init[j];
    }
  }

  /** The elements of `s` whose name differs from `name`, in order. */
  function DropName(s: seq<BeaconInfo>, name: string): (r: seq<BeaconInfo>)
    ensures forall b :: b in r <==> b in s && b.name != name
  {
    if s == [] then []
    else (if s[0].name == name then [] else [s[0]]) + DropName(s[1..], name)
  }

  /** The entries of `s` appear by decreasing index of their last valid sighting in `bs`. */
  ghost predicate ByLastArrival(s: seq<BeaconInfo>, bs: seq<BeaconInfo>) {
    forall i, j :: 0 <= i < j < |s| ==> LastValidIndex(bs, s[j].name) < LastValidIndex(bs, s[i].name)
  }

  lemma {:induction false} OnlyValidSnoc(bs: seq<BeaconInfo>, x: BeaconInfo)
    ensures OnlyValid(bs + [x]) == OnlyValid(bs) + (if IsValid(x) then [x] else [])
  {
    var last := if IsValid(x) then [x] else [];
    if bs == [] {
      assert bs + [x] == [x];
      assert [x][1..] == [];
    } else {
      var head := if IsValid(bs[0]) then [bs[0]] else [];
      assert (bs + [x])[0] == bs[0];
      assert (bs + [x])[1..] == bs[1..] + [x];
      calc {
        OnlyValid(bs + [x]);
        head + OnlyValid(bs[1..] + [x]);
        { OnlyValidSnoc(bs[1..], x); }
        head + (OnlyValid(bs[1..]) + last);
        (head + OnlyValid(bs[1..])) + last;
        OnlyValid(bs) + last;
      }
    }
  }

  lemma {:induction false} DropAbsent(s: seq<BeaconInfo>, name: string)
    requires forall b :: b in s ==> b.name != name
    ensures DropName(s, name) == s
  {
    if s != [] {
      DropAbsent(s[1..], name);
    }
  }

  /** Marking one more name as seen removes that name from the deduplicated result. */
  lemma {:induction false} DistinctSeenOneMore(s: seq<BeaconInfo>, seen: set<string>, name: string)
    ensures DistinctByName(s, seen + {name}) == DropName(DistinctByName(s, seen), name)
  {
    if s != [] {
      var y := s[0];
      if y.name in seen {
        DistinctSeenOneMore(s[1..], seen, name);
      } else if y.name == name {
        DropAbsent(DistinctByName(s[1..], seen + {name}), name);
      } else {
        DistinctSeenOneMore(s[1..], seen + {y.name}, name);
        assert seen + {name} + {y.name} == seen + {y.name} + {name};
      }
    }
  }

  /**
   * The batch grows by one sighting at the end: a valid sighting moves to the
   * front and supersedes the earlier entry for its name; an invalid one changes nothing.
   */
  lemma {:induction false} OnlyLastSnoc(bs: seq<BeaconInfo>, x: BeaconInfo)
    ensures OnlyLast(bs + [x]) == if IsValid(x) then [x] + DropName(OnlyLast(bs), x.name) else OnlyLast(bs)
  {
    OnlyValidSnoc(bs, x);
    var v := OnlyValid(bs);
    if IsValid(x) {
      assert OnlyValid(bs + [x]) == v + [x];
      assert (v + [x])[..|v|] == v;
      var rv := Reversed(v);
      assert Reversed(v + [x]) == [x] + rv;
      assert ([x] + rv)[1..] == rv;
      var none: set<string> := {};
      assert DistinctByName([x] + rv, none) == [x] + DistinctByName(rv, none + {x.name});
      assert none + {x.name} == {x.name};
      DistinctSeenOneMore(rv, none, x.name);
    } else {
      assert OnlyValid(bs + [x]) == v + [] == v;
    }
  }

  /** Appending one sighting moves the last valid index of its name, and of no other name. */
  lemma LastValidIndexSnoc(bs: seq<BeaconInfo>, x: BeaconInfo, name: string)
    ensures LastValidIndex(bs + [x], name) ==
      if x.name == name && IsValid(x) then |bs| else LastValidIndex(bs, name)
  {
    assert (bs + [x])[..|bs|] == bs;
  }

  /** Every entry of the aggregated batch is the last valid sighting of its beacon. */
  lemma {:induction false} OnlyLastEntriesAreLast(bs: seq<BeaconInfo>)
    ensures forall b :: b in OnlyLast(bs) ==>
      0 <= LastValidIndex(bs, b.name) && bs[LastValidIndex(bs, b.name)] == b
  {
    if bs != [] {
      var init, x := bs[..|bs| - 1], bs[|bs| - 1];
      assert bs == init + [x];
      OnlyLastEntriesAreLast(init);
      OnlyLastSnoc(init, x);
      forall b | b in OnlyLast(bs)
        ensures 0 <= LastValidIndex(bs, b.name) && bs[LastValidIndex(bs, b.name)] == b
      {
        LastValidIndexSnoc(init, x, b.name);
        if !(IsValid(x) && b == x) {
          assert b in OnlyLast(init) && (IsValid(x) ==> b.name != x.name);
          assert bs[LastValidIndex(init, b.name)] == init[LastValidIndex(init, b.name)];
        }
      }
    }
  }

  /** Order by last arrival survives appending a sighting whose name none of the entries carries. */
  lemma OrderSurvivesSnoc(s: seq<BeaconInfo>, bs: seq<BeaconInfo>, x: BeaconInfo)
    requires ByLastArrival(s, bs)
    requires forall b :: b in s ==> !(IsValid(x) && b.name == x.name)
    ensures ByLastArrival(s, bs + [x])
  {
    forall i, j | 0 <= i < j < |s|
      ensures LastValidIndex(bs + [x], s[j].name) < LastValidIndex(bs + [x], s[i].name)
    {
      assert s[i] in s && s[j] in s;
      LastValidIndexSnoc(bs, x, s[j].name);
      LastValidIndexSnoc(bs, x, s[i].name);
    }
  }

  /** An entry whose last sighting is later than all others may lead the list. */
  lemma OrderCons(x: BeaconInfo, s: seq<BeaconInfo>, bs: seq<BeaconInfo>)
    requires ByLastArrival(s, bs)
    requires forall b :: b in s ==> LastValidIndex(bs, b.name) < LastValidIndex(bs, x.name)
    ensures ByLastArrival([x] + s, bs)
  {
    forall i, j | 0 <= i < j < |[x] + s|
      ensures LastValidIndex(bs, ([x] + s)[j].name) < LastValidIndex(bs, ([x] + s)[i].name)
    {
      assert ([x] + s)[j] == s[j - 1] && s[j - 1] in s;
      if i > 0 {
        assert ([x] + s)[i] == s[i - 1];
      }
    }
  }

  /** The tail of an ordered list is ordered, and its head comes last-arrived before all of it. */
  lemma OrderTail(s: seq<BeaconInfo>, bs: seq<BeaconInfo>)
    requires s != [] && ByLastArrival(s, bs)
    ensures ByLastArrival(s[1..], bs)
    ensures forall b :: b in s[1..] ==> LastValidIndex(bs, b.name) < LastValidIndex(bs, s[0].name)
  {
    var tail := s[1..];
    forall i, j | 0 <= i < j < |tail|
      ensures LastValidIndex(bs, tail[j].name) < LastValidIndex(bs, tail[i].name)
    {
      assert tail[i] == s[i + 1] && tail[j] == s[j + 1];
    }
    forall b | b in tail ensures LastValidIndex(bs, b.name) < LastValidIndex(bs, s[0].name) {
      var i :| 0 <= i < |tail| && tail[i] == b;
      assert s[i + 1] == b;
    }
  }

  lemma {:induction false} DropKeepsOrder(s: seq<BeaconInfo>, name: string, bs: seq<BeaconInfo>)
    requires ByLastArrival(s, bs)
    ensures ByLastArrival(DropName(s, name), bs)
  {
    if s != [] {
      OrderTail(s, bs);
      DropKeepsOrder(s[1..], name, bs);
      if s[0].name != name {
        OrderCons(s[0], DropName(s[1..], name), bs);
      }
    }
  }

  /** The entries of the aggregated batch appear by reverse arrival of their last valid sightings. */
  lemma {:induction false} OnlyLastOrdered(bs: seq<BeaconInfo>)
    ensures ByLastArrival(OnlyLast(bs), bs)
  {
    if bs != [] {
      var init, x := bs[..|bs| - 1], bs[|bs| - 1];
      assert bs == init + [x];
      OnlyLastOrdered(init);
      OnlyLastSnoc(init, x);
      var prev := OnlyLast(init);
      if IsValid(x) {
        var d := DropName(prev, x.name);
        DropKeepsOrder(prev, x.name, init);
        OrderSurvivesSnoc(d, init, x);
        forall b | b in d ensures LastValidIndex(bs, b.name) < LastValidIndex(bs, x.name) {
          LastValidIndexSnoc(init, x, b.name);
          LastValidIndexSnoc(init, x, x.name);
        }
        OrderCons(x, d, bs);
      } else {
        OrderSurvivesSnoc(prev, init, x);
      }
    }
  }

  /** Every beacon with some valid sighting has an entry in the aggregated batch. */
  lemma {:induction false} OnlyLastComplete(bs: seq<BeaconInfo>)
    ensures forall k :: 0 <= k < |bs| && IsValid(bs[k]) ==>
      exists b :: b in OnlyLast(bs) && b.name == bs[k].name
  {
    if bs != [] {
      var init, x := bs[..|bs| - 1], bs[|bs| - 1];
      assert bs == init + [x];
      OnlyLastComplete(init);
      OnlyLastSnoc(init, x);
      var prev, r := OnlyLast(init), OnlyLast(bs);
      forall k | 0 <= k < |bs| && IsValid(bs[k])
        ensures exists b :: b in r && b.name == bs[k].name
      {
        if k == |init| {
          assert x in r;
        } else {
          assert bs[k] == init[k];
          var b :| b in prev && b.name == init[k].name;
          if IsValid(x) && b.name == x.name {
            assert x in r;
          } else {
            assert b in r;
          }
        }
      }
    }
  }

  /**
   * What the aggregated batch is, for every batch of sightings:
   * every entry is the last valid sighting of its beacon; entries appear by
   * reverse arrival of those last sightings (so no name appears twice); and
   * every beacon with some valid sighting has an entry.
   */
  lemma OnlyLastCorrect(bs: seq<BeaconInfo>)
    ensures forall b :: b in OnlyLast(bs) ==>
      0 <= LastValidIndex(bs, b.name) && bs[LastValidIndex(bs, b.name)] == b
    ensures forall i, j :: 0 <= i < j < |OnlyLast(bs)| ==>
      LastValidIndex(bs, OnlyLast(bs)[j].name) < LastValidIndex(bs, OnlyLast(bs)[i].name)
    ensures forall k :: 0 <= k < |bs| && IsValid(bs[k]) ==>
      exists b :: b in OnlyLast(bs) && b.name == bs[k].name
    ensures forall b, j :: b in OnlyLast(bs) && LastValidIndex(bs, b.name) < j < |bs| ==>
      !(bs[j].name == b.name && IsValid(bs[j]))
  {
    forall b | b in OnlyLast(bs)
      ensures forall j :: LastValidIndex(bs, b.name) < j < |bs| ==> !(bs[j].name == b.name && IsValid(bs[j]))
    {
      LastValidIndexIsLast(bs, b.name);
    }
    OnlyLastEntriesAreLast(bs);
    OnlyLastOrdered(bs);
    OnlyLastComplete(bs);
  }

  /** Every entry of the aggregated batch is a valid sighting of the batch. */
  lemma OnlyLastValid(bs: seq<BeaconInfo>)
    ensures forall b :: b in OnlyLast(bs) ==> b in bs && IsValid(b)
  {
    OnlyLastCorrect(bs);
  }

  /** Nothing is left after aggregation exactly when no sighting is valid. */
  lemma OnlyLastEmpty(bs: seq<BeaconInfo>)
    ensures OnlyLast(bs) == [] <==> forall b :: b in bs ==> !IsValid(b)
  {
    OnlyLastCorrect(bs);
    if OnlyLast(bs) != [] {
      assert OnlyLast(bs)[0] in OnlyLast(bs);
    }
  }

  /** `[A:-40, B:3, A:-55]` aggregates to `[A:-55]`. */
  lemma OnlyLastExample()
    ensures OnlyLast([BeaconInfo("A", -40), BeaconInfo("B", 3), BeaconInfo("A", -55)]) == [BeaconInfo("A", -55)]
  {
    var a1, b, a2 := BeaconInfo("A", -40), BeaconInfo("B", 3), BeaconInfo("A", -55);
    assert OnlyValid([a1, b, a2]) == [a1, a2] by {
      assert [a1, b, a2][1..] == [b, a2];
      assert [b, a2][1..] == [a2];
      assert [a2][1..] == [];
      assert OnlyValid([a2]) == [a2];
      assert OnlyValid([b, a2]) == [a2];
    }
    assert Reversed([a1, a2]) == [a2, a1] by {
      assert [a1, a2][..1] == [a1];
      assert [a1][..0] == [];
      assert Reversed([a1]) == [a1];
    }
    assert DistinctByName([a2, a1], {}) == [a2] by {
      var none: set<string> := {};
      assert [a2, a1][1..] == [a1];
      assert [a1][1..] == [];
      assert DistinctByName([a1], none + {"A"}) == [];
    }
  }
}
