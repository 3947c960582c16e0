/**
 * Game progress: what one reconciled cycle does with the backend's answer.
 * The ids the backend reports as discovered replace the collected ids; the
 * first discovered id not collected before is announced, except on the first
 * reconciled cycle after `startReceivingData`; the game is over when the
 * number of discovered ids equals the configured winner count.
 */
module Progress {
  import opened Wrappers

  /** The game configuration loaded from the backend. */
  datatype GameConfig = GameConfig(winnerCount: int)

  /** The backend's answer to a proximity request. */
  datatype ProximityInfo = ProximityInfo(discoveredBeaconsIds: seq<int>, nearestBeaconStrength: Option<int>)

  /**
   * The progress fields of the repository: the collected-spots store (which
   * may hold nothing at all), the live values of the current discovered
   * beacon and of game over, and the `isFirstRun` flag of the receiving loop.
   */
  datatype ProgressState = ProgressState(
    collectedSpotIds: Option<seq<int>>,
    currentDiscoveredBeaconId: Option<int>,
    isGameEnded: bool,
    isFirstRun: bool)

  /** `info?.discoveredBeaconsIds ?: emptyList()` */
  function DiscoveredIds(info: Option<ProximityInfo>): seq<int> {
    if info.Some? then info.value.discoveredBeaconsIds else []
  }

  /** `collectedSpotIds() ?: emptyList()` */
  function CollectedIds(p: ProgressState): seq<int> {
    p.collectedSpotIds.GetOr([])
  }

  /** Kotlin's `List.minus(Iterable)`: every element of `a` that does not occur in `b`, in order. */
  function Minus(a: seq<int>, b: seq<int>): (r: seq<int>)
    ensures forall x :: x in r <==> x in a && x !in b
    ensures |r| <= |a|
  {
    if a == [] then []
    else (if a[0] in b then [] else [a[0]]) + Minus(a[1..], b)
  }

  /** Kotlin's `firstOrNull()`. */
  function FirstOrNull(s: seq<int>): Option<int> {
    if s == [] then None else Some(s[0])
  }

  /** `Minus` keeps the order of `a`: it distributes over concatenation. */
  lemma {:induction false} MinusAppend(a1: seq<int>, a2: seq<int>, b: seq<int>)
    ensures Minus(a1 + a2, b) == Minus(a1, b) + Minus(a2, b)
  {
    if a1 == [] {
      assert a1 + a2 == a2;
    } else {
      assert (a1 + a2)[1..] == a1[1..] + a2;
      MinusAppend(a1[1..], a2, b);
    }
  }

  /** `k` is the position of the first element of `a` that is not in `b`. */
  predicate IsFirstNew(k: int, a: seq<int>, b: seq<int>) {
    && 0 <= k < |a|
    && a[k] !in b
    && forall j :: 0 <= j < k ==> a[j] in b
  }

  lemma {:induction false} FirstNewIdNone(discovered: seq<int>, collected: seq<int>)
    ensures FirstOrNull(Minus(discovered, collected)).None? <==>
      forall x :: x in discovered ==> x in collected
  {
    var r := Minus(discovered, collected);
    if r != [] {
      var w := r[0];
      assert w in r;
      assert w in discovered && w !in collected;
      assert FirstOrNull(r).Some?;
    } else {
      forall x | x in discovered ensures x in collected {
        assert x !in r;
      }
    }
  }

  lemma {:induction false} FirstNewIdSome(discovered: seq<int>, collected: seq<int>, k: int)
    requires IsFirstNew(k, discovered, collected)
    ensures FirstOrNull(Minus(discovered, collected)) == Some(discovered[k])
  {
    var tail := discovered[1..];
    if k == 0 {
      assert Minus(discovered, collected)[0] == discovered[0];
    } else {
      assert discovered[0] in collected;
      assert Minus(discovered, collected) == Minus(tail, collected);
      assert IsFirstNew(k - 1, tail, collected);
      FirstNewIdSome(tail, collected, k - 1);
    }
  }

  /**
   * `(discovered - collected).firstOrNull()` is the first discovered id that
   * was not collected, and null exactly when every discovered id was collected.
   */
  lemma FirstNewId(discovered: seq<int>, collected: seq<int>)
    ensures FirstOrNull(Minus(discovered, collected)).None? <==>
      forall x :: x in discovered ==> x in collected
    ensures forall k :: IsFirstNew(k, discovered, collected) ==>
      FirstOrNull(Minus(discovered, collected)) == Some(discovered[k])
  {
    FirstNewIdNone(discovered, collected);
    forall k | IsFirstNew(k, discovered, collected)
      ensures FirstOrNull(Minus(discovered, collected)) == Some(discovered[k])
    {
      FirstNewIdSome(discovered, collected, k);
    }
  }

  /**
   * One reconciled cycle, given the (possibly null) answer of the backend and
   * the loaded configuration.
   */
  function Reconcile(p: ProgressState, info: Option<ProximityInfo>, config: GameConfig): (r: ProgressState)
    ensures r.collectedSpotIds == Some(DiscoveredIds(info))
    ensures r.isGameEnded <==> |CollectedIds(r)| == config.winnerCount
    ensures !r.isFirstRun
    ensures p.isFirstRun ==> r.currentDiscoveredBeaconId == p.currentDiscoveredBeaconId
    ensures !p.isFirstRun ==> (r.currentDiscoveredBeaconId.None? <==>
      forall x :: x in DiscoveredIds(info) ==> x in CollectedIds(p))
    ensures !p.isFirstRun ==> forall k :: IsFirstNew(k, DiscoveredIds(info), CollectedIds(p)) ==>
      r.currentDiscoveredBeaconId == Some(DiscoveredIds(info)[k])
  {
    var collectedIds := CollectedIds(p);
    var discoveredIds := DiscoveredIds(info);
    var newIds := Minus(discoveredIds, collectedIds);
    FirstNewId(discoveredIds, collectedIds);
    ProgressState(
      Some(discoveredIds),
      if !p.isFirstRun then FirstOrNull(newIds) else p.currentDiscoveredBeaconId,
      |discoveredIds| == config.winnerCount,
      false)
  }

  /**
   * Winner count 2, collected [5], discovered [5, 9] on a later cycle: 9 is
   * announced, [5, 9] is collected and the game is over.
   */
  lemma ReconcileExample(current: Option<int>)
    ensures Reconcile(ProgressState(Some([5]), current, false, false),
                      Some(ProximityInfo([5, 9], None)), GameConfig(2))
         == ProgressState(Some([5, 9]), Some(9), true, false)
  {
    assert IsFirstNew(1, [5, 9], [5]);
  }

  /**
   * As the code is written, a cycle whose proximity request failed (null
   * answer) still reconciles, with nothing discovered: the collected ids are
   * emptied and the announced id is cleared.
   */
  lemma NullAnswerClearsProgress(p: ProgressState, config: GameConfig)
    requires !p.isFirstRun
    ensures Reconcile(p, None, config).collectedSpotIds == Some([])
    ensures Reconcile(p, None, config).currentDiscoveredBeaconId == None
    ensures Reconcile(p, None, config).isGameEnded <==> config.winnerCount == 0
  {
  }
}
