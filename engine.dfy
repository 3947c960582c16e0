/**
 * The receiving loop of the repository on the value level: what one tick
 * (drain, then report and reconcile) and a run of ticks do to the observable
 * state. The class in module Repository is proved to follow these functions.
 */
module Engine {
  import opened Wrappers
  import opened Beacons
  import opened Payload
  import opened Progress

  /** The arguments of one `watchSyncRepository.sendData` call. */
  datatype WatchData = WatchData(
    discoveredCount: int,
    nearestBeaconStrength: Option<int>,
    currentDiscoveredBeaconId: Option<int>,
    isGameEnded: bool)

  /**
   * Everything a cycle can change or emit: the progress fields, the loaded
   * configuration, the queries sent to the proximity endpoint, the values
   * sent on the proximity-info channel and the updates sent to the watch.
   */
  datatype GameState = GameState(
    progress: ProgressState,
    gameConfig: Option<GameConfig>,
    proximityQueries: seq<string>,
    proximityInfos: seq<Option<ProximityInfo>>,
    watchUpdates: seq<WatchData>)

  /**
   * The query string `sendBeaconsInfo` sends, or `None` when it returns
   * before making the request. A request is made exactly when some sighting
   * is valid, and the decoder reads from it exactly the aggregated pairs.
   */
  function BeaconsQuery(beacons: seq<BeaconInfo>, hash: string -> string): (q: Option<string>)
    ensures q.None? <==> forall b :: b in beacons ==> !IsValid(b)
    ensures q.Some? && SeparatorFree(hash) ==>
      DecodeBeacons(q.value) == Some(Pairs(OnlyLast(beacons), hash))
  {
    var onlyLast := OnlyLast(beacons);
    OnlyLastEmpty(beacons);
    if onlyLast == [] then None
    else Some(BeaconsString(onlyLast, hash))
  }

  /** The queries logged by one call: none, or the one that was sent. */
  function QueryLog(q: Option<string>): seq<string> {
    if q.Some? then [q.value] else []
  }

  /**
   * The result of `sendBeaconsInfo`, where `response` is the endpoint's
   * answer (`None` when the call throws): null when no sighting is valid,
   * without a request, and the answer otherwise.
   */
  function SendBeaconsInfo(beacons: seq<BeaconInfo>, hash: string -> string, response: Option<ProximityInfo>): (info: Option<ProximityInfo>)
    ensures (forall b :: b in beacons ==> !IsValid(b)) ==> info == None
    ensures (exists b :: b in beacons && IsValid(b)) ==> info == response
  {
    if BeaconsQuery(beacons, hash).None? then None else response
  }

  /** The body of the `async` block started for a non-empty batch. */
  function CycleStep(s: GameState, scanResults: seq<BeaconInfo>, hash: string -> string, response: Option<ProximityInfo>): (r: GameState)
    ensures s.progress.isGameEnded ==> r == s
    ensures r.gameConfig == s.gameConfig
    ensures !s.progress.isGameEnded ==>
      r.proximityQueries == s.proximityQueries + QueryLog(BeaconsQuery(scanResults, hash))
    ensures !s.progress.isGameEnded && s.gameConfig.None? ==>
      r == s.(proximityQueries := r.proximityQueries)
    ensures !s.progress.isGameEnded && s.gameConfig.Some? ==>
      var info := SendBeaconsInfo(scanResults, hash, response);
      && r.progress == Reconcile(s.progress, info, s.gameConfig.value)
      && r.proximityInfos == s.proximityInfos + [info]
      && r.watchUpdates == s.watchUpdates + [WatchData(
           |CollectedIds(r.progress)|,
           if info.Some? then info.value.nearestBeaconStrength else None,
           r.progress.currentDiscoveredBeaconId,
           r.progress.isGameEnded)]
  {
    if s.progress.isGameEnded then s
    else
      var info := SendBeaconsInfo(scanResults, hash, response);
      var queries := s.proximityQueries + QueryLog(BeaconsQuery(scanResults, hash));
      match s.gameConfig
      case None => s.(proximityQueries := queries)
      case Some(config) =>
        var p := Reconcile(s.progress, info, config);
        var count := if info.Some? then |info.value.discoveredBeaconsIds| else 0;
        var nearest := if info.Some? then info.value.nearestBeaconStrength else None;
        GameState(p, s.gameConfig, queries, s.proximityInfos + [info],
                  s.watchUpdates + [WatchData(count, nearest, p.currentDiscoveredBeaconId, p.isGameEnded)])
  }

  /** One iteration of the receiving loop, given everything the channel held. */
  function TickStep(s: GameState, pending: seq<BeaconInfo>, hash: string -> string, response: Option<ProximityInfo>): (r: GameState)
    ensures pending == [] ==> r == s
    ensures s.progress.isGameEnded ==> r == s
    ensures r.gameConfig == s.gameConfig
    ensures s.proximityQueries <= r.proximityQueries
    ensures s.proximityInfos <= r.proximityInfos && s.watchUpdates <= r.watchUpdates
    ensures |r.watchUpdates| - |s.watchUpdates| == |r.proximityInfos| - |s.proximityInfos| <= 1
  {
    if pending == [] then s else CycleStep(s, pending, hash, response)
  }

  /** What reaches the channel before one tick, and the endpoint's answer in that tick. */
  datatype Round = Round(arrivals: seq<BeaconInfo>, response: Option<ProximityInfo>)

  /**
   * A run of the receiving loop: `buffer` is what the channel held before the
   * first round. The loop never changes the configuration and only appends to
   * what it emits; each round reconciles at most once, and every reconciled
   * cycle emits exactly one proximity value and one watch update.
   */
  function Run(s: GameState, buffer: seq<BeaconInfo>, rounds: seq<Round>, hash: string -> string): (r: GameState)
    ensures r.gameConfig == s.gameConfig
    ensures s.proximityQueries <= r.proximityQueries
    ensures s.proximityInfos <= r.proximityInfos && s.watchUpdates <= r.watchUpdates
    ensures |r.watchUpdates| - |s.watchUpdates| == |r.proximityInfos| - |s.proximityInfos| <= |rounds|
    decreases |rounds|
  {
    if rounds == [] then s
    else Run(TickStep(s, buffer + rounds[0].arrivals, hash, rounds[0].response), [], rounds[1..], hash)
  }

  /** Once the game is over, no later tick changes or emits anything. */
  lemma {:induction false} RunAfterGameOver(s: GameState, buffer: seq<BeaconInfo>, rounds: seq<Round>, hash: string -> string)
    requires s.progress.isGameEnded
    ensures Run(s, buffer, rounds, hash) == s
    decreases |rounds|
  {
    if rounds != [] {
      RunAfterGameOver(s, [], rounds[1..], hash);
    }
  }

  /** The game is over only when the collected ids number the configured winner count. */
  ghost predicate GameOverJustified(s: GameState) {
    s.progress.isGameEnded ==>
      s.gameConfig.Some? && |CollectedIds(s.progress)| == s.gameConfig.value.winnerCount
  }

  /** Ticks keep game over justified. */
  lemma {:induction false} RunKeepsGameOverJustified(s: GameState, buffer: seq<BeaconInfo>, rounds: seq<Round>, hash: string -> string)
    requires GameOverJustified(s)
    ensures GameOverJustified(Run(s, buffer, rounds, hash))
    decreases |rounds|
  {
    if rounds != [] {
      var next := TickStep(s, buffer + rounds[0].arrivals, hash, rounds[0].response);
      assert GameOverJustified(next);
      RunKeepsGameOverJustified(next, [], rounds[1..], hash);
    }
  }

  /**
   * The first reconciled cycle after start never announces a discovery; the
   * next one announces the first id it discovers that the first did not.
   */
  lemma FirstRunSuppressed(s: GameState, scan1: seq<BeaconInfo>, response1: Option<ProximityInfo>,
                           scan2: seq<BeaconInfo>, response2: Option<ProximityInfo>, hash: string -> string)
    requires s.progress.isFirstRun && !s.progress.isGameEnded && s.gameConfig.Some?
    requires scan1 != [] && scan2 != []
    ensures var s1 := TickStep(s, scan1, hash, response1);
      && s1.progress.currentDiscoveredBeaconId == s.progress.currentDiscoveredBeaconId
      && !s1.progress.isFirstRun
    ensures var s1 := TickStep(s, scan1, hash, response1);
      var s2 := TickStep(s1, scan2, hash, response2);
      var first := DiscoveredIds(SendBeaconsInfo(scan1, hash, response1));
      var second := DiscoveredIds(SendBeaconsInfo(scan2, hash, response2));
      !s1.progress.isGameEnded ==>
        && (s2.progress.currentDiscoveredBeaconId.None? <==> forall x :: x in second ==> x in first)
        && forall k :: IsFirstNew(k, second, first) ==> s2.progress.currentDiscoveredBeaconId == Some(second[k])
  {
  }

  /**
   * After the collected ids were emptied (as `resetCookies` does), a cycle
   * whose answer discovers [3] announces 3, collects [3], and ends the game
   * only for a winner count of 1.
   */
  lemma CycleAfterReset(s: GameState, scan: seq<BeaconInfo>, hash: string -> string, nearest: Option<int>)
    requires s.progress.collectedSpotIds == Some([])
    requires !s.progress.isGameEnded && !s.progress.isFirstRun && s.gameConfig.Some?
    requires exists b :: b in scan && IsValid(b)
    ensures var r := CycleStep(s, scan, hash, Some(ProximityInfo([3], nearest)));
      && r.progress.collectedSpotIds == Some([3])
      && r.progress.currentDiscoveredBeaconId == Some(3)
      && (r.progress.isGameEnded <==> s.gameConfig.value.winnerCount == 1)
  {
    assert IsFirstNew(0, [3], []);
  }
}
