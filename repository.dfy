/**
 * `GameDataRepository` and the collaborators whose state it changes. The
 * collaborators are modelled as holders of the values the repository passes
 * to them; their storage, transport and observers are not part of this model.
 */
module Repository {
  import opened Wrappers
  import opened Beacons
  import opened Payload
  import opened Progress
  import opened Engine

  /** `beaconsChannel`: the buffered channel the scanner sends sightings into. */
  class BeaconChannel {
    var buffer: seq<BeaconInfo>

    constructor ()
      ensures buffer == []
    {
      buffer := [];
    }

    /** The scanner's side: a sighting joins the end of the buffer. */
    method Send(b: BeaconInfo)
      modifies this
      ensures buffer == old(buffer) + [b]
    {
      buffer := buffer + [b];
    }

    /** The scanner's side over several sightings, in order. */
    method SendAll(bs: seq<BeaconInfo>)
      modifies this
      ensures buffer == old(buffer) + bs
    {
      var j := 0;
      while j < |bs|
        invariant 0 <= j <= |bs|
        invariant buffer == old(buffer) + bs[..j]
      {
        Send(bs[j]);
        j := j + 1;
      }
      assert bs[..j] == bs;
    }

    /** `poll()`: removes and returns the oldest sighting, or null when none is buffered. */
    method Poll() returns (b: Option<BeaconInfo>)
      modifies this
      ensures old(buffer) == [] ==> b == None && buffer == []
      ensures old(buffer) != [] ==> b == Some(old(buffer)[0]) && buffer == old(buffer)[1..]
    {
      if buffer == [] {
        b := None;
      } else {
        b := Some(buffer[0]);
        buffer := buffer[1..];
      }
    }
  }

  /** The store of collected spot ids; it may hold nothing at all (null). */
  class CollectedSpotsRepository {
    var collectedSpotIds: Option<seq<int>>

    constructor (stored: Option<seq<int>>)
      ensures collectedSpotIds == stored
    {
      collectedSpotIds := stored;
    }

    method SetCollectedSpotIds(ids: seq<int>)
      modifies this
      ensures collectedSpotIds == Some(ids)
    {
      collectedSpotIds := Some(ids);
    }
  }

  /** The key-value settings the repository reads and writes. */
  class KeyValueStorage {
    var isUserRegistered: bool
    var cookies: Option<string>
    var winnerName: Option<string>

    constructor (isUserRegistered: bool, cookies: Option<string>, winnerName: Option<string>)
      ensures this.isUserRegistered == isUserRegistered
      ensures this.cookies == cookies && this.winnerName == winnerName
    {
      this.isUserRegistered := isUserRegistered;
      this.cookies := cookies;
      this.winnerName := winnerName;
    }
  }

  /** The cookie jar: the cookie in use and the cookies `banCookie` was called on. */
  class PersistentCookiesStorage {
    var lastCookie: Option<string>
    var bannedCookies: seq<Option<string>>

    constructor (lastCookie: Option<string>)
      ensures this.lastCookie == lastCookie && bannedCookies == []
    {
      this.lastCookie := lastCookie;
      bannedCookies := [];
    }

    /** `banCookie()`: the cookie in use at the call is banned. */
    method BanCookie()
      modifies this
      ensures bannedCookies == old(bannedCookies) + [lastCookie]
      ensures lastCookie == old(lastCookie)
    {
      bannedCookies := bannedCookies + [lastCookie];
    }
  }

  /** The companion-watch sync: every update sent, in order. */
  class WatchSyncRepository {
    var sentData: seq<WatchData>

    constructor ()
      ensures sentData == []
    {
      sentData := [];
    }

    method SendData(discoveredCount: int, nearestBeaconStrength: Option<int>,
                    currentDiscoveredBeaconId: Option<int>, isGameEnded: bool)
      modifies this
      ensures sentData == old(sentData) +
        [WatchData(discoveredCount, nearestBeaconStrength, currentDiscoveredBeaconId, isGameEnded)]
    {
      sentData := sentData + [WatchData(discoveredCount, nearestBeaconStrength, currentDiscoveredBeaconId, isGameEnded)];
    }
  }

  class GameDataRepository {
    const beaconsChannel: BeaconChannel
    const collectedSpotsRepository: CollectedSpotsRepository
    const storage: KeyValueStorage
    const cookiesStorage: PersistentCookiesStorage
    const watchSyncRepository: WatchSyncRepository
    /** `cityHash64().toString(16)` on a beacon name. */
    const hash: string -> string

    var gameConfig: Option<GameConfig>
    /** The value held by `_currentDiscoveredBeaconId`. */
    var currentDiscoveredBeaconId: Option<int>
    /** The value held by `_isGameEnded`. */
    var isGameEnded: bool
    /** The flag captured by the receiving loop of `startReceivingData`. */
    var isFirstRun: bool
    /** The query strings passed to the proximity endpoint, in call order. */
    var proximityQueries: seq<string>
    /** The values sent on `_proximityInfoChannel`, in order. */
    var proximityInfos: seq<Option<ProximityInfo>>

    constructor (beaconsChannel: BeaconChannel, collectedSpotsRepository: CollectedSpotsRepository,
                 storage: KeyValueStorage, cookiesStorage: PersistentCookiesStorage,
                 watchSyncRepository: WatchSyncRepository, hash: string -> string)
      ensures this.beaconsChannel == beaconsChannel
      ensures this.collectedSpotsRepository == collectedSpotsRepository
      ensures this.storage == storage && this.cookiesStorage == cookiesStorage
      ensures this.watchSyncRepository == watchSyncRepository && this.hash == hash
      ensures gameConfig == None && currentDiscoveredBeaconId == None && !isGameEnded && isFirstRun
      ensures proximityQueries == [] && proximityInfos == []
    {
      this.beaconsChannel := beaconsChannel;
      this.collectedSpotsRepository := collectedSpotsRepository;
      this.storage := storage;
      this.cookiesStorage := cookiesStorage;
      this.watchSyncRepository := watchSyncRepository;
      this.hash := hash;
      gameConfig := None;
      currentDiscoveredBeaconId := None;
      isGameEnded := false;
      isFirstRun := true;
      proximityQueries := [];
      proximityInfos := [];
    }

    /** The state the receiving loop changes and emits, as a value. */
    ghost function State(): GameState
      reads this, collectedSpotsRepository, watchSyncRepository
    {
      GameState(
        ProgressState(collectedSpotsRepository.collectedSpotIds, currentDiscoveredBeaconId, isGameEnded, isFirstRun),
        gameConfig, proximityQueries, proximityInfos, watchSyncRepository.sentData)
    }

    /** Polls the channel until it is empty: every pending sighting, in arrival order. */
    method Drain() returns (scanResults: seq<BeaconInfo>)
      modifies beaconsChannel
      ensures scanResults == old(beaconsChannel.buffer)
      ensures beaconsChannel.buffer == []
    {
      scanResults := [];
      var beacon := beaconsChannel.Poll();
      while beacon.Some?
        invariant old(beaconsChannel.buffer) ==
          scanResults + (if beacon.Some? then [beacon.value] else []) + beaconsChannel.buffer
        invariant beacon.None? ==> beaconsChannel.buffer == []
        decreases |beaconsChannel.buffer| + (if beacon.Some? then 1 else 0)
      {
        scanResults := scanResults + [beacon.value];
        beacon := beaconsChannel.Poll();
      }
    }

    /**
     * `sendBeaconsInfo`: aggregates the batch, returns null without a request
     * when nothing is left, and otherwise sends the query; `response` is the
     * endpoint's answer, `None` when the call throws.
     */
    method SendBeaconsInfo(beacons: seq<BeaconInfo>, response: Option<ProximityInfo>) returns (info: Option<ProximityInfo>)
      modifies this`proximityQueries
      ensures info == Engine.SendBeaconsInfo(beacons, hash, response)
      ensures proximityQueries == old(proximityQueries) + QueryLog(BeaconsQuery(beacons, hash))
    {
      var onlyLast := OnlyLast(beacons);
      if onlyLast == [] {
        return None;
      }
      var beaconsString := BeaconsString(onlyLast, hash);
      proximityQueries := proximityQueries + [beaconsString];
      info := response;
    }

    /** The `async` block started for a non-empty batch. */
    method ReportAndReconcile(scanResults: seq<BeaconInfo>, response: Option<ProximityInfo>)
      modifies this, collectedSpotsRepository, watchSyncRepository
      ensures State() == CycleStep(old(State()), scanResults, hash, response)
    {
      if isGameEnded {
        return;
      }
      ghost var s0 := State();
      var info := SendBeaconsInfo(scanResults, response);
      var config := gameConfig;
      if config == None {
        assert State() == s0.(proximityQueries := proximityQueries);
        return;
      }
      ghost var p := Reconcile(s0.progress, info, config.value);
      proximityInfos := proximityInfos + [info];
      var collectedIds := collectedSpotsRepository.collectedSpotIds.GetOr([]);
      var discoveredIds := DiscoveredIds(info);
      var newIds := Minus(discoveredIds, collectedIds);
      assert p == ProgressState(Some(discoveredIds),
        if !isFirstRun then FirstOrNull(newIds) else currentDiscoveredBeaconId,
        |discoveredIds| == config.value.winnerCount, false);
      if !isFirstRun {
        currentDiscoveredBeaconId := FirstOrNull(newIds);
      } else {
        isFirstRun := false;
      }
      collectedSpotsRepository.SetCollectedSpotIds(discoveredIds);
      isGameEnded := |discoveredIds| == config.value.winnerCount;
      watchSyncRepository.SendData(
        if info.Some? then |info.value.discoveredBeaconsIds| else 0,
        if info.Some? then info.value.nearestBeaconStrength else None,
        currentDiscoveredBeaconId,
        isGameEnded);
      assert State().progress == p;
    }

    /** One iteration of the receiving loop: drain, then report and reconcile a non-empty batch. */
    method Tick(response: Option<ProximityInfo>) returns (scanResults: seq<BeaconInfo>)
      modifies this, beaconsChannel, collectedSpotsRepository, watchSyncRepository
      ensures scanResults == old(beaconsChannel.buffer) && beaconsChannel.buffer == []
      ensures State() == TickStep(old(State()), scanResults, hash, response)
    {
      scanResults := Drain();
      if scanResults != [] {
        ReportAndReconcile(scanResults, response);
      }
    }

    /**
     * `startReceivingData`: sets the first-run flag, then runs one tick per
     * round, the scanner delivering that round's sightings before the tick.
     */
    method StartReceivingData(rounds: seq<Round>)
      modifies this, beaconsChannel, collectedSpotsRepository, watchSyncRepository
      ensures State() == Run(old(State()).(progress := old(State()).progress.(isFirstRun := true)),
                             old(beaconsChannel.buffer), rounds, hash)
      ensures beaconsChannel.buffer == if rounds == [] then old(beaconsChannel.buffer) else []
    {
      isFirstRun := true;
      ghost var goal := Run(State(), beaconsChannel.buffer, rounds, hash);
      var i := 0;
      while i < |rounds|
        invariant 0 <= i <= |rounds|
        invariant Run(State(), beaconsChannel.buffer, rounds[i..], hash) == goal
        invariant beaconsChannel.buffer == if i == 0 then old(beaconsChannel.buffer) else []
      {
        ghost var before := State();
        beaconsChannel.SendAll(rounds[i].arrivals);
        assert State() == before;
        var _ := Tick(rounds[i].response);
        assert rounds[i..][1..] == rounds[i + 1..];
        i := i + 1;
      }
    }

    /** `isUserRegistered()` */
    method IsUserRegistered() returns (registered: bool)
      ensures registered == storage.isUserRegistered
    {
      registered := storage.isUserRegistered;
    }

    /** `setUserRegistered(registered)`: a later `IsUserRegistered` returns `registered`. */
    method SetUserRegistered(registered: bool)
      modifies storage
      ensures storage.isUserRegistered == registered
      ensures storage.cookies == old(storage.cookies) && storage.winnerName == old(storage.winnerName)
    {
      storage.isUserRegistered := registered;
    }

    /**
     * `resetCookies()`: clears the stored cookies, unregisters the user, bans
     * the cookie in use and empties the collected ids.
     */
    method ResetCookies()
      modifies storage, cookiesStorage, collectedSpotsRepository
      ensures storage.cookies == None && !storage.isUserRegistered
      ensures storage.winnerName == old(storage.winnerName)
      ensures cookiesStorage.bannedCookies == old(cookiesStorage.bannedCookies) + [old(cookiesStorage.lastCookie)]
      ensures cookiesStorage.lastCookie == old(cookiesStorage.lastCookie)
      ensures State() == old(State()).(progress := old(State()).progress.(collectedSpotIds := Some([])))
    {
      storage.cookies := None;
      storage.isUserRegistered := false;
      cookiesStorage.BanCookie();
      collectedSpotsRepository.SetCollectedSpotIds([]);
    }

    /** `cookie()`: the cookie in use. */
    method Cookie() returns (c: Option<string>)
      ensures c == cookiesStorage.lastCookie
    {
      c := cookiesStorage.lastCookie;
    }

    /** `loadGameConfig()`, given the configuration the endpoint answered with. */
    method LoadGameConfig(response: GameConfig) returns (config: Option<GameConfig>)
      modifies this`gameConfig
      ensures gameConfig == Some(response) && config == gameConfig
    {
      gameConfig := Some(response);
      config := gameConfig;
    }

    /** `sendWinnerName(name)`, given the message the register endpoint answered with. */
    method SendWinnerName(name: string, responseMessage: Option<string>) returns (message: Option<string>)
      modifies storage
      ensures storage.winnerName == Some(name) && message == responseMessage
      ensures storage.isUserRegistered == old(storage.isUserRegistered) && storage.cookies == old(storage.cookies)
    {
      storage.winnerName := Some(name);
      message := responseMessage;
    }
  }

  /** Registering and reading back: `isUserRegistered()` returns what was last set. */
  method RegistrationRoundTrip(repository: GameDataRepository, registered: bool) returns (read: bool)
    modifies repository.storage
    ensures read == registered
  {
    repository.SetUserRegistered(registered);
    read := repository.IsUserRegistered();
  }
}
