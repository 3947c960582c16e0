# Beacon scavenger hunt: the game-data repository

This project models `GameDataRepository`, the client-side engine of the
KotlinConf beacon scavenger hunt, and proves properties of that model.

- **The receiving loop.** Each tick drains the buffered channel of beacon
  sightings. For a non-empty batch, a cycle runs that:
  - reports the batch to the proximity endpoint;
  - reconciles the answer with the collected spot ids;
  - announces the first newly discovered beacon, except on the first cycle
    after start;
  - ends the game when the number of discovered ids equals the winner count;
  - sends the result to the companion watch.
- **The aggregation in `sendBeaconsInfo`.**
  - Sightings whose signal strength is not negative are dropped.
  - The last sighting of each beacon name is kept.
  - The batch is written as `hash:rssi` entries joined by commas.
- **The registration and session operations:** `isUserRegistered`,
  `setUserRegistered`, `resetCookies`, `cookie`, `loadGameConfig` and
  `sendWinnerName`.

The modules follow the structure of the code:

- `Beacons` holds the filter / reverse / distinct-by-name pipeline. It also
  holds an independent reference definition: the index of the last valid
  sighting of a name, which `Beacons.LastValidIndexIsLast` proves is the
  last one.
- `Payload` holds the query string. Its decoder is the model's reading of the
  `hash:rssi,…` format, standing in for the backend, and the round-trip
  contracts prove that nothing is lost or merged.
- `Progress` holds one reconciliation as a function.
- `Engine` holds the same cycle, one tick and a run of ticks as functions on
  a `GameState` value.
- `Repository` holds the classes:
  - the channel;
  - the collaborators whose state the repository changes;
  - `GameDataRepository` itself.

  Its methods update fields in place. `SendBeaconsInfo`, `ReportAndReconcile`,
  `Tick` and `StartReceivingData` are proved to take the state to exactly what
  the `Engine` function of the same operation gives. The other methods state
  their new state directly.

Two parts of the code are inputs to the model:

- `cityHash64().toString(16)` is a parameter `hash: string -> string`. The
  round trip of the query string holds whenever the hash never produces `,` or
  `:`, which is true of hexadecimal output.
- The answer of a network call is an `Option`; `None` stands for a call that
  threw.

A failed proximity request does not leave the progress unchanged: `info` is
null, so line 86 takes the discovered ids to be the empty list, and the
reconciliation still runs. It then:

- empties the collected ids;
- clears the announced id (after the first cycle);
- sets game over exactly when the winner count is 0.

The same happens when no sighting survives the filter.
`Progress.NullAnswerClearsProgress` states this behaviour.

## Model

| member | source | states |
|---|---|---|
| Beacons.OnlyValid | mpp-library/domain/src/commonMain/kotlin/com/kotlinconf/library/domain/repository/GameDataRepository.kt:158 | the filtered list holds exactly the sightings of the batch with negative strength, and is no longer than the batch |
| Beacons.Reversed | mpp-library/domain/src/commonMain/kotlin/com/kotlinconf/library/domain/repository/GameDataRepository.kt:159 | the reversed list has the same length, and its element i is element `n-1-i` of the input |
| Beacons.DistinctByName | mpp-library/domain/src/commonMain/kotlin/com/kotlinconf/library/domain/repository/GameDataRepository.kt:160 | every kept element comes from the input and has a name not already seen, and there are no more of them than inputs |
| Beacons.DistinctByNameDistinct | mpp-library/domain/src/commonMain/kotlin/com/kotlinconf/library/domain/repository/GameDataRepository.kt:160 | no two elements kept by `distinctBy` share a name |
| Beacons.DistinctByNameKeepsFirst | mpp-library/domain/src/commonMain/kotlin/com/kotlinconf/library/domain/repository/GameDataRepository.kt:160 | the first element of every name not already seen is kept, so every such name has an entry |
| Beacons.OnlyLast | mpp-library/domain/src/commonMain/kotlin/com/kotlinconf/library/domain/repository/GameDataRepository.kt:157-160 | the aggregated batch has at most one entry per sighting, and no two entries share a name |
| Beacons.OnlyLastSnoc | mpp-library/domain/src/commonMain/kotlin/com/kotlinconf/library/domain/repository/GameDataRepository.kt:157-160 | one more arrival: a valid sighting goes to the front and removes the older entry of its name; an invalid one changes nothing |
| Beacons.OnlyLastCorrect | mpp-library/domain/src/commonMain/kotlin/com/kotlinconf/library/domain/repository/GameDataRepository.kt:157-160 | every aggregated entry is the last valid sighting of its name, with no valid sighting of that name arriving after it; entries are ordered by reverse arrival of those last sightings; every name with a valid sighting has an entry |
| Beacons.OnlyLastValid | mpp-library/domain/src/commonMain/kotlin/com/kotlinconf/library/domain/repository/GameDataRepository.kt:157-158 | every aggregated entry is a sighting of the batch with negative strength |
| Beacons.OnlyLastEmpty | mpp-library/domain/src/commonMain/kotlin/com/kotlinconf/library/domain/repository/GameDataRepository.kt:157-162 | nothing is left after aggregation exactly when no sighting of the batch is valid |
| Beacons.OnlyLastExample | mpp-library/domain/src/commonMain/kotlin/com/kotlinconf/library/domain/repository/GameDataRepository.kt:157-160 | the batch `[A:-40, B:3, A:-55]` aggregates to `[A:-55]` |
| Payload.NatToString | mpp-library/domain/src/commonMain/kotlin/com/kotlinconf/library/domain/repository/GameDataRepository.kt:168 | the decimal digits of a natural number, non-empty, read back as the number |
| Payload.IntToString | mpp-library/domain/src/commonMain/kotlin/com/kotlinconf/library/domain/repository/GameDataRepository.kt:168 | an integer printed as Kotlin prints an `Int`, minus sign included, reads back as the integer |
| Payload.JoinToString | mpp-library/domain/src/commonMain/kotlin/com/kotlinconf/library/domain/repository/GameDataRepository.kt:167-168 | splitting a non-empty joined list at the separator gives the list back when no piece holds the separator |
| Payload.EntryString | mpp-library/domain/src/commonMain/kotlin/com/kotlinconf/library/domain/repository/GameDataRepository.kt:168 | one `hash:rssi` entry decodes to its hash and strength when the hash holds no `:`, and holds no `,` when the hash holds none |
| Payload.EntryStringsCommaFree | mpp-library/domain/src/commonMain/kotlin/com/kotlinconf/library/domain/repository/GameDataRepository.kt:168 | one entry per sighting, and for a hash without separators no entry holds a comma |
| Payload.EntryStringsRoundTrip | mpp-library/domain/src/commonMain/kotlin/com/kotlinconf/library/domain/repository/GameDataRepository.kt:168 | for a hash without separators, every entry decodes to its (hash, strength) pair, in order |
| Payload.BeaconsString | mpp-library/domain/src/commonMain/kotlin/com/kotlinconf/library/domain/repository/GameDataRepository.kt:167-168 | for a non-empty list, the query has exactly one comma-separated piece per entry and decodes to the (hash, strength) pairs of the entries in order |
| Progress.DiscoveredIds | mpp-library/domain/src/commonMain/kotlin/com/kotlinconf/library/domain/repository/GameDataRepository.kt:86 | the discovered ids of the answer, the empty list for a null answer (no contract: used in the contracts of `Reconcile` and `CycleStep`) |
| Progress.CollectedIds | mpp-library/domain/src/commonMain/kotlin/com/kotlinconf/library/domain/repository/GameDataRepository.kt:85 | the stored collected ids, the empty list when the store holds nothing (no contract: used in the contract of `Reconcile`) |
| Progress.Minus | mpp-library/domain/src/commonMain/kotlin/com/kotlinconf/library/domain/repository/GameDataRepository.kt:88 | `discovered - collected` holds exactly the discovered ids not collected, and is no longer than `discovered` |
| Progress.MinusAppend | mpp-library/domain/src/commonMain/kotlin/com/kotlinconf/library/domain/repository/GameDataRepository.kt:88 | the difference keeps the discovered order: it distributes over concatenation |
| Progress.FirstOrNull | mpp-library/domain/src/commonMain/kotlin/com/kotlinconf/library/domain/repository/GameDataRepository.kt:93 | `firstOrNull()`: the first element, or null for an empty list (no contract: its meaning for `newIds` is stated by `Progress.FirstNewId`) |
| Progress.FirstNewId | mpp-library/domain/src/commonMain/kotlin/com/kotlinconf/library/domain/repository/GameDataRepository.kt:88-93 | `newIds.firstOrNull()` is null exactly when every discovered id was collected, and otherwise is the first discovered id not collected |
| Progress.Reconcile | mpp-library/domain/src/commonMain/kotlin/com/kotlinconf/library/domain/repository/GameDataRepository.kt:85-99 | the collected ids are replaced by the discovered ids (empty for a null answer); game over exactly when their count is the winner count; the first-run flag is cleared; on the first run the announced id is kept, and later it is the first new id, or null when there is none |
| Progress.ReconcileExample | mpp-library/domain/src/commonMain/kotlin/com/kotlinconf/library/domain/repository/GameDataRepository.kt:85-99 | collected [5], discovered [5, 9] and winner count 2 on a later cycle: 9 is announced, [5, 9] collected, game over |
| Progress.NullAnswerClearsProgress | mpp-library/domain/src/commonMain/kotlin/com/kotlinconf/library/domain/repository/GameDataRepository.kt:85-99 | after the first cycle, a null answer empties the collected ids and clears the announced id, and ends the game exactly when the winner count is 0 |
| Engine.BeaconsQuery | mpp-library/domain/src/commonMain/kotlin/com/kotlinconf/library/domain/repository/GameDataRepository.kt:157-168 | a query is built exactly when some sighting is valid, and the decoder reads from it exactly the aggregated (hash, strength) pairs |
| Engine.SendBeaconsInfo | mpp-library/domain/src/commonMain/kotlin/com/kotlinconf/library/domain/repository/GameDataRepository.kt:156-186 | null without a request when no sighting is valid; otherwise the endpoint's answer, which is null when the call threw |
| Engine.CycleStep | mpp-library/domain/src/commonMain/kotlin/com/kotlinconf/library/domain/repository/GameDataRepository.kt:72-107 | if the game has ended, nothing changes; if the config is null, only the request log grows; otherwise the progress is reconciled, the answer is emitted, and the watch gets the count, nearest strength, announced id and game-over flag |
| Engine.TickStep | mpp-library/domain/src/commonMain/kotlin/com/kotlinconf/library/domain/repository/GameDataRepository.kt:71-108 | a tick with an empty batch changes nothing, and neither does any tick once the game has ended; a tick keeps the config, only appends to the logs, and emits one proximity value and one watch update or neither |
| Engine.Run | mpp-library/domain/src/commonMain/kotlin/com/kotlinconf/library/domain/repository/GameDataRepository.kt:63-111 | the loop keeps the config and only appends to what it emits; it reconciles at most once per round, and every reconciled cycle emits exactly one proximity value and one watch update |
| Engine.RunAfterGameOver | mpp-library/domain/src/commonMain/kotlin/com/kotlinconf/library/domain/repository/GameDataRepository.kt:63-73 | once the game has ended, any number of later ticks changes and emits nothing |
| Engine.RunKeepsGameOverJustified | mpp-library/domain/src/commonMain/kotlin/com/kotlinconf/library/domain/repository/GameDataRepository.kt:97-99 | every run keeps game over justified: when the game has ended, a config is loaded and the collected ids number its winner count |
| Engine.FirstRunSuppressed | mpp-library/domain/src/commonMain/kotlin/com/kotlinconf/library/domain/repository/GameDataRepository.kt:92-95 | the first reconciled cycle keeps the announced id and clears the flag; the next one announces the first id it discovers that the first cycle did not, or null when there is none |
| Engine.CycleAfterReset | mpp-library/domain/src/commonMain/kotlin/com/kotlinconf/library/domain/repository/GameDataRepository.kt:85-99 | after the collected ids were emptied, an answer discovering [3] announces 3, collects [3], and ends the game only for a winner count of 1 |
| Repository.BeaconChannel.Send | mpp-library/domain/src/commonMain/kotlin/com/kotlinconf/library/domain/repository/GameDataRepository.kt:36 | a sighting sent to the channel joins the end of the buffer |
| Repository.BeaconChannel.SendAll | mpp-library/domain/src/commonMain/kotlin/com/kotlinconf/library/domain/repository/GameDataRepository.kt:36 | sightings sent one after another join the end of the buffer in order |
| Repository.BeaconChannel.Poll | mpp-library/domain/src/commonMain/kotlin/com/kotlinconf/library/domain/repository/GameDataRepository.kt:65 | `poll()` removes and returns the oldest sighting, or returns null and leaves an empty buffer empty |
| Repository.CollectedSpotsRepository.SetCollectedSpotIds | mpp-library/domain/src/commonMain/kotlin/com/kotlinconf/library/domain/repository/GameDataRepository.kt:97 | the store holds exactly the given ids, replacing what it held |
| Repository.PersistentCookiesStorage.BanCookie | mpp-library/domain/src/commonMain/kotlin/com/kotlinconf/library/domain/repository/GameDataRepository.kt:127 | the cookie in use at the call is recorded as banned |
| Repository.WatchSyncRepository.SendData | mpp-library/domain/src/commonMain/kotlin/com/kotlinconf/library/domain/repository/GameDataRepository.kt:101-106 | the four values passed are appended, in order, to what was sent to the watch |
| Repository.GameDataRepository.constructor | mpp-library/domain/src/commonMain/kotlin/com/kotlinconf/library/domain/repository/GameDataRepository.kt:29-43 | starts with no config, no announced id and the game not ended |
| Repository.GameDataRepository.Drain | mpp-library/domain/src/commonMain/kotlin/com/kotlinconf/library/domain/repository/GameDataRepository.kt:64-69 | the batch is every pending sighting in arrival order, and the channel is empty afterwards |
| Repository.GameDataRepository.SendBeaconsInfo | mpp-library/domain/src/commonMain/kotlin/com/kotlinconf/library/domain/repository/GameDataRepository.kt:156-186 | returns what `Engine.SendBeaconsInfo` gives, and sends a request, with the aggregated query, only when some sighting is valid |
| Repository.GameDataRepository.ReportAndReconcile | mpp-library/domain/src/commonMain/kotlin/com/kotlinconf/library/domain/repository/GameDataRepository.kt:72-107 | the in-place updates of the repository, the collected-spots store and the watch take the state to `Engine.CycleStep` of the old state |
| Repository.GameDataRepository.Tick | mpp-library/domain/src/commonMain/kotlin/com/kotlinconf/library/domain/repository/GameDataRepository.kt:63-110 | drains the channel and takes the state to `Engine.TickStep` of the old state with the drained batch |
| Repository.GameDataRepository.StartReceivingData | mpp-library/domain/src/commonMain/kotlin/com/kotlinconf/library/domain/repository/GameDataRepository.kt:59-113 | sets the first-run flag, then the state after the given rounds is `Engine.Run` from there |
| Repository.GameDataRepository.IsUserRegistered | mpp-library/domain/src/commonMain/kotlin/com/kotlinconf/library/domain/repository/GameDataRepository.kt:115-117 | returns the stored registration flag |
| Repository.GameDataRepository.SetUserRegistered | mpp-library/domain/src/commonMain/kotlin/com/kotlinconf/library/domain/repository/GameDataRepository.kt:119-121 | stores the registration flag and leaves the other settings unchanged |
| Repository.RegistrationRoundTrip | mpp-library/domain/src/commonMain/kotlin/com/kotlinconf/library/domain/repository/GameDataRepository.kt:115-121 | `setUserRegistered(b)` followed by `isUserRegistered()` returns `b` |
| Repository.GameDataRepository.ResetCookies | mpp-library/domain/src/commonMain/kotlin/com/kotlinconf/library/domain/repository/GameDataRepository.kt:123-132 | the stored cookies are null, the user is unregistered, the cookie in use is banned, the collected ids are empty, and nothing else in the game state changes |
| Repository.GameDataRepository.Cookie | mpp-library/domain/src/commonMain/kotlin/com/kotlinconf/library/domain/repository/GameDataRepository.kt:134-136 | returns the cookie in use |
| Repository.GameDataRepository.LoadGameConfig | mpp-library/domain/src/commonMain/kotlin/com/kotlinconf/library/domain/repository/GameDataRepository.kt:138-145 | stores the loaded configuration and returns it |
| Repository.GameDataRepository.SendWinnerName | mpp-library/domain/src/commonMain/kotlin/com/kotlinconf/library/domain/repository/GameDataRepository.kt:147-154 | stores the winner name before the request, returns the answer's message, and leaves the other settings unchanged |

## Left out

- Coroutines are not modelled: `GlobalScope.launch`, `async`, `delay(1000)` and `isActive` (lines 62-63, 72, 110). Each cycle runs to completion before the next tick starts, so the race between overlapping in-flight cycles is not captured.
- The receiving loop runs until cancelled. The model runs it for a given finite sequence of rounds. Each round lists the sightings that arrive before its tick and the endpoint's answer in that tick.
- `isFirstRun` is a local captured by the loop's closure. The model keeps it as a field of the repository that `StartReceivingData` sets, so a second start does not get a fresh flag of its own.
- The `channelFlow` relay of `proximityInfo` (lines 46-57) is not modelled. The model keeps the values sent on `_proximityInfoChannel` as a log.
- `_proximityInfoChannel` is `Channel.BUFFERED` too (line 45). When nobody collects `proximityInfo` and its buffer is full, `send(info)` at line 83 suspends: the request of line 75 has been made, but lines 85-106 do not run. The model's log is unbounded and the cycle always goes on to reconcile.
- `beaconsChannel` is `Channel.BUFFERED`, which has a bounded capacity. The model's buffer is unbounded, so a scanner suspending on a full channel is not captured.
- LiveData observers of `currentDiscoveredBeaconId` and `isGameEnded` are not modelled; only their current values are.
- Network calls are not modelled; their answers are inputs. `finderProximityGet` yields an `Option`, with `None` when it throws. A throwing `finderConfigGet` or `finderRegisterGet` propagates to the caller; that path of `loadGameConfig` and `sendWinnerName` is not modelled. `toDomain()` is not modelled either.
- `cityHash64` and hex formatting are foreign code, so they are a parameter. The query round trip is proved only for hashes that never produce `,` or `:`.
- The decoder in `Payload` is the model's reading of the `hash:rssi,…` format, standing in for the backend, whose code is not part of this model. It is a partner for the round trip, not code of this repository.
- Napier logging is not modelled.
- The internals of `KeyValueStorage`, `PersistentCookiesStorage`, `CollectedSpotsRepository` and the `WatchSyncRepository` transport are not part of this model. Each is a holder of the values the repository passes to it. `banCookie()` is modelled as recording the cookie in use at the call.
- Repository.GameDataRepository.ResetCookies: the model assumes that `banCookie()` leaves the cookie in use unchanged (so `cookie()` afterwards returns the banned cookie); `PersistentCookiesStorage` is not part of this model, and it may instead replace or clear that cookie. `Repository.PersistentCookiesStorage.BanCookie` makes the same assumption.
- Beacons.DistinctByName: that the kept elements keep their input order is not stated for `distinctBy` on its own; for the aggregation as a whole the order is proved by `Beacons.OnlyLastCorrect`.
- The iOS view controller that observes the repository is not part of this model. It is UI code, and its only computation is floating point.
