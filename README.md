# led_state: result display, sign-in handshake and BLE result beacon

This project models the `led_state` module of a Zephyr machine-learning
application (`src/modules/led_state.c`). The module receives classification
results from the ML runner and does three things with each one:

- it encodes the result as the text `"<label>;<dsp>;<cls>;<anom>"`, cut to
  17 characters, after a fixed 5-byte Eddystone preamble, and advertises that
  service data over Bluetooth LE;
- it debounces the result: an acceptance rule turns each sample into a
  candidate label (the anomaly label, the sample's own label, or `"idle"`),
  and a label is shown only after `PREDICTION_STREAK_THRESH` accepted samples
  in a row agree on it;
- it shows the stable label on the ML-state LED through a lookup table, and
  signs the module off from results while a blocking (finite, multi-step)
  effect plays, signing in again when that effect reports it is done.

The module's other duties are modelled too: the data-forwarder LED effects,
the mode switch between running the model and forwarding data, the
start-up checks of the effect table, and the advertising lifecycle (wait
for the stack, start, successful updates at most every 50 ms, retry after
150 ms on `-EAGAIN`/`-EBUSY`, stop and restart on `-ENOTSUP`).

## Structure

| file | module | what it holds |
|---|---|---|
| basics.dfy | Basics | `Option`, `Byte`, `Int32`, `Min` |
| decimal.dfy | Decimal | what `%d` prints, and a reader for it |
| payload.dfy | Payload | the result text, the service-data bytes, and a decoder for them |
| effects.dfy | Effects | the effect table, `get_led_effect`, `validate_configuration`, the board's table |
| debounce.dfy | Debounce | the acceptance rule and the label streak |
| coordinator.dfy | Coordinator | `display_ml_result`: LED event and sign-in event |
| advertising.dfy | Advertising | `adv_start_or_update` as a function on the advertising statics |
| machine.dfy | Machine | the whole module as a state machine over values, one transition per handler |
| led_state.dfy | LedState | class `LedStateModule`, whose fields are the module's statics |

The source changes its statics in place, so `LedState.LedStateModule` keeps
them as fields. The buffers `adata[64]` and `last_svc_buf[31]` are arrays.
Each event handler and each step of `update_ml_result` is proved to
perform a pure transition of `Machine`. Its postcondition reads
`Snapshot() == Machine.F(cfg, old(Snapshot()), ...)`, for example
`AdvRetryFn` with `Machine.OnRetry` and `HandleMlResultEvent` with
`Machine.OnMlResult`. The helpers `CacheServiceData`, `AdvStartOrUpdate`,
`SendLedEvent` and `SetSigninState` have no transition of their own. They
state their effect on the fields they change: the advertising fields against
`Advertising.Request`, and the event log by the one event appended. The
properties are then proved about the pure functions in `Machine`,
`Advertising`, `Coordinator`, `Debounce`, `Effects` and `Payload`.

Inputs the module gets from outside are parameters:

- the uptime `now` (`k_uptime_get`);
- the answer of each radio call (`RadioOutcome`);
- whether `bt_enable` answers `-EALREADY`.

The outputs are recorded as values. Submitted events are appended to
`events`. Radio calls (`Start`, `Update` with their payloads, `Stop`) are
appended to `radio`. The pending retry work item is its delay, or `None`.

### Behaviour of the code worth noting

- A rejected sample (low confidence with an anomaly score available) has a
  NULL candidate label. When the current label is not NULL, it still replaces
  that label and resets the streak: any partial streak is lost
  (`Debounce.RejectedSample`, `Debounce.RejectionBreaksStreak`).
- When the blocking effect ends, the module forces the default (NULL-label)
  effect. It does not re-show the label that was committed
  (`Machine.BlockingHandshake`).
- Every "Bluetooth ready" path sends the fixed payload `"idle;0;0;-1"`. It
  does not send the payload cached while the stack was not ready
  (`Advertising.ReadySendsInitialPayload`).
- A second ready signal is not a no-op. Once advertising, it sends the
  initial payload again as an update, provided 50 ms or more have passed
  since the last successful start or update; inside that window it is only
  cached (`Advertising.RepeatedReadyUpdates`).
- The 50 ms throttle counts from the last successful start or update. After
  a busy or failed update the timestamp is unchanged, so two update calls
  less than 50 ms apart are possible (`Advertising.BusyUpdateIsNotThrottled`).

## Model

| member | source | states |
|---|---|---|
| Payload.ResultText | src/modules/led_state.c:350-365 | the text starts with the label (empty for NULL) and a separator, and holds at least one character per number and two more separators; ParseResultTextCompose reads it back |
| Decimal.Digits | src/modules/led_state.c:356-365 | the digits `%d` prints for a non-negative number: at least one, all digits, a leading zero only for zero |
| Decimal.FormatInt | src/modules/led_state.c:356-365 | `%d`: non-negative exactly when all characters are digits; a negative number is a minus sign and at least one digit; no other characters |
| Decimal.ValueOfDigits | src/modules/led_state.c:356-365 | the printed digits of n denote n |
| Decimal.ParseFormat | src/modules/led_state.c:356-365 | every number `%d` prints reads back as the same number |
| Payload.EncodePayload | src/modules/led_state.c:349-374 | the service data is the 5-byte preamble followed by the first min(text length, 17) characters of `"<label>;<dsp>;<cls>;<anom>"`, each cast to a byte; so at most 22 bytes |
| Payload.SplitWhole | src/modules/led_state.c:349-365 | a field without separator splits into itself |
| Payload.SplitAfter | src/modules/led_state.c:349-365 | splitting after a separator-free field yields that field followed by the split of the rest |
| Payload.SplitFour | src/modules/led_state.c:349-365 | four separator-free fields joined by `;` split back into those four fields |
| Payload.ParseResultTextCompose | src/modules/led_state.c:349-365 | the composed text parses back into the label text and the three numbers, provided the label holds no `;` |
| Payload.DecodeEncode | src/modules/led_state.c:349-374 | round trip: an uncut payload decodes to the label and numbers it was built from |
| Payload.InitialText | src/modules/led_state.c:96-99 | the initial text is `"idle;0;0;-1"` |
| Payload.InitialServiceDataIsEncoded | src/modules/led_state.c:96-99 | the fixed initial payload of `start_initial_adv` is exactly what the encoder gives for label "idle" and times 0, 0, -1, and it decodes back to them |
| Effects.IsBlocking | src/modules/led_state.c:221-224 | a blocking effect is never the all-zero effect and does not loop |
| Effects.IsValid | src/modules/led_state.c:214-219 | an effect differs from the all-zero structure exactly when it has a step or loops |
| Effects.AnomalyCountPositive | src/modules/led_state.c:427-436 | an anomaly-labelled entry before n adds one to the count up to n |
| Effects.AnomalyEntryUnique | src/modules/led_state.c:425-438 | in a table that passes the checks, two anomaly-labelled entries are the same entry |
| Effects.ValidateConfiguration | src/modules/led_state.c:419-439 | the checks pass exactly when the table is well formed: non-empty, a non-blocking default with NULL label, every other entry valid and labelled, at most one anomaly entry |
| Effects.FindFromSpec | src/modules/led_state.c:252-259 | the scan from k returns the first entry at or after k with an equal label, or 0 when there is none |
| Effects.ResolveEffectSpec | src/modules/led_state.c:244-262 | `get_led_effect` returns the default for NULL; otherwise the first entry from 1 on whose label is equal; the default only when no entry has the label |
| Effects.GetLedEffect | src/modules/led_state.c:244-262 | the linear scan returns the index that ResolveEffect specifies |
| Effects.AnomalyResolvesToItsEntry | src/modules/led_state.c:384-386 | in a well-formed table the anomaly label resolves to its own entry |
| Effects.ThingyTableWellFormed | configuration/thingy52_nrf52832/led_state_def.h:37-74 | the board's table passes every start-up check |
| Effects.ThingyTableLookups | configuration/thingy52_nrf52832/led_state_def.h:37-74 | on the board's table, the anomaly label finds entry 1, "zoom_in" entry 3, and an unlisted label the default |
| Debounce.Classify | src/modules/led_state.c:377-397 | the acceptance rule: a score over the anomaly threshold votes for the anomaly label; else enough confidence votes for the sample's label; else no score votes for "idle"; else the sample is rejected with a NULL label; accepted exactly when not (score available, not over threshold, low confidence) |
| Debounce.Track | src/modules/led_state.c:399-408 | the current label becomes the candidate; the streak continues only when the label is equal (else restarts at 0), and an accepted sample adds one |
| Debounce.Observe | src/modules/led_state.c:399-413 | after a sample the streak is below the threshold; a label is shown only when it is the sample's candidate, and the prediction is then cleared; otherwise the candidate becomes the tracked label |
| Debounce.RejectedSample | src/modules/led_state.c:399-408 | a rejected sample shows nothing, clears a non-NULL label and leaves a NULL-label state unchanged |
| Debounce.AcceptedSample | src/modules/led_state.c:399-413 | an accepted sample extends the streak of an equal label or starts one at 1; reaching the threshold shows the label and clears |
| Debounce.StreakBuilds | src/modules/led_state.c:399-413 | fewer than threshold-many equal accepted candidates after a clear build a streak of that length and show nothing |
| Debounce.StabilisesOnce | src/modules/led_state.c:399-413 | threshold-many equal accepted candidates after a clear show the label exactly once and clear |
| Debounce.RunAppend | src/modules/led_state.c:399-413 | processing a + b is processing a, then b from the state a leaves |
| Debounce.RepeatedStabilisation | src/modules/led_state.c:399-413 | m times threshold-many equal accepted candidates show the label exactly m times |
| Debounce.StableLabelsAreCandidates | src/modules/led_state.c:399-413 | every label shown is the candidate label of one of the samples |
| Debounce.AnomalousSamplesShowAnomaly | src/modules/led_state.c:384-413 | while every sample is anomalous, only the anomaly label is ever shown, whatever the confidence values |
| Debounce.RejectionBreaksStreak | src/modules/led_state.c:394-408 | a rejected sample between two accepted ones with the same label restarts the streak at 1 |
| Coordinator.Display | src/modules/led_state.c:292-331 | no event exactly when the resolved effect is already shown and the update is not forced; otherwise the LED event for the resolved effect, then a sign-in event that is false exactly for a blocking effect; the blocking invariant is kept |
| Coordinator.SigninFollowsBlocking | src/modules/led_state.c:321-330 | the sign-in state submitted is true exactly when no blocking effect is left on the LED |
| Coordinator.DefaultReleases | src/modules/led_state.c:292-331 | a forced display of the default effect in a well-formed table shows entry 0, clears the blocking reference and signs in |
| Advertising.Request | src/modules/led_state.c:145-207 | the cache takes the first 31 bytes; the ready flag is unchanged; not ready means no call and a retry in 150 ms; not started means exactly one start call; started means no call, one update, or an update then a stop; `started` changes only on a successful start or an unsupported update |
| Advertising.Retry | src/modules/led_state.c:138-143 | the work item replays the cached data and keeps the cache |
| Advertising.BecomeReady | src/modules/led_state.c:94-111 | a ready signal sets the ready flag and caches the initial payload |
| Advertising.NotReadyDefers | src/modules/led_state.c:154-158 | before the stack is ready no radio call is made, a retry is pending in 150 ms, and the start state and timestamp are unchanged |
| Advertising.StartOutcomes | src/modules/led_state.c:160-177 | a successful start records the time and cancels the retry; a transient error schedules a retry; any other error changes nothing but the cache |
| Advertising.UpdateOutcomes | src/modules/led_state.c:179-207 | inside the 50 ms window nothing is called; outside it the update is always called (then a stop for `-ENOTSUP`), and success records the time, a transient error schedules a retry, `-ENOTSUP` stops and retries at once, other errors change nothing but the cache |
| Advertising.ThrottleAfterSuccess | src/modules/led_state.c:179-190 | after a successful start or update, a request within 50 ms makes no radio call |
| Advertising.BusyUpdateIsNotThrottled | src/modules/led_state.c:186-196 | a busy update leaves the timestamp, so a request 10 ms later calls the radio again |
| Advertising.BusyStartThenRetry | src/modules/led_state.c:138-177 | a busy start schedules a retry in 150 ms; the retry, answered with success, starts advertising with the cached data |
| Advertising.UnsupportedUpdateRestarts | src/modules/led_state.c:198-204 | an unsupported update stops advertising and retries at once; the retry restarts with the cached data |
| Advertising.ReadySendsInitialPayload | src/modules/led_state.c:94-111 | becoming ready starts advertising with the fixed initial payload, not the cached one |
| Advertising.RepeatedReadyUpdates | src/modules/led_state.c:506-511 | a further ready signal while advertising sends the initial payload as an update |
| Machine.Initial | src/modules/led_state.c:40-66 | the start-up statics satisfy the module invariant |
| Machine.UpdateMlResult | src/modules/led_state.c:335-416 | the invariant is kept; the first `adatasize` bytes of `adata` are the encoded payload of the sample; whatever the debouncer does, that payload is handed to the advertising lifecycle, which starts from the advertising state before the result; mode and forwarder state are kept |
| Machine.OnMlResult | src/modules/led_state.c:441-450 | results change nothing unless the model runs and no blocking effect plays, whatever the result (only a result that is processed must be encodable); the mode and forwarder state are kept; the invariant is kept |
| Machine.OnLedReady | src/modules/led_state.c:474-483 | any other LED, mode or effect leaves the state unchanged; the end of the blocking effect shows the default effect, clears the block and submits the LED event and sign-in true, nothing else changing; the invariant is kept |
| Machine.OnAppMode | src/modules/led_state.c:485-501 | model-running mode clears the prediction, shows the default effect and signs in; data-forwarding mode sends the forwarder LED effect of the current forwarder state; nothing else changes; the invariant is kept |
| Machine.OnForwarderState | src/modules/led_state.c:459-472 | the new forwarder state is recorded, and its LED effect is sent exactly in data-forwarding mode; nothing else changes; the invariant is kept |
| Machine.OnBleReady | src/modules/led_state.c:505-511 | the ready flag is set and the initial payload cached; only the advertising state and the radio log change; if advertising had not started, exactly one start with the initial payload is made |
| Machine.OnRetry | src/modules/led_state.c:138-143 | only the advertising state and the radio log change; the ready flag is kept and the invariant is kept |
| Machine.OnMainReady | src/modules/led_state.c:514-541 | sign-in true is the one event submitted; when Bluetooth was not ready and `bt_enable` answers that it already is, the module becomes ready, caches the initial payload and starts it if advertising had not started, and nothing but the events, advertising state and radio log changes; otherwise nothing else changes; the invariant is kept |
| Machine.NoResultsWhileBlocked | src/modules/led_state.c:441-450 | while a blocking effect plays, any result, encodable or not, leaves the whole state unchanged |
| Machine.BlockingHandshake | src/modules/led_state.c:474-483 | the end of the blocking effect shows the default effect, clears the block and signs in, leaving prediction and advertising alone |
| Machine.EnterRunning | src/modules/led_state.c:489-492 | entering model-running mode clears the prediction, shows the default effect and signs in |
| Machine.BleReadyOnlyRises | src/modules/led_state.c:56 | once set, no handler (results, LED ready, mode, forwarder state, retry, main ready with either `bt_enable` answer, Bluetooth ready) clears the ready flag |
| Machine.Feed | src/modules/led_state.c:441-450 | any sequence of results keeps the invariant |
| Machine.ResultsBuildStreak | src/modules/led_state.c:399-413 | fewer than threshold-many results voting for one label build a streak and leave LED and events alone |
| Machine.ResultsStabilise | src/modules/led_state.c:399-415 | threshold-many results voting for one label from a cleared state display that label once and clear the prediction |
| Machine.IdleFallback | src/modules/led_state.c:390-393 | a low-confidence result without anomaly score votes for "idle" |
| LedState.CopyText | src/modules/led_state.c:371-373 | the loop stores the first l characters, cast to bytes, from offset 5 and leaves the rest of the buffer |
| LedState.LedStateModule.constructor | src/modules/led_state.c:40-66 | the fields start as the module's static initialisers (`adata` with its `zephyrprojects` URL, size 19) |
| LedState.LedStateModule.ClearPrediction | src/modules/led_state.c:226-230 | clears label and streak, nothing else |
| LedState.LedStateModule.CacheServiceData | src/modules/led_state.c:149-152 | `last_svc_buf[..last_svc_len]` becomes the first min(len, 31) bytes of the data |
| LedState.LedStateModule.AdvStartOrUpdate | src/modules/led_state.c:145-207 | the advertising statics and radio calls become those of `Advertising.Request` |
| LedState.LedStateModule.AdvRetryFn | src/modules/led_state.c:138-143 | performs `Machine.OnRetry` |
| LedState.LedStateModule.StartInitialAdv | src/modules/led_state.c:94-101 | advertises the fixed initial payload |
| LedState.LedStateModule.BecomeBleReady | src/modules/led_state.c:506-510 | performs `Machine.OnBleReady` |
| LedState.LedStateModule.BtReadyCb | src/modules/led_state.c:103-112 | an error changes nothing, otherwise performs `Machine.OnBleReady` |
| LedState.LedStateModule.SendLedEvent | src/modules/led_state.c:232-242 | appends one LED event |
| LedState.LedStateModule.SetSigninState | src/modules/led_state.c:264-272 | appends one sign-in event |
| LedState.LedStateModule.DisplayMlResult | src/modules/led_state.c:292-331 | performs `Machine.DisplayIn`, that is `Coordinator.Display` on the module state |
| LedState.LedStateModule.WritePayload | src/modules/led_state.c:349-374 | writes the encoded payload over the start of `adata` and sets `adatasize` |
| LedState.LedStateModule.TrackResult | src/modules/led_state.c:399-413 | performs the streak step `Machine.DebounceIn` |
| LedState.LedStateModule.UpdateMlResult | src/modules/led_state.c:335-416 | performs `Machine.UpdateMlResult` |
| LedState.LedStateModule.HandleMlResultEvent | src/modules/led_state.c:441-450 | performs `Machine.OnMlResult` |
| LedState.LedStateModule.HandleEiDataForwarderEvent | src/modules/led_state.c:459-472 | performs `Machine.OnForwarderState` |
| LedState.LedStateModule.HandleLedReadyEvent | src/modules/led_state.c:474-483 | performs `Machine.OnLedReady` |
| LedState.LedStateModule.HandleMlAppModeEvent | src/modules/led_state.c:485-501 | performs `Machine.OnAppMode` |
| LedState.LedStateModule.HandleBleStateReady | src/modules/led_state.c:505-511 | performs `Machine.OnBleReady` |
| LedState.LedStateModule.HandleMainReady | src/modules/led_state.c:514-541 | runs the table checks (which must pass), then performs `Machine.OnMainReady` |

## Left out

- The Bluetooth stack is not modelled. `bt_le_adv_start`, `bt_le_adv_update_data` and `bt_le_adv_stop` are recorded as radio calls, with their answers as inputs. `bt_enable` is not recorded; only whether it answers `-EALREADY` is an input. The advertising parameters `adv_fast` and the other entries of `ad1` (flags, device name "CPS22") are not modelled: only the service-data payload handed to each call is.
- The `SYS_INIT` hook `led_ble_sysinit` is not a method of its own. Its `-EALREADY` path is `BecomeBleReady`. Its success path ends in `BtReadyCb`. Its other errors only log.
- `get_rtc_counter` reads a hardware register and nothing in the module uses it.
- Logging is not modelled.
- The event-bus plumbing is not modelled: `app_event_handler`, `APP_EVENT_LISTENER` and the event allocation. Each handler is a method.
- The `initialized` assertion and `module_set_state` in the main READY path are not modelled.
- `handle_sensor_sim_event` and `display_sensor_sim` are not modelled. The sensor-simulation LED is `LED_UNAVAILABLE` on this board.
- The work queue runs `adv_retry_fn` concurrently with event handlers; the model treats every handler and the retry as atomic steps. The pending work item is modelled as its delay; the delay itself (time passing) is not.
- `value` and `anomaly` are C floats and the thresholds are `double` expressions. All are modelled as reals, so NaN, rounding and the float-to-double promotion in the comparisons are not captured.
- A label is a C string: bytes, with no NUL inside. `Encodable` requires this of a label that reaches `update_ml_result`, so a processed label with a character above 255 or an embedded NUL is outside the model.
- `led_state.h` and the CAF LED macros are not part of this model. `ANOMALY_LABEL` is taken to be `"anomaly"`. `LED_EFFECT_LED_ON` is taken to be one step played once, and `LED_EFFECT_LED_BLINK2` two steps looping forever. The data-forwarder effects appear only as references (`Forwarder(state)`).
- Machine.UpdateMlResult: requires the composed text to fit `rs[40]` with its NUL (`Encodable`). `strncat` there bounds only the copied label, not the total length, so a label of 34 or more characters always overruns `rs`, and a shorter one can with long numbers. The model does not describe that overrun.
- `(int)dsptime` and the other two times are taken as already 32-bit values (`Int32`).
- `now - adv_last_update_ms` uses unbounded integers; int64 overflow is not modelled.
- LedState.LedStateModule.AdvStartOrUpdate: takes a single uptime `now` per call. The source reads `k_uptime_get` separately in the start and update branches, but each call uses only one of the two reads.
- LedState.LedStateModule.AdvRetryFn: the retry copies `last_svc_buf` onto itself with `memcpy`. The model passes the cached bytes by value, so that overlapping copy is not modelled.
- LedState.LedStateModule.HandleMainReady: models `validate_configuration` as assertions that the configuration must pass (as with `CONFIG_ASSERT`). A failed check halts the firmware, and that halt is not modelled.
