/** The advertising lifecycle of `adv_start_or_update`: cache the service data,
    wait for the Bluetooth stack, start advertising, then update the data in
    place no more often than every 50 ms, retrying after 150 ms on transient
    errors and restarting when in-place update is not supported. The radio's
    answer to each call and the uptime clock are inputs. */
module Advertising {
  import opened Basics
  import opened Payload

  /** `K_MSEC(150)`: the delay of a retry after a transient failure. */
  const RetryDelayMs: nat := 150

  /** `ADV_MIN_UPDATE_MS`: the throttle window between in-place updates. */
  const MinUpdateMs: int := 50

  /** `sizeof(last_svc_buf)`. */
  const CacheCapacity: nat := 31

  /** What `bt_le_adv_start` or `bt_le_adv_update_data` returns. */
  datatype RadioOutcome = Ok | EAgain | EBusy | ENotSup | OtherError

  predicate Transient(o: RadioOutcome)
  {
    o == EAgain || o == EBusy
  }

  /** The payload handed to the radio with each call. */
  datatype RadioCall = Start(data: seq<Byte>) | Update(data: seq<Byte>) | Stop

  /** `ble_ready`, `adv_started`, `adv_last_update_ms`, `last_svc_buf[..last_svc_len]`
      and the one pending delayable work item `adv_retry_work` (its delay, if scheduled). */
  datatype AdvState = AdvState(bleReady: bool, started: bool, lastUpdateMs: int,
                               cache: seq<Byte>, retry: Option<nat>)

  const InitialAdvState := AdvState(false, false, 0, [], None)

  datatype Outcome = Outcome(state: AdvState, calls: seq<RadioCall>)

  /** `adv_start_or_update(svc_data, svc_len)` at uptime `now`; `o` is the answer to the radio call it makes, if it makes one. */
  function Request(s: AdvState, svc: seq<Byte>, now: int, o: RadioOutcome): (r: Outcome)
    ensures r.state.cache == svc[..Min(|svc|, CacheCapacity)]
    ensures r.state.bleReady == s.bleReady
    ensures !s.bleReady ==> r == Outcome(s.(cache := r.state.cache, retry := Some(RetryDelayMs)), [])
    ensures s.bleReady && !s.started ==> r.calls == [Start(svc)]
    ensures s.bleReady && s.started ==> r.calls in {[], [Update(svc)], [Update(svc), Stop]}
    ensures r.state.started != s.started ==> s.bleReady && o == (if s.started then ENotSup else Ok)
  {
    var s1 := s.(cache := svc[..Min(|svc|, CacheCapacity)]);
    if !s.bleReady then
      Outcome(s1.(retry := Some(RetryDelayMs)), [])
    else if !s.started then
      if o == Ok then Outcome(s1.(started := true, lastUpdateMs := now, retry := None), [Start(svc)])
      else if Transient(o) then Outcome(s1.(retry := Some(RetryDelayMs)), [Start(svc)])
      else Outcome(s1, [Start(svc)])
    else if now - s.lastUpdateMs < MinUpdateMs then
      Outcome(s1, [])
    else if o == Ok then Outcome(s1.(lastUpdateMs := now), [Update(svc)])
    else if Transient(o) then Outcome(s1.(retry := Some(RetryDelayMs)), [Update(svc)])
    else if o == ENotSup then Outcome(s1.(started := false, retry := Some(0)), [Update(svc), Stop])
    else Outcome(s1, [Update(svc)])
  }

  /** `adv_retry_fn`: the work item runs (and so is no longer pending) and replays the cache. */
  function Retry(s: AdvState, now: int, o: RadioOutcome): (r: Outcome)
    ensures |s.cache| <= CacheCapacity ==> r.state.cache == s.cache
  {
    Request(s.(retry := None), s.cache, now, o)
  }

  /** A "Bluetooth ready" signal (`bt_ready_cb`, the `-EALREADY` answer of
      `bt_enable`, the ble_state READY event): set `ble_ready` and call
      `start_initial_adv`, which sends the fixed initial payload. */
  function BecomeReady(s: AdvState, now: int, o: RadioOutcome): (r: Outcome)
    ensures r.state.bleReady
    ensures r.state.cache == InitialServiceData
  {
    Request(s.(bleReady := true), InitialServiceData, now, o)
  }

  /** Before the stack is ready no call reaches the radio, and exactly one retry is pending afterwards, in 150 ms. */
  lemma NotReadyDefers(s: AdvState, svc: seq<Byte>, now: int, o: RadioOutcome)
    requires !s.bleReady
    ensures var r := Request(s, svc, now, o);
            r.calls == [] && r.state.retry == Some(RetryDelayMs)
            && r.state.started == s.started && r.state.lastUpdateMs == s.lastUpdateMs
  {
  }

  /** Starting: success starts and cancels the retry, a transient error keeps
      idle with a retry in 150 ms, any other error changes nothing but the cache. */
  lemma StartOutcomes(s: AdvState, svc: seq<Byte>, now: int, o: RadioOutcome)
    requires s.bleReady && !s.started
    ensures var r := Request(s, svc, now, o);
            && (o == Ok ==> r.state.started && r.state.lastUpdateMs == now && r.state.retry.None?)
            && (Transient(o) ==> !r.state.started && r.state.retry == Some(RetryDelayMs))
            && (!Transient(o) && o != Ok ==> r.state == s.(cache := r.state.cache))
  {
  }

  /** Updating once started: inside the window nothing is called; outside it
      success records the time, a transient error schedules a retry, an
      unsupported update stops advertising and retries at once, and any other
      error changes nothing but the cache. */
  lemma UpdateOutcomes(s: AdvState, svc: seq<Byte>, now: int, o: RadioOutcome)
    requires s.bleReady && s.started
    ensures var r := Request(s, svc, now, o);
            && (now - s.lastUpdateMs < MinUpdateMs ==> r.calls == [] && r.state == s.(cache := r.state.cache))
            && (now - s.lastUpdateMs >= MinUpdateMs ==>
                  && (o == Ok ==> r.state == s.(cache := r.state.cache, lastUpdateMs := now))
                  && (Transient(o) ==> r.state == s.(cache := r.state.cache, retry := Some(RetryDelayMs)))
                  && (o == ENotSup ==> r.state == s.(cache := r.state.cache, started := false, retry := Some(0))
                                       && r.calls == [Update(svc), Stop])
                  && (o == OtherError ==> r.state == s.(cache := r.state.cache))
                  && r.calls == (if o == ENotSup then [Update(svc), Stop] else [Update(svc)]))
  {
  }

  /** After a successful start or update, a request within the throttle window makes no radio call. */
  lemma ThrottleAfterSuccess(s: AdvState, svc1: seq<Byte>, t1: int, svc2: seq<Byte>, t2: int, o2: RadioOutcome)
    requires s.bleReady
    requires t1 <= t2 < t1 + MinUpdateMs
    ensures var r1 := Request(s, svc1, t1, Ok);
            r1.state.started && r1.calls != [] ==> Request(r1.state, svc2, t2, o2).calls == []
  {
  }

  /** The throttle measures from the last successful update: after a busy
      update the next request, 10 ms later, calls the radio again. */
  lemma BusyUpdateIsNotThrottled(cache: seq<Byte>, svc1: seq<Byte>, svc2: seq<Byte>)
    ensures var s := AdvState(true, true, 0, cache, None);
            var r1 := Request(s, svc1, 50, EBusy);
            var r2 := Request(r1.state, svc2, 60, Ok);
            r1.calls == [Update(svc1)] && r2.calls == [Update(svc2)]
  {
  }

  /** A busy start schedules one retry 150 ms ahead, and the retry, answered
      with success, starts advertising with the cached payload. */
  lemma BusyStartThenRetry(s: AdvState, svc: seq<Byte>, t1: int, t2: int)
    requires s.bleReady && !s.started
    ensures var r1 := Request(s, svc, t1, EBusy);
            var r2 := Retry(r1.state, t2, Ok);
            && !r1.state.started && r1.state.retry == Some(RetryDelayMs)
            && r2.state.started && r2.state.lastUpdateMs == t2 && r2.state.retry.None?
            && r2.calls == [Start(svc[..Min(|svc|, CacheCapacity)])]
  {
  }

  /** When in-place update is not supported, advertising is stopped and the
      immediate retry restarts it with the cached payload. */
  lemma UnsupportedUpdateRestarts(s: AdvState, svc: seq<Byte>, t1: int, t2: int)
    requires s.bleReady && s.started && t1 - s.lastUpdateMs >= MinUpdateMs
    ensures var r1 := Request(s, svc, t1, ENotSup);
            var r2 := Retry(r1.state, t2, Ok);
            && !r1.state.started && r1.state.retry == Some(0)
            && r1.calls == [Update(svc), Stop]
            && r2.state.started && r2.state.lastUpdateMs == t2
            && r2.calls == [Start(svc[..Min(|svc|, CacheCapacity)])]
  {
  }

  /** Becoming ready starts advertising with the fixed initial payload, not the
      payload cached while the stack was not ready. */
  lemma ReadySendsInitialPayload(s: AdvState, now: int)
    requires !s.bleReady && !s.started
    ensures BecomeReady(s, now, Ok).calls == [Start(InitialServiceData)]
  {
  }

  /** A further ready signal is not a no-op: once advertising, it sends the initial payload as an update. */
  lemma RepeatedReadyUpdates(s: AdvState, now: int)
    requires s.bleReady && s.started && now - s.lastUpdateMs >= MinUpdateMs
    ensures BecomeReady(s, now, Ok).calls == [Update(InitialServiceData)]
  {
  }
}
