/** The led_state module as an object: its fields are the module's static
    variables (and the function-local statics `ml_result_effect` and `adata`),
    its methods are the module's functions and event handlers. Events the
    module submits and the calls it makes to the radio are appended to
    `events` and `radio`. Each event handler and each step of
    `update_ml_result` is proved to perform a transition of module Machine:
    `HandleX` performs `OnX`, `AdvRetryFn` performs `OnRetry`, and
    `UpdateMlResult` performs `Machine.UpdateMlResult`. `ClearPrediction`,
    `CacheServiceData`, `AdvStartOrUpdate`, `SendLedEvent` and
    `SetSigninState` have no transition of their own; they state their effect
    on the fields they change. */
module LedState {
  import opened Basics
  import opened Payload
  import opened Effects
  import opened Debounce
  import opened Coordinator
  import opened Advertising
  import opened Machine

  /** The loop of `update_ml_result` that stores the first `l` characters of `rs`, cast to bytes, from offset 5 on. */
  method CopyText(a: array<Byte>, rs: string, l: nat)
    requires l <= |rs| && 5 + l <= a.Length
    modifies a
    ensures a[..] == old(a[..5]) + ToBytes(rs[..l]) + old(a[..])[5 + l..]
  {
    for i := 0 to l
      invariant a[..] == old(a[..5]) + ToBytes(rs[..i]) + old(a[..])[5 + i..]
    {
      a[i + 5] := ToByte(rs[i]);
    }
  }

  class LedStateModule {
    const cfg: Config

    var mlAppMode: AppMode
    var forwarderState: ForwarderState
    var blockingLedEffect: Option<nat>
    var curLabel: Option<string>
    var predictionStreak: nat
    /** The static `ml_result_effect` of `display_ml_result`. */
    var mlResultEffect: Option<nat>

    /** The static `adata[64]` and `adatasize` of `update_ml_result`. */
    const adata: array<Byte>
    var adataSize: nat

    var bleReady: bool
    var advStarted: bool
    var advLastUpdateMs: int
    const lastSvcBuf: array<Byte>
    var lastSvcLen: nat
    /** `adv_retry_work`: the delay it is scheduled with, None when not pending. */
    var advRetryWork: Option<nat>

    var events: seq<Event>
    var radio: seq<RadioCall>

    ghost predicate Wired()
      reads this
    {
      adata.Length == 64 && lastSvcBuf.Length == CacheCapacity && adata != lastSvcBuf
      && lastSvcLen <= CacheCapacity
    }

    /** The advertising statics as a value. */
    ghost function AdvView(): AdvState
      reads this, lastSvcBuf
      requires lastSvcLen <= lastSvcBuf.Length
    {
      AdvState(bleReady, advStarted, advLastUpdateMs, lastSvcBuf[..lastSvcLen], advRetryWork)
    }

    /** The module state as a value. */
    ghost function Snapshot(): State
      reads this, adata, lastSvcBuf
      requires Wired()
    {
      State(mlAppMode, forwarderState, Prediction(curLabel, predictionStreak),
            LedView(mlResultEffect, blockingLedEffect), adata[..], adataSize,
            AdvView(), events, radio)
    }

    ghost predicate Consistent()
      reads this, adata, lastSvcBuf
    {
      Wired() && Machine.Consistent(cfg, Snapshot())
    }

    ghost predicate Valid()
      reads this, adata, lastSvcBuf
    {
      Wired() && Machine.Valid(cfg, Snapshot())
    }

    constructor (config: Config, displayDataForwarder: bool)
      requires ValidConfig(config)
      ensures Wired() && Snapshot() == Initial(config, displayDataForwarder)
      ensures Valid()
    {
      cfg := config;
      mlAppMode := Unset;
      forwarderState := if displayDataForwarder then Disconnected else Transmitting;
      blockingLedEffect := None;
      curLabel := None;
      predictionStreak := 0;
      mlResultEffect := None;
      adata := new Byte[64](i requires 0 <= i < 64 => InitialAdata[i]);
      adataSize := 19;
      bleReady := false;
      advStarted := false;
      advLastUpdateMs := 0;
      lastSvcBuf := new Byte[CacheCapacity];
      lastSvcLen := 0;
      advRetryWork := None;
      events := [];
      radio := [];
      new;
      assert adata[..] == InitialAdata;
    }

    /** `clear_prediction`. */
    method ClearPrediction()
      requires Consistent()
      modifies this
      ensures Wired() && Snapshot() == old(Snapshot()).(pred := Cleared)
      ensures Consistent()
    {
      curLabel := None;
      predictionStreak := 0;
    }

    /** The `memcpy` into `last_svc_buf` that caches the service data for retries. */
    method CacheServiceData(svc: seq<Byte>)
      requires Wired()
      modifies this`lastSvcLen, lastSvcBuf
      ensures Wired()
      ensures AdvView() == old(AdvView()).(cache := svc[..Min(|svc|, CacheCapacity)])
    {
      var copyLen := Min(|svc|, lastSvcBuf.Length);
      var i := 0;
      while i < copyLen
        invariant 0 <= i <= copyLen
        invariant lastSvcBuf[..i] == svc[..i]
      {
        lastSvcBuf[i] := svc[i];
        i := i + 1;
      }
      assert lastSvcBuf[..copyLen] == svc[..copyLen];
      lastSvcLen := copyLen;
    }

    /** `adv_start_or_update(svc_data, svc_len)`. */
    method AdvStartOrUpdate(svc: seq<Byte>, now: int, o: RadioOutcome)
      requires Wired()
      modifies this`lastSvcLen, lastSvcBuf, this`advRetryWork, this`advStarted, this`advLastUpdateMs, this`radio
      ensures Wired()
      ensures AdvView() == Request(old(AdvView()), svc, now, o).state
      ensures radio == old(radio) + Request(old(AdvView()), svc, now, o).calls
    {
      CacheServiceData(svc);

      if !bleReady {
        advRetryWork := Some(RetryDelayMs);
        return;
      }

      if !advStarted {
        radio := radio + [Start(svc)];
        if o != Ok {
          if Transient(o) {
            advRetryWork := Some(RetryDelayMs);
          }
          return;
        }
        advRetryWork := None;
        advStarted := true;
        advLastUpdateMs := now;
        return;
      }

      if now - advLastUpdateMs < MinUpdateMs {
        return;
      }

      radio := radio + [Update(svc)];
      if o == Ok {
        advLastUpdateMs := now;
        return;
      }
      if Transient(o) {
        advRetryWork := Some(RetryDelayMs);
        return;
      }
      if o == ENotSup {
        radio := radio + [Stop];
        advStarted := false;
        advRetryWork := Some(0);
        return;
      }
    }

    /** `adv_retry_fn`: the work item runs and replays the cached service data. */
    method AdvRetryFn(now: int, o: RadioOutcome)
      requires Valid()
      modifies this, lastSvcBuf
      ensures Wired() && Snapshot() == OnRetry(cfg, old(Snapshot()), now, o)
      ensures Valid()
    {
      ghost var s0 := Snapshot();
      advRetryWork := None;
      assert AdvView() == s0.adv.(retry := None);
      AdvStartOrUpdate(lastSvcBuf[..lastSvcLen], now, o);
      assert Snapshot() == s0.(adv := AdvView(), radio := radio);
    }

    /** `start_initial_adv`. */
    method StartInitialAdv(now: int, o: RadioOutcome)
      requires Consistent()
      modifies this, lastSvcBuf
      ensures Wired() && Snapshot() == AdvIn(old(Snapshot()), Request(old(Snapshot()).adv, InitialServiceData, now, o))
      ensures Consistent()
    {
      AdvStartOrUpdate(InitialServiceData, now, o);
    }

    /** Set `ble_ready` and advertise the initial payload, as every ready path does. */
    method BecomeBleReady(now: int, o: RadioOutcome)
      requires Valid()
      modifies this, lastSvcBuf
      ensures Wired() && Snapshot() == OnBleReady(cfg, old(Snapshot()), now, o)
      ensures Valid()
    {
      bleReady := true;
      StartInitialAdv(now, o);
    }

    /** `bt_ready_cb(err)`: a non-zero error leaves Bluetooth not ready. */
    method BtReadyCb(err: int, now: int, o: RadioOutcome)
      requires Valid()
      modifies this, lastSvcBuf
      ensures Wired() && Snapshot() == if err != 0 then old(Snapshot()) else OnBleReady(cfg, old(Snapshot()), now, o)
      ensures Valid()
    {
      if err != 0 {
        return;
      }
      BecomeBleReady(now, o);
    }

    /** `send_led_event(led_id, led_effect)`: submit a LED event. */
    method SendLedEvent(ledId: nat, effect: EffectRef)
      modifies this`events
      ensures events == old(events) + [LedEvent(ledId, effect)]
    {
      events := events + [LedEvent(ledId, effect)];
    }

    /** `ml_result_set_signin_state(state)`: submit a sign-in event. */
    method SetSigninState(state: bool)
      modifies this`events
      ensures events == old(events) + [SigninEvent(state)]
    {
      events := events + [SigninEvent(state)];
    }

    /** `display_ml_result(label, force_update)`. */
    method DisplayMlResult(lbl: Option<string>, force: bool)
      requires Consistent()
      requires mlAppMode == ModelRunning
      requires force ==> lbl.None?
      modifies this`mlResultEffect, this`blockingLedEffect, this`events
      ensures Wired() && Snapshot() == DisplayIn(cfg, old(Snapshot()), lbl, force)
      ensures Consistent()
    {
      ghost var s0 := Snapshot();
      ghost var shown := Display(cfg.table, s0.led, lbl, force);
      var newEffect := GetLedEffect(cfg.table, lbl);
      if mlResultEffect == Some(newEffect) && !force {
        assert shown == Shown(s0.led, []);
        return;
      }
      mlResultEffect := Some(newEffect);
      SendLedEvent(MlStateLed, MlResult(newEffect));
      if IsBlocking(cfg.table[newEffect].effect) {
        blockingLedEffect := Some(newEffect);
        SetSigninState(false);
      } else {
        blockingLedEffect := None;
        SetSigninState(true);
      }
      assert Snapshot() == s0.(led := LedView(mlResultEffect, blockingLedEffect), events := events);
      assert events == s0.events + shown.emitted;
      assert LedView(mlResultEffect, blockingLedEffect) == shown.view;
    }

    /** The part of `update_ml_result` that writes the payload: the capped text after the preamble of `adata`. */
    method WritePayload(lbl: Option<string>, dspTime: Int32, classificationTime: Int32, anomalyTime: Int32)
      requires Consistent()
      modifies adata, this`adataSize
      ensures Wired() && Snapshot() == WritePayloadIn(old(Snapshot()), EncodePayload(lbl, dspTime, classificationTime, anomalyTime))
      ensures Consistent()
    {
      var rs := ResultText(lbl, dspTime, classificationTime, anomalyTime);
      var l := Min(|rs|, RsMaxLen);
      CopyText(adata, rs, l);
      adataSize := 5 + l;
      ghost var p := EncodePayload(lbl, dspTime, classificationTime, anomalyTime);
      assert p == Preamble + ToBytes(rs[..l]);
      assert adata[..] == p + old(adata[..])[|p|..];
    }

    /** The acceptance and streak part of `update_ml_result`. */
    method TrackResult(c: Candidate)
      requires Valid()
      requires mlAppMode == ModelRunning
      modifies this
      ensures Wired() && Snapshot() == DebounceIn(cfg, old(Snapshot()), c)
      ensures Valid()
    {
      if c.lbl != curLabel {
        curLabel := c.lbl;
        predictionStreak := 0;
      }
      if c.accept {
        predictionStreak := predictionStreak + 1;
      }
      if predictionStreak >= cfg.streakThresh {
        DisplayMlResult(curLabel, false);
        ClearPrediction();
      }
    }

    /** `update_ml_result`: write the payload into `adata`, debounce the result, advertise. */
    method UpdateMlResult(lbl: Option<string>, value: real, anomaly: real,
                          dspTime: Int32, classificationTime: Int32, anomalyTime: Int32,
                          now: int, o: RadioOutcome)
      requires Valid()
      requires mlAppMode == ModelRunning
      requires Encodable(Sample(lbl, value, anomaly, dspTime, classificationTime, anomalyTime))
      modifies this, adata, lastSvcBuf
      ensures Wired() && Snapshot() == Machine.UpdateMlResult(cfg, old(Snapshot()),
                              Sample(lbl, value, anomaly, dspTime, classificationTime, anomalyTime), now, o)
      ensures Valid()
    {
      WritePayload(lbl, dspTime, classificationTime, anomalyTime);
      TrackResult(Classify(lbl, value, anomaly, cfg.thresholds));
      ghost var s2 := Snapshot();
      AdvStartOrUpdate(adata[..adataSize], now, o);
      assert Snapshot() == s2.(adv := AdvView(), radio := radio);
    }

    /** `handle_ml_result_event`. */
    method HandleMlResultEvent(lbl: Option<string>, value: real, anomaly: real,
                               dspTime: Int32, classificationTime: Int32, anomalyTime: Int32,
                               now: int, o: RadioOutcome)
      requires Valid()
      requires mlAppMode == ModelRunning && blockingLedEffect.None? ==>
                 Encodable(Sample(lbl, value, anomaly, dspTime, classificationTime, anomalyTime))
      modifies this, adata, lastSvcBuf
      ensures Wired() && Snapshot() == OnMlResult(cfg, old(Snapshot()),
                              Sample(lbl, value, anomaly, dspTime, classificationTime, anomalyTime), now, o)
      ensures Valid()
    {
      if mlAppMode == ModelRunning && blockingLedEffect.None? {
        UpdateMlResult(lbl, value, anomaly, dspTime, classificationTime, anomalyTime, now, o);
      }
    }

    /** `handle_ei_data_forwarder_event`. */
    method HandleEiDataForwarderEvent(state: ForwarderState)
      requires Valid()
      requires state != Disabled
      modifies this
      ensures Wired() && Snapshot() == OnForwarderState(cfg, old(Snapshot()), state)
      ensures Valid()
    {
      forwarderState := state;
      if mlAppMode == DataForwarding {
        SendLedEvent(MlStateLed, Forwarder(forwarderState));
      }
    }

    /** `handle_led_ready_event`. */
    method HandleLedReadyEvent(ledId: nat, effect: EffectRef)
      requires Valid()
      modifies this
      ensures Wired() && Snapshot() == OnLedReady(cfg, old(Snapshot()), ledId, effect)
      ensures Valid()
    {
      if ledId == MlStateLed && mlAppMode == ModelRunning && blockingLedEffect.Some?
         && effect == MlResult(blockingLedEffect.value) {
        DisplayMlResult(None, true);
      }
    }

    /** `handle_ml_app_mode_event`. */
    method HandleMlAppModeEvent(mode: AppMode)
      requires Valid()
      requires mode != Unset
      modifies this
      ensures Wired() && Snapshot() == OnAppMode(cfg, old(Snapshot()), mode)
      ensures Valid()
    {
      mlAppMode := mode;
      if mode == ModelRunning {
        ClearPrediction();
        DisplayMlResult(None, true);
      } else {
        SendLedEvent(MlStateLed, Forwarder(forwarderState));
      }
    }

    /** The ble_state module's READY event. */
    method HandleBleStateReady(now: int, o: RadioOutcome)
      requires Valid()
      modifies this, lastSvcBuf
      ensures Wired() && Snapshot() == OnBleReady(cfg, old(Snapshot()), now, o)
      ensures Valid()
    {
      BecomeBleReady(now, o);
    }

    /** The main module's READY event: check the configuration, sign in for
        results, and become ready if `bt_enable` says Bluetooth already is enabled. */
    method HandleMainReady(btAlreadyEnabled: bool, now: int, o: RadioOutcome)
      requires Valid()
      modifies this, lastSvcBuf
      ensures Wired() && Snapshot() == OnMainReady(cfg, old(Snapshot()), btAlreadyEnabled, now, o)
      ensures Valid()
    {
      var ok := ValidateConfiguration(cfg.table);
      assert ok;
      SetSigninState(true);
      if !bleReady && btAlreadyEnabled {
        BecomeBleReady(now, o);
      }
    }
  }
}
