/** The whole led_state module as a state machine over values: its static
    variables, the events it has submitted and the calls it has made to the
    radio, and one transition per event handler. The class in led_state.dfy
    is proved to perform exactly these transitions. */
module Machine {
  import opened Basics
  import opened Payload
  import opened Effects
  import opened Debounce
  import opened Coordinator
  import opened Advertising

  /** `enum ml_app_mode`; `Unset` is `ML_APP_MODE_COUNT`, the value before the first mode event. */
  datatype AppMode = ModelRunning | DataForwarding | Unset

  /** The build-time configuration: the effect table, `PREDICTION_STREAK_THRESH` and the two thresholds. */
  datatype Config = Config(table: seq<MlResultLedEffect>, streakThresh: nat, thresholds: Thresholds)

  /** `BUILD_ASSERT(PREDICTION_STREAK_THRESH > 0)` and `validate_configuration`. */
  predicate ValidConfig(cfg: Config)
  {
    WellFormedTable(cfg.table) && cfg.streakThresh > 0
  }

  /** An `ml_result_event`. */
  datatype Sample = Sample(lbl: Option<string>, value: real, anomaly: real,
                           dspTime: Int32, classificationTime: Int32, anomalyTime: Int32)

  /** `static uint8_t adata[64]` as first initialised. */
  const InitialAdata: seq<Byte> :=
    Preamble
    + [0x7a, 0x65, 0x70, 0x68, 0x79, 0x72, 0x70, 0x72, 0x6f, 0x6a, 0x65, 0x63, 0x74, 0x73, 0x08]
    + Repeat<Byte>(0, 44)

  datatype State = State(
    mode: AppMode,
    forwarder: ForwarderState,
    pred: Prediction,
    led: LedView,
    adata: seq<Byte>,
    adataSize: nat,
    adv: AdvState,
    events: seq<Event>,
    radio: seq<RadioCall>)

  /** What holds between handlers, except the streak bound, which `update_ml_result` breaks for a moment. */
  predicate Consistent(cfg: Config, s: State)
  {
    && ValidConfig(cfg)
    && |s.adata| == 64 && s.adata[..5] == Preamble && s.adataSize <= 64
    && |s.adv.cache| <= CacheCapacity
    && Inv(cfg.table, s.led)
  }

  predicate Valid(cfg: Config, s: State)
  {
    Consistent(cfg, s) && s.pred.streak < cfg.streakThresh
  }

  /** The statics at start-up; `displayDataForwarder` is `CONFIG_ML_APP_EI_DATA_FORWARDER_EVENTS`. */
  function Initial(cfg: Config, displayDataForwarder: bool): (s: State)
    requires ValidConfig(cfg)
    ensures Valid(cfg, s)
  {
    State(Unset, if displayDataForwarder then Disconnected else Transmitting, Cleared,
          LedView(None, None), InitialAdata, 19, InitialAdvState, [], [])
  }

  /** `display_ml_result` applied to the module state. */
  function DisplayIn(cfg: Config, s: State, lbl: Option<string>, force: bool): State
    requires |cfg.table| >= 1
  {
    var r := Display(cfg.table, s.led, lbl, force);
    s.(led := r.view, events := s.events + r.emitted)
  }

  /** `adv_start_or_update` applied to the module state. */
  function AdvIn(s: State, r: Advertising.Outcome): State
  {
    s.(adv := r.state, radio := s.radio + r.calls)
  }

  /** The label is a C string (bytes, no NUL inside) and the composed text fits `rs` with its NUL. */
  predicate Encodable(x: Sample)
  {
    && IsByteText(LabelText(x.lbl)) && '\0' !in LabelText(x.lbl)
    && |ResultText(x.lbl, x.dspTime, x.classificationTime, x.anomalyTime)| < RsCapacity
  }

  /** The first part of `update_ml_result`: the payload written over the start of `adata`. */
  function WritePayloadIn(s: State, p: seq<Byte>): State
    requires |p| <= |s.adata|
  {
    s.(adata := p + s.adata[|p|..], adataSize := |p|)
  }

  /** The second part of `update_ml_result`: track the candidate and, when
      the streak reaches the threshold, display the label and clear. */
  function DebounceIn(cfg: Config, s: State, c: Candidate): State
    requires ValidConfig(cfg)
  {
    var step := Observe(s.pred, c, cfg.streakThresh);
    var s1 := if step.stable.Some? then DisplayIn(cfg, s, step.stable.value, false) else s;
    s1.(pred := step.next)
  }

  /** `update_ml_result`: write the payload, debounce the sample, advertise the payload. */
  function UpdateMlResult(cfg: Config, s: State, x: Sample, now: int, o: RadioOutcome): (r: State)
    requires Consistent(cfg, s)
    requires Encodable(x)
    ensures Valid(cfg, r)
    ensures r.adata[..r.adataSize] == EncodePayload(x.lbl, x.dspTime, x.classificationTime, x.anomalyTime)
    ensures var p := EncodePayload(x.lbl, x.dspTime, x.classificationTime, x.anomalyTime);
            r.adv == Request(s.adv, p, now, o).state && r.radio == s.radio + Request(s.adv, p, now, o).calls
    ensures r.mode == s.mode && r.forwarder == s.forwarder
  {
    var p := EncodePayload(x.lbl, x.dspTime, x.classificationTime, x.anomalyTime);
    var s1 := WritePayloadIn(s, p);
    assert s1.adata[..5] == p[..5];
    var s2 := DebounceIn(cfg, s1, Classify(x.lbl, x.value, x.anomaly, cfg.thresholds));
    AdvIn(s2, Request(s2.adv, p, now, o))
  }

  /** `handle_ml_result_event`: results are taken only while the model runs and no blocking effect plays. */
  function OnMlResult(cfg: Config, s: State, x: Sample, now: int, o: RadioOutcome): (r: State)
    requires Valid(cfg, s)
    requires s.mode == ModelRunning && s.led.blocking.None? ==> Encodable(x)
    ensures Valid(cfg, r)
    ensures s.mode != ModelRunning || s.led.blocking.Some? ==> r == s
    ensures r.mode == s.mode && r.forwarder == s.forwarder
    ensures s.adv.bleReady ==> r.adv.bleReady
  {
    if s.mode == ModelRunning && s.led.blocking.None? then UpdateMlResult(cfg, s, x, now, o) else s
  }

  /** The ML-state LED reports that the blocking effect has played out, while the model runs. */
  predicate BlockEnds(s: State, ledId: nat, effect: EffectRef)
  {
    ledId == MlStateLed && s.mode == ModelRunning && s.led.blocking.Some?
    && effect == MlResult(s.led.blocking.value)
  }

  /** `handle_led_ready_event`: the end of the blocking effect on the ML-state LED forces the default effect. */
  function OnLedReady(cfg: Config, s: State, ledId: nat, effect: EffectRef): (r: State)
    requires Valid(cfg, s)
    ensures Valid(cfg, r)
    ensures !BlockEnds(s, ledId, effect) ==> r == s
    ensures BlockEnds(s, ledId, effect) ==>
              r == s.(led := LedView(Some(0), None),
                      events := s.events + [LedEvent(MlStateLed, MlResult(0)), SigninEvent(true)])
  {
    if BlockEnds(s, ledId, effect) then
      DefaultReleases(cfg.table, s.led);
      DisplayIn(cfg, s, None, true)
    else s
  }

  /** `handle_ml_app_mode_event`; modes other than the two supported ones are refused by an assertion. */
  function OnAppMode(cfg: Config, s: State, mode: AppMode): (r: State)
    requires Valid(cfg, s)
    requires mode != Unset
    ensures Valid(cfg, r)
    ensures mode == ModelRunning ==>
              r == s.(mode := mode, pred := Cleared, led := LedView(Some(0), None),
                      events := s.events + [LedEvent(MlStateLed, MlResult(0)), SigninEvent(true)])
    ensures mode == DataForwarding ==>
              r == s.(mode := mode, events := s.events + [LedEvent(MlStateLed, Forwarder(s.forwarder))])
  {
    var s1 := s.(mode := mode);
    DefaultReleases(cfg.table, s.led);
    if mode == ModelRunning then DisplayIn(cfg, s1.(pred := Cleared), None, true)
    else s1.(events := s1.events + [LedEvent(MlStateLed, Forwarder(s.forwarder))])
  }

  /** `handle_ei_data_forwarder_event`; the disabled state is refused by an assertion. */
  function OnForwarderState(cfg: Config, s: State, state: ForwarderState): (r: State)
    requires Valid(cfg, s)
    requires state != Disabled
    ensures Valid(cfg, r)
    ensures r == s.(forwarder := state,
                    events := s.events + if s.mode == DataForwarding then [LedEvent(MlStateLed, Forwarder(state))] else [])
  {
    var s1 := s.(forwarder := state);
    if s.mode == DataForwarding then s1.(events := s1.events + [LedEvent(MlStateLed, Forwarder(state))])
    else s1
  }

  /** Any "Bluetooth ready" signal. */
  function OnBleReady(cfg: Config, s: State, now: int, o: RadioOutcome): (r: State)
    requires Valid(cfg, s)
    ensures Valid(cfg, r)
    ensures r.adv.bleReady
    ensures r == s.(adv := r.adv, radio := r.radio) && r.adv.cache == InitialServiceData
    ensures !s.adv.started ==> r.radio == s.radio + [Start(InitialServiceData)]
  {
    AdvIn(s, BecomeReady(s.adv, now, o))
  }

  /** `adv_retry_fn`, run by the work queue. */
  function OnRetry(cfg: Config, s: State, now: int, o: RadioOutcome): (r: State)
    requires Valid(cfg, s)
    ensures Valid(cfg, r)
    ensures r.adv.bleReady == s.adv.bleReady
    ensures r == s.(adv := r.adv, radio := r.radio)
  {
    AdvIn(s, Retry(s.adv, now, o))
  }

  /** The main module's READY state: the module signs in for results and, if
      Bluetooth is not ready yet and `bt_enable` answers that it already is
      enabled, becomes ready. */
  function OnMainReady(cfg: Config, s: State, btAlreadyEnabled: bool, now: int, o: RadioOutcome): (r: State)
    requires Valid(cfg, s)
    ensures Valid(cfg, r)
    ensures r.events == s.events + [SigninEvent(true)]
    ensures !s.adv.bleReady && btAlreadyEnabled ==>
              && r.adv.bleReady && r.adv.cache == InitialServiceData
              && r == s.(events := r.events, adv := r.adv, radio := r.radio)
              && (!s.adv.started ==> r.radio == s.radio + [Start(InitialServiceData)])
    ensures s.adv.bleReady || !btAlreadyEnabled ==> r == s.(events := r.events)
  {
    var s1 := s.(events := s.events + [SigninEvent(true)]);
    if !s.adv.bleReady && btAlreadyEnabled then OnBleReady(cfg, s1, now, o) else s1
  }

  /** While a blocking effect plays, results neither change the state nor reach the LED. */
  lemma NoResultsWhileBlocked(cfg: Config, s: State, x: Sample, now: int, o: RadioOutcome)
    requires Valid(cfg, s) && s.led.blocking.Some?
    ensures OnMlResult(cfg, s, x, now, o) == s
  {
  }

  /** The end of the blocking effect shows the default effect and signs in again. */
  lemma BlockingHandshake(cfg: Config, s: State, b: nat)
    requires Valid(cfg, s) && s.mode == ModelRunning && s.led.blocking == Some(b)
    ensures var r := OnLedReady(cfg, s, MlStateLed, MlResult(b));
            && r.led == LedView(Some(0), None)
            && r.events == s.events + [LedEvent(MlStateLed, MlResult(0)), SigninEvent(true)]
            && r.pred == s.pred && r.adv == s.adv
  {
    DefaultReleases(cfg.table, s.led);
  }

  /** Entering the running mode clears the prediction and shows the default effect, signed in. */
  lemma EnterRunning(cfg: Config, s: State)
    requires Valid(cfg, s)
    ensures var r := OnAppMode(cfg, s, ModelRunning);
            && r.pred == Cleared && r.led == LedView(Some(0), None)
            && r.events == s.events + [LedEvent(MlStateLed, MlResult(0)), SigninEvent(true)]
  {
    DefaultReleases(cfg.table, s.led);
  }

  /** The ready flag is only ever set: no transition clears it. */
  lemma BleReadyOnlyRises(cfg: Config, s: State, x: Sample, now: int, o: RadioOutcome, ledId: nat,
                          effect: EffectRef, mode: AppMode, state: ForwarderState, btAlreadyEnabled: bool)
    requires Valid(cfg, s) && s.adv.bleReady
    requires Encodable(x)
    requires mode != Unset && state != Disabled
    ensures OnMlResult(cfg, s, x, now, o).adv.bleReady
    ensures OnLedReady(cfg, s, ledId, effect).adv.bleReady
    ensures OnAppMode(cfg, s, mode).adv.bleReady
    ensures OnForwarderState(cfg, s, state).adv.bleReady
    ensures OnRetry(cfg, s, now, o).adv.bleReady
    ensures OnMainReady(cfg, s, btAlreadyEnabled, now, o).adv.bleReady
    ensures OnBleReady(cfg, s, now, o).adv.bleReady
  {
  }

  /** Results fed one at a time, each with its uptime and radio answer. */
  function Feed(cfg: Config, s: State, xs: seq<Sample>, nows: seq<int>, os: seq<RadioOutcome>): (r: State)
    requires Valid(cfg, s)
    requires |xs| == |nows| == |os|
    requires forall i | 0 <= i < |xs| :: Encodable(xs[i])
    ensures Valid(cfg, r)
    decreases |xs|
  {
    if xs == [] then s
    else
      var n := |xs| - 1;
      assert forall i | 0 <= i < n :: xs[..n][i] == xs[i];
      var q := Feed(cfg, s, xs[..n], nows[..n], os[..n]);
      OnMlResult(cfg, q, xs[n], nows[n], os[n])
  }

  /** The candidate a sample votes for under the configured thresholds. */
  function CandidateOf(cfg: Config, x: Sample): Candidate
  {
    Classify(x.lbl, x.value, x.anomaly, cfg.thresholds)
  }

  /** Fewer than threshold-many results voting for the same label build a
      streak and leave the LED and the events alone. */
  lemma {:induction false} ResultsBuildStreak(cfg: Config, s: State, xs: seq<Sample>, nows: seq<int>,
                                               os: seq<RadioOutcome>, l: Option<string>)
    requires Valid(cfg, s) && s.mode == ModelRunning && s.led.blocking.None? && s.pred == Cleared
    requires |xs| == |nows| == |os| < cfg.streakThresh
    requires forall i | 0 <= i < |xs| :: Encodable(xs[i]) && CandidateOf(cfg, xs[i]) == Candidate(l, true)
    ensures var r := Feed(cfg, s, xs, nows, os);
            && r.pred == (if xs == [] then Cleared else Prediction(l, |xs|))
            && r.led == s.led && r.events == s.events && r.mode == s.mode
    decreases |xs|
  {
    if xs != [] {
      var n := |xs| - 1;
      ResultsBuildStreak(cfg, s, xs[..n], nows[..n], os[..n], l);
      var q := Feed(cfg, s, xs[..n], nows[..n], os[..n]);
      AcceptedSample(q.pred, CandidateOf(cfg, xs[n]), cfg.streakThresh);
    }
  }

  /** Threshold-many results voting for the same label, from a cleared
      prediction, display that label once (one LED event and one sign-in
      event, unless the LED already shows its effect) and clear the prediction. */
  lemma ResultsStabilise(cfg: Config, s: State, xs: seq<Sample>, nows: seq<int>,
                         os: seq<RadioOutcome>, l: Option<string>)
    requires Valid(cfg, s) && s.mode == ModelRunning && s.led.blocking.None? && s.pred == Cleared
    requires |xs| == |nows| == |os| == cfg.streakThresh
    requires forall i | 0 <= i < |xs| :: Encodable(xs[i]) && CandidateOf(cfg, xs[i]) == Candidate(l, true)
    ensures var r := Feed(cfg, s, xs, nows, os);
            var d := Display(cfg.table, s.led, l, false);
            && r.pred == Cleared && r.led == d.view && r.events == s.events + d.emitted
  {
    var n := |xs| - 1;
    ResultsBuildStreak(cfg, s, xs[..n], nows[..n], os[..n], l);
    var q := Feed(cfg, s, xs[..n], nows[..n], os[..n]);
    AcceptedSample(q.pred, CandidateOf(cfg, xs[n]), cfg.streakThresh);
  }

  /** A low-confidence result without anomaly score is taken as a vote for "idle". */
  lemma IdleFallback(cfg: Config, x: Sample)
    requires x.anomaly < 0.0 && x.value < cfg.thresholds.value
    ensures CandidateOf(cfg, x) == Candidate(Some(IdleLabel), true)
  {
  }
}
