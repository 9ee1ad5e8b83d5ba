/** What `display_ml_result` decides: which effect the ML-state LED shows, the
    LED event it sends, and the sign-in event that tells the result producer
    whether to go on (a non-blocking effect) or to wait until a blocking effect
    has played out. */
module Coordinator {
  import opened Basics
  import opened Effects

  datatype ForwarderState = Disabled | Disconnected | Connected | Transmitting

  /** A pointer to an LED effect: an entry of the result table, or the data
      forwarder's effect for a state. */
  datatype EffectRef = MlResult(index: nat) | Forwarder(state: ForwarderState)

  /** Events the module submits: `led_event` and `ml_result_signin_event`. */
  datatype Event = LedEvent(ledId: nat, effect: EffectRef) | SigninEvent(state: bool)

  /** `led_map[LED_ID_ML_STATE]` on this board. */
  const MlStateLed: nat := 0

  /** `ml_result_effect` (the static of `display_ml_result`) and `blocking_led_effect`, as table indices. */
  datatype LedView = LedView(current: Option<nat>, blocking: Option<nat>)

  /** The blocking reference is set exactly when the displayed effect is a blocking one, and then names it. */
  predicate Inv(t: seq<MlResultLedEffect>, v: LedView)
  {
    && (v.current.Some? ==> v.current.value < |t|)
    && v.blocking == (if v.current.Some? && IsBlocking(t[v.current.value].effect) then v.current else None)
  }

  /** The new view and the events submitted. */
  datatype Shown = Shown(view: LedView, emitted: seq<Event>)

  /** `display_ml_result(label, force_update)`. */
  function Display(t: seq<MlResultLedEffect>, v: LedView, lbl: Option<string>, force: bool): (r: Shown)
    requires |t| >= 1
    ensures r.emitted == [] <==> v.current == Some(ResolveEffect(t, lbl)) && !force
    ensures r.emitted == [] ==> r.view == v
    ensures r.emitted != [] ==>
              && r.view.current == Some(ResolveEffect(t, lbl))
              && r.emitted == [LedEvent(MlStateLed, MlResult(ResolveEffect(t, lbl))),
                               SigninEvent(!IsBlocking(t[ResolveEffect(t, lbl)].effect))]
    ensures Inv(t, v) ==> Inv(t, r.view)
  {
    var e := ResolveEffect(t, lbl);
    if v.current == Some(e) && !force then Shown(v, [])
    else
      var blocking := IsBlocking(t[e].effect);
      Shown(LedView(Some(e), if blocking then Some(e) else None),
            [LedEvent(MlStateLed, MlResult(e)), SigninEvent(!blocking)])
  }

  /** The sign-in state a display submits is false exactly when it leaves a blocking effect on the LED. */
  lemma SigninFollowsBlocking(t: seq<MlResultLedEffect>, v: LedView, lbl: Option<string>, force: bool)
    requires |t| >= 1
    ensures var r := Display(t, v, lbl, force);
            r.emitted != [] ==> r.emitted[1] == SigninEvent(r.view.blocking.None?)
  {
  }

  /** A forced display of the default effect, as after a blocking effect has
      played out, releases the block and signs in again, in a well-formed table. */
  lemma DefaultReleases(t: seq<MlResultLedEffect>, v: LedView)
    requires WellFormedTable(t)
    ensures Display(t, v, None, true)
         == Shown(LedView(Some(0), None), [LedEvent(MlStateLed, MlResult(0)), SigninEvent(true)])
  {
  }
}
