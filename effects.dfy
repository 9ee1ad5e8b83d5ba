/** The table that maps a machine-learning label to the LED effect shown for
    it, the lookup `get_led_effect` performs on it, the blocking test, and the
    start-up checks `validate_configuration` makes. Entry 0 is the default
    effect, used for a NULL label and for labels the table does not list. */
module Effects {
  import opened Basics

  /** `ANOMALY_LABEL`, reserved for samples whose anomaly score is over the threshold. */
  const AnomalyLabel: string := "anomaly"

  datatype Color = Color(r: Byte, g: Byte, b: Byte)

  datatype LedEffectStep = LedEffectStep(color: Color, substepCount: nat, substepTime: nat)

  /** `struct led_effect`: its steps (and so `step_count`) and `loop_forever`. */
  datatype LedEffect = LedEffect(steps: seq<LedEffectStep>, loopForever: bool)

  /** `struct ml_result_led_effect`: a label (NULL for the default entry) and its effect. */
  datatype MlResultLedEffect = MlResultLedEffect(lbl: Option<string>, effect: LedEffect)

  /** A blocking effect plays a finite sequence of several steps that must finish before results are shown again. */
  predicate IsBlocking(e: LedEffect)
    ensures IsBlocking(e) ==> IsValid(e) && !e.loopForever
  {
    !e.loopForever && |e.steps| > 1
  }

  /** `is_led_effect_valid`: the effect is not the all-zero structure. */
  predicate IsValid(e: LedEffect)
    ensures IsValid(e) <==> |e.steps| > 0 || e.loopForever
  {
    e != LedEffect([], false)
  }

  /** How many of the entries 1 .. n-1 carry the anomaly label. */
  function AnomalyCount(t: seq<MlResultLedEffect>, n: nat): nat
    requires n <= |t|
  {
    if n <= 1 then 0
    else AnomalyCount(t, n - 1) + (if t[n - 1].lbl == Some(AnomalyLabel) then 1 else 0)
  }

  /** What `validate_configuration` asserts of the table. */
  predicate WellFormedTable(t: seq<MlResultLedEffect>)
  {
    && |t| >= 1
    && t[0].lbl.None?
    && !IsBlocking(t[0].effect)
    && (forall i | 1 <= i < |t| :: IsValid(t[i].effect) && t[i].lbl.Some?)
    && AnomalyCount(t, |t|) <= 1
  }

  lemma {:induction false} AnomalyCountPositive(t: seq<MlResultLedEffect>, n: nat, i: nat)
    requires 1 <= i < n <= |t| && t[i].lbl == Some(AnomalyLabel)
    ensures AnomalyCount(t, n) >= 1 + AnomalyCount(t, i)
    decreases n
  {
    if n - 1 > i {
      AnomalyCountPositive(t, n - 1, i);
    }
  }

  /** In a well-formed table at most one entry is reserved for anomalies. */
  lemma AnomalyEntryUnique(t: seq<MlResultLedEffect>, i: nat, j: nat)
    requires WellFormedTable(t)
    requires 1 <= i < |t| && 1 <= j < |t|
    requires t[i].lbl == Some(AnomalyLabel) && t[j].lbl == Some(AnomalyLabel)
    ensures i == j
  {
    if i < j {
      AnomalyCountPositive(t, j, i);
      AnomalyCountPositive(t, |t|, j);
    } else if j < i {
      AnomalyCountPositive(t, i, j);
      AnomalyCountPositive(t, |t|, i);
    }
  }

  /** `validate_configuration`: true exactly when every start-up assertion holds. */
  method ValidateConfiguration(t: seq<MlResultLedEffect>) returns (ok: bool)
    ensures ok == WellFormedTable(t)
  {
    if |t| < 1 || IsBlocking(t[0].effect) || t[0].lbl.Some? {
      return false;
    }
    var anomalyLabelCnt := 0;
    for i := 1 to |t|
      invariant anomalyLabelCnt == AnomalyCount(t, i)
      invariant forall j | 1 <= j < i :: IsValid(t[j].effect) && t[j].lbl.Some?
    {
      if !IsValid(t[i].effect) || t[i].lbl.None? {
        return false;
      }
      if t[i].lbl.value == AnomalyLabel {
        anomalyLabelCnt := anomalyLabelCnt + 1;
      }
    }
    return anomalyLabelCnt <= 1;
  }

  /** The index `get_led_effect` returns: 0 for a NULL label, else the first
      entry from 1 on whose label is equal, else 0 (see ResolveEffectSpec). */
  function ResolveEffect(t: seq<MlResultLedEffect>, lbl: Option<string>): (i: nat)
    requires |t| >= 1
    ensures i < |t|
  {
    if lbl.None? then 0 else FindFrom(t, lbl.value, 1)
  }

  function FindFrom(t: seq<MlResultLedEffect>, l: string, k: nat): (i: nat)
    requires 1 <= k <= |t|
    ensures i == 0 || k <= i < |t|
    decreases |t| - k
  {
    if k == |t| then 0
    else if t[k].lbl == Some(l) then k
    else FindFrom(t, l, k + 1)
  }

  /** The scan from `k` finds the first entry at or after `k` labelled `l`, and 0 when there is none. */
  lemma {:induction false} FindFromSpec(t: seq<MlResultLedEffect>, l: string, k: nat)
    requires 1 <= k <= |t|
    ensures var i := FindFrom(t, l, k);
            && (i >= 1 ==> t[i].lbl == Some(l) && forall j | k <= j < i :: t[j].lbl != Some(l))
            && (i == 0 ==> forall j | k <= j < |t| :: t[j].lbl != Some(l))
    decreases |t| - k
  {
    if k < |t| && t[k].lbl != Some(l) {
      FindFromSpec(t, l, k + 1);
    }
  }

  /** What `get_led_effect` promises: the default entry for a NULL label, else
      the first entry with an equal label, and the default only when no entry has it. */
  lemma ResolveEffectSpec(t: seq<MlResultLedEffect>, lbl: Option<string>)
    requires |t| >= 1
    ensures var i := ResolveEffect(t, lbl);
            && (lbl.None? ==> i == 0)
            && (i >= 1 ==> t[i].lbl == lbl && forall j | 1 <= j < i :: t[j].lbl != lbl)
            && (i == 0 && lbl.Some? ==> forall j | 1 <= j < |t| :: t[j].lbl != lbl)
  {
    if lbl.Some? {
      FindFromSpec(t, lbl.value, 1);
    }
  }

  /** `get_led_effect`: the linear scan of the table. */
  method GetLedEffect(t: seq<MlResultLedEffect>, lbl: Option<string>) returns (r: nat)
    requires |t| >= 1
    ensures r == ResolveEffect(t, lbl)
  {
    r := 0;
    if lbl.None? {
      return;
    }
    var i := 1;
    while i < |t|
      invariant 1 <= i <= |t|
      invariant FindFrom(t, lbl.value, i) == FindFrom(t, lbl.value, 1)
    {
      if t[i].lbl == lbl {
        r := i;
        return;
      }
      i := i + 1;
    }
  }

  /** In a well-formed table the anomaly label resolves to its own entry whenever there is one. */
  lemma AnomalyResolvesToItsEntry(t: seq<MlResultLedEffect>, i: nat)
    requires WellFormedTable(t)
    requires 1 <= i < |t| && t[i].lbl == Some(AnomalyLabel)
    ensures ResolveEffect(t, Some(AnomalyLabel)) == i
  {
    var r := ResolveEffect(t, Some(AnomalyLabel));
    ResolveEffectSpec(t, Some(AnomalyLabel));
    if r != 0 {
      AnomalyEntryUnique(t, i, r);
    }
  }

  // The effects of configuration/thingy52_nrf52832/led_state_def.h.

  const NoColor := Color(0, 0, 0)

  /** `LED_EFFECT_LED_ON`: one step, played once. */
  function LedOn(c: Color): LedEffect
  {
    LedEffect([LedEffectStep(c, 1, 0)], false)
  }

  /** `LED_EFFECT_LED_BLINK2`: lit, then dark, looping forever. */
  function LedBlink2(periodOn: nat, periodOff: nat, c: Color): LedEffect
  {
    LedEffect([LedEffectStep(c, 1, periodOn), LedEffectStep(NoColor, 1, periodOff)], true)
  }

  const ThingyTable: seq<MlResultLedEffect> := [
    MlResultLedEffect(None, LedBlink2(1000, 2000, Color(255, 255, 255))),
    MlResultLedEffect(Some(AnomalyLabel), LedOn(Color(255, 0, 255))),
    MlResultLedEffect(Some("idle"), LedOn(Color(255, 255, 255))),
    MlResultLedEffect(Some("zoom_in"), LedOn(Color(255, 0, 0))),
    MlResultLedEffect(Some("zoom_out"), LedOn(Color(0, 0, 255))),
    MlResultLedEffect(Some("rot_left"), LedOn(Color(0, 255, 0))),
    MlResultLedEffect(Some("rot_right"), LedOn(Color(127, 0, 127))),
    MlResultLedEffect(Some("move_left"), LedOn(Color(127, 127, 127))),
    MlResultLedEffect(Some("move_right"), LedOn(Color(127, 255, 127)))
  ]

  /** The board's table passes `validate_configuration`, and none of its effects blocks. */
  lemma ThingyTableWellFormed()
    ensures WellFormedTable(ThingyTable)
    ensures forall i | 0 <= i < |ThingyTable| :: !IsBlocking(ThingyTable[i].effect)
  {
    var t := ThingyTable;
    assert AnomalyCount(t, 2) == 1;
    assert AnomalyCount(t, 3) == 1;
    assert AnomalyCount(t, 4) == 1;
    assert AnomalyCount(t, 5) == 1;
    assert AnomalyCount(t, 6) == 1;
    assert AnomalyCount(t, 7) == 1;
    assert AnomalyCount(t, 8) == 1;
    assert AnomalyCount(t, 9) == 1;
  }

  /** Lookups in the board's table: listed labels find their entry, others the default. */
  lemma ThingyTableLookups()
    ensures ResolveEffect(ThingyTable, Some(AnomalyLabel)) == 1
    ensures ResolveEffect(ThingyTable, Some("zoom_in")) == 3
    ensures ResolveEffect(ThingyTable, Some("wave")) == 0
  {
    ThingyTableWellFormed();
    AnomalyResolvesToItsEntry(ThingyTable, 1);
    assert ThingyTable[3].lbl == Some("zoom_in");
    assert ThingyTable[2].lbl != Some("zoom_in") && ThingyTable[1].lbl != Some("zoom_in");
    ResolveEffectSpec(ThingyTable, Some("zoom_in"));
    ResolveEffectSpec(ThingyTable, Some("wave"));
    assert forall j | 1 <= j < |ThingyTable| :: ThingyTable[j].lbl != Some("wave");
  }
}
