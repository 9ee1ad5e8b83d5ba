/** The result debouncer of `update_ml_result`: each sample is turned into a
    candidate label by the acceptance rule, the candidate is compared with the
    current label, and a label is shown only once a streak of
    `PREDICTION_STREAK_THRESH` accepted samples agrees on it. */
module Debounce {
  import opened Basics
  import opened Effects

  /** The label a low-confidence sample without anomaly score is shown as. */
  const IdleLabel: string := "idle"

  /** `ANOMALY_THRESH` and `VALUE_THRESH` (configuration values divided by 1000). */
  datatype Thresholds = Thresholds(anomaly: real, value: real)

  /** The label a sample votes for (`new_label`) and whether it counts (`accept`). */
  datatype Candidate = Candidate(lbl: Option<string>, accept: bool)

  /** The acceptance rule; a negative anomaly score means the sample has none. */
  function Classify(lbl: Option<string>, value: real, anomaly: real, t: Thresholds): (c: Candidate)
    ensures 0.0 <= anomaly && anomaly > t.anomaly ==> c == Candidate(Some(AnomalyLabel), true)
    ensures !(0.0 <= anomaly && anomaly > t.anomaly) && value >= t.value ==> c == Candidate(lbl, true)
    ensures !(0.0 <= anomaly && anomaly > t.anomaly) && value < t.value && anomaly < 0.0
            ==> c == Candidate(Some(IdleLabel), true)
    ensures 0.0 <= anomaly <= t.anomaly && value < t.value ==> c == Candidate(None, false)
    ensures c.accept <==> !(0.0 <= anomaly <= t.anomaly && value < t.value)
  {
    var anomalyAvailable := anomaly >= 0.0;
    if anomalyAvailable && anomaly > t.anomaly then Candidate(Some(AnomalyLabel), true)
    else if value >= t.value then Candidate(lbl, true)
    else if !anomalyAvailable then Candidate(Some(IdleLabel), true)
    else Candidate(None, false)
  }

  /** `cur_label` and `prediction_streak`. */
  datatype Prediction = Prediction(lbl: Option<string>, streak: nat)

  /** The state `clear_prediction` leaves. */
  const Cleared := Prediction(None, 0)

  /** The label comparison and the count: a different candidate (NULL differs
      from every label) replaces the current label and restarts the streak,
      whether or not it was accepted; an accepted sample then adds one. */
  function Track(p: Prediction, c: Candidate): (q: Prediction)
    ensures q.lbl == c.lbl
    ensures q.streak == (if c.lbl == p.lbl then p.streak else 0) + (if c.accept then 1 else 0)
  {
    var base := if c.lbl != p.lbl then Prediction(c.lbl, 0) else p;
    if c.accept then base.(streak := base.streak + 1) else base
  }

  /** The state after one sample and the label it stabilises, if any. */
  datatype Step = Step(next: Prediction, stable: Option<Option<string>>)

  /** One sample: track it, and when the streak reaches the threshold show the
      current label and clear the prediction. */
  function Observe(p: Prediction, c: Candidate, thresh: nat): (s: Step)
    requires thresh > 0
    ensures s.next.streak < thresh
    ensures s.stable.Some? ==> s.stable.value == c.lbl && s.next == Cleared
    ensures s.stable.None? ==> s.next.lbl == c.lbl
  {
    var q := Track(p, c);
    if q.streak >= thresh then Step(Cleared, Some(q.lbl)) else Step(q, None)
  }

  /** A rejected sample shows nothing; it clears a non-NULL label and leaves a NULL-label state as it was. */
  lemma RejectedSample(p: Prediction, c: Candidate, thresh: nat)
    requires thresh > 0 && p.streak < thresh
    requires !c.accept && c.lbl.None?
    ensures Observe(p, c, thresh) == Step(if p.lbl.None? then p else Cleared, None)
  {
  }

  /** An accepted sample extends the streak of an equal label, or starts a new
      streak of one; reaching the threshold shows the label and clears. */
  lemma AcceptedSample(p: Prediction, c: Candidate, thresh: nat)
    requires thresh > 0 && p.streak < thresh
    requires c.accept
    ensures var n := if c.lbl == p.lbl then p.streak + 1 else 1;
            Observe(p, c, thresh)
            == if n < thresh then Step(Prediction(c.lbl, n), None) else Step(Cleared, Some(c.lbl))
  {
  }

  /** The state after a sequence of candidates and the labels stabilised on the way. */
  datatype Trace = Trace(last: Prediction, stable: seq<Option<string>>)

  function Run(p: Prediction, cs: seq<Candidate>, thresh: nat): Trace
    requires thresh > 0
    decreases |cs|
  {
    if cs == [] then Trace(p, [])
    else
      var r := Run(p, cs[..|cs| - 1], thresh);
      var s := Observe(r.last, cs[|cs| - 1], thresh);
      Trace(s.next, r.stable + (if s.stable.Some? then [s.stable.value] else []))
  }

  function Repeat<T>(x: T, n: nat): (s: seq<T>)
    ensures |s| == n && forall i | 0 <= i < n :: s[i] == x
  {
    seq(n, _ => x)
  }

  /** Fewer than threshold-many equal accepted candidates after a clear build a streak and show nothing. */
  lemma {:induction false} StreakBuilds(l: Option<string>, k: nat, thresh: nat)
    requires 0 < thresh && k < thresh
    ensures Run(Cleared, Repeat(Candidate(l, true), k), thresh)
         == Trace(if k == 0 then Cleared else Prediction(l, k), [])
  {
    if k > 0 {
      var c := Candidate(l, true);
      assert Repeat(c, k)[..k - 1] == Repeat(c, k - 1);
      StreakBuilds(l, k - 1, thresh);
    }
  }

  /** From a cleared state, threshold-many equal accepted candidates show their label exactly once and clear again. */
  lemma StabilisesOnce(l: Option<string>, thresh: nat)
    requires thresh > 0
    ensures Run(Cleared, Repeat(Candidate(l, true), thresh), thresh) == Trace(Cleared, [l])
  {
    var c := Candidate(l, true);
    assert Repeat(c, thresh)[..thresh - 1] == Repeat(c, thresh - 1);
    StreakBuilds(l, thresh - 1, thresh);
  }

  lemma {:induction false} RunAppend(p: Prediction, a: seq<Candidate>, b: seq<Candidate>, thresh: nat)
    requires thresh > 0
    ensures var ra := Run(p, a, thresh);
            var rb := Run(ra.last, b, thresh);
            Run(p, a + b, thresh) == Trace(rb.last, ra.stable + rb.stable)
    decreases |b|
  {
    if b != [] {
      assert (a + b)[..|a + b| - 1] == a + b[..|b| - 1];
      RunAppend(p, a, b[..|b| - 1], thresh);
    } else {
      assert a + b == a;
    }
  }

  /** The debounce repeats: m times threshold-many equal accepted candidates show the label m times. */
  lemma {:induction false} RepeatedStabilisation(l: Option<string>, m: nat, thresh: nat)
    requires thresh > 0
    ensures Run(Cleared, Repeat(Candidate(l, true), m * thresh), thresh) == Trace(Cleared, Repeat(l, m))
  {
    var c := Candidate(l, true);
    if m > 0 {
      assert (m - 1) * thresh + thresh == m * thresh;
      assert Repeat(c, m * thresh) == Repeat(c, (m - 1) * thresh) + Repeat(c, thresh);
      RepeatedStabilisation(l, m - 1, thresh);
      RunAppend(Cleared, Repeat(c, (m - 1) * thresh), Repeat(c, thresh), thresh);
      StabilisesOnce(l, thresh);
      assert Repeat(l, m) == Repeat(l, m - 1) + [l];
    } else {
      assert Repeat(c, 0) == [];
    }
  }

  function Labels(cs: seq<Candidate>): (ls: seq<Option<string>>)
    ensures |ls| == |cs| && forall i | 0 <= i < |cs| :: ls[i] == cs[i].lbl
  {
    seq(|cs|, i requires 0 <= i < |cs| => cs[i].lbl)
  }

  /** Every label a run shows is the label of one of its candidates. */
  lemma {:induction false} StableLabelsAreCandidates(p: Prediction, cs: seq<Candidate>, thresh: nat)
    requires thresh > 0
    ensures forall x | x in Run(p, cs, thresh).stable :: x in Labels(cs)
    decreases |cs|
  {
    if cs != [] {
      var front := cs[..|cs| - 1];
      StableLabelsAreCandidates(p, front, thresh);
      forall x | x in Labels(front) ensures x in Labels(cs) {
        var i :| 0 <= i < |front| && Labels(front)[i] == x;
        assert Labels(cs)[i] == x;
      }
      assert Labels(cs)[|cs| - 1] == cs[|cs| - 1].lbl;
    }
  }

  /** While every sample is anomalous (score available and over the threshold), only the anomaly label is ever shown, whatever the confidence values. */
  lemma AnomalousSamplesShowAnomaly(p: Prediction, ls: seq<Option<string>>, values: seq<real>,
                                    anomalies: seq<real>, t: Thresholds, thresh: nat)
    requires thresh > 0
    requires |ls| == |values| == |anomalies|
    requires forall i | 0 <= i < |anomalies| :: 0.0 <= anomalies[i] && anomalies[i] > t.anomaly
    ensures var cs := seq(|ls|, i requires 0 <= i < |ls| => Classify(ls[i], values[i], anomalies[i], t));
            forall x | x in Run(p, cs, thresh).stable :: x == Some(AnomalyLabel)
  {
    var cs := seq(|ls|, i requires 0 <= i < |ls| => Classify(ls[i], values[i], anomalies[i], t));
    StableLabelsAreCandidates(p, cs, thresh);
    forall x | x in Labels(cs) ensures x == Some(AnomalyLabel) {
      var i :| 0 <= i < |cs| && Labels(cs)[i] == x;
    }
  }

  /** A rejected sample between two accepted ones breaks a streak: the third
      sample restarts at one rather than continuing at two. */
  lemma RejectionBreaksStreak(l: string, thresh: nat)
    requires thresh > 1
    ensures Run(Cleared, [Candidate(Some(l), true), Candidate(None, false), Candidate(Some(l), true)], thresh)
         == Trace(Prediction(Some(l), 1), [])
  {
    var cs := [Candidate(Some(l), true), Candidate(None, false), Candidate(Some(l), true)];
    assert cs[..2][..1] == [cs[0]];
    assert [cs[0]][..0] == [];
    assert Run(Cleared, [cs[0]], thresh) == Trace(Prediction(Some(l), 1), []);
    assert Run(Cleared, cs[..2], thresh) == Trace(Cleared, []);
  }
}
