/** Persona axes moved by an exponential moving average, over `real` instead of `f32`. */
module Evolution {
  import opened Bounds
  import opened Collections

  const EMA_ALPHA: real := 0.2
  const INGEST_SCORE_EPSILON: real := 0.001

  datatype Axis = Instrumentality | Verbosity | Persistence | Systematicity | Curiosity

  datatype Signal = Signal(axis: Axis, reward: real, weight: real)

  datatype AxisState = AxisState(score: real, samples: nat)

  type Axes = map<Axis, AxisState>

  /** What a signal pulls its axis towards. */
  function Target(sig: Signal): (r: real)
    ensures 0.0 <= r <= 1.0
  {
    Clamp(Clamp(sig.reward) * Clamp(sig.weight))
  }

  function UpdateWeighted(s: AxisState, sig: Signal): AxisState {
    AxisState(Clamp(EMA_ALPHA * Target(sig) + (1.0 - EMA_ALPHA) * s.score), Min(s.samples + 1, U32_MAX))
  }

  predicate InRange(s: AxisState) {
    0.0 <= s.score <= 1.0 && s.samples <= U32_MAX
  }

  /** Every axis of the engine in range. */
  ghost predicate AllInRange(axes: Axes) {
    forall a :: a in axes ==> InRange(axes[a])
  }

  // ---- Ingestion: every signal, one after the other ----

  function ApplySignal(axes: Axes, sig: Signal): Axes {
    if sig.axis in axes then axes[sig.axis := UpdateWeighted(axes[sig.axis], sig)] else axes
  }

  function Ingest(axes: Axes, sigs: seq<Signal>): Axes {
    if sigs == [] then axes else ApplySignal(Ingest(axes, sigs[..|sigs| - 1]), sigs[|sigs| - 1])
  }

  predicate Moves(s: AxisState, sig: Signal) {
    var moved := UpdateWeighted(s, sig).score - s.score;
    moved > INGEST_SCORE_EPSILON || -moved > INGEST_SCORE_EPSILON
  }

  predicate Applies(axes: Axes, sig: Signal) {
    sig.axis in axes && Moves(axes[sig.axis], sig)
  }

  /** How many signals moved their axis noticeably. */
  function Applied(axes: Axes, sigs: seq<Signal>): nat {
    if sigs == [] then 0
    else
      var front := sigs[..|sigs| - 1];
      Applied(axes, front) + if Applies(Ingest(axes, front), sigs[|sigs| - 1]) then 1 else 0
  }

  // ---- The reference: one axis, its own signals only ----

  function Own(sigs: seq<Signal>, a: Axis): seq<Signal> {
    Filter(sigs, (s: Signal) => s.axis == a)
  }

  function FoldAxis(s: AxisState, sigs: seq<Signal>): AxisState {
    if sigs == [] then s else UpdateWeighted(FoldAxis(s, sigs[..|sigs| - 1]), sigs[|sigs| - 1])
  }

  function MovedOn(s: AxisState, sigs: seq<Signal>): nat {
    if sigs == [] then 0
    else
      var front := sigs[..|sigs| - 1];
      MovedOn(s, front) + if Moves(FoldAxis(s, front), sigs[|sigs| - 1]) then 1 else 0
  }

  function MovedIn(axes: Axes, sigs: seq<Signal>, a: Axis): nat {
    if a in axes then MovedOn(axes[a], Own(sigs, a)) else 0
  }

  lemma OwnStep(sigs: seq<Signal>, a: Axis)
    requires sigs != []
    ensures var front, last := sigs[..|sigs| - 1], sigs[|sigs| - 1];
            Own(sigs, a) == if last.axis == a then Own(front, a) + [last] else Own(front, a)
  {
    FilterStep(sigs, |sigs| - 1, (s: Signal) => s.axis == a);
    assert sigs[..|sigs| - 1 + 1] == sigs;
  }

  lemma OwnAppend(p: seq<Signal>, q: seq<Signal>, a: Axis)
    ensures Own(p + q, a) == Own(p, a) + Own(q, a)
  {
    FilterAppend(p, q, (s: Signal) => s.axis == a);
  }

  lemma FoldLast(s: AxisState, sigs: seq<Signal>, last: Signal)
    ensures FoldAxis(s, sigs + [last]) == UpdateWeighted(FoldAxis(s, sigs), last)
    ensures MovedOn(s, sigs + [last]) == MovedOn(s, sigs) + if Moves(FoldAxis(s, sigs), last) then 1 else 0
  {
    assert (sigs + [last])[..|sigs|] == sigs;
  }

  /** After ingest an axis holds exactly the fold of its own signals; other axes' signals,
      and how the two are interleaved, do not matter. */
  lemma {:induction false} AxesAreIndependent(axes: Axes, sigs: seq<Signal>)
    ensures Ingest(axes, sigs).Keys == axes.Keys
    ensures forall a :: a in axes ==> Ingest(axes, sigs)[a] == FoldAxis(axes[a], Own(sigs, a))
  {
    hide UpdateWeighted, Own;
    if sigs == [] {
      forall a ensures Own(sigs, a) == [] {
        OwnNone(a);
      }
    } else {
      var front, last := sigs[..|sigs| - 1], sigs[|sigs| - 1];
      AxesAreIndependent(axes, front);
      forall a | a in axes ensures Ingest(axes, sigs)[a] == FoldAxis(axes[a], Own(sigs, a)) {
        OwnStep(sigs, a);
        FoldLast(axes[a], Own(front, a), last);
      }
    }
  }

  lemma OwnNone(a: Axis)
    ensures Own([], a) == []
  {
  }

  /** The count `ingest_signals` returns is the sum of what each axis alone would count. */
  lemma {:induction false} AppliedIsPerAxis(axes: Axes, sigs: seq<Signal>)
    ensures Applied(axes, sigs) ==
            MovedIn(axes, sigs, Instrumentality) + MovedIn(axes, sigs, Verbosity) + MovedIn(axes, sigs, Persistence)
            + MovedIn(axes, sigs, Systematicity) + MovedIn(axes, sigs, Curiosity)
  {
    hide Ingest, MovedIn, Moves;
    if sigs == [] {
      MovedInNone(axes, Instrumentality);
      MovedInNone(axes, Verbosity);
      MovedInNone(axes, Persistence);
      MovedInNone(axes, Systematicity);
      MovedInNone(axes, Curiosity);
    } else {
      var front := sigs[..|sigs| - 1];
      AppliedIsPerAxis(axes, front);
      AxesAreIndependent(axes, front);
      MovedInStep(axes, sigs, Instrumentality);
      MovedInStep(axes, sigs, Verbosity);
      MovedInStep(axes, sigs, Persistence);
      MovedInStep(axes, sigs, Systematicity);
      MovedInStep(axes, sigs, Curiosity);
    }
  }

  lemma MovedInNone(axes: Axes, a: Axis)
    ensures MovedIn(axes, [], a) == 0
  {
    OwnNone(a);
  }

  lemma MovedInStep(axes: Axes, sigs: seq<Signal>, a: Axis)
    requires sigs != []
    ensures var front, last := sigs[..|sigs| - 1], sigs[|sigs| - 1];
            MovedIn(axes, sigs, a) ==
            MovedIn(axes, front, a) + if last.axis == a && Applies(Ingest(axes, front), last) then 1 else 0
  {
    hide Moves, Own, UpdateWeighted, Ingest;
    var front, last := sigs[..|sigs| - 1], sigs[|sigs| - 1];
    AxesAreIndependent(axes, front);
    OwnStep(sigs, a);
    if a in axes {
      FoldLast(axes[a], Own(front, a), last);
    }
  }

  /** Same per-axis subsequences, same scores, sample counts and applied count. */
  lemma OnlySubsequencesMatter(axes: Axes, p: seq<Signal>, q: seq<Signal>)
    requires forall a :: Own(p, a) == Own(q, a)
    ensures Ingest(axes, p) == Ingest(axes, q) && Applied(axes, p) == Applied(axes, q)
  {
    hide Own, FoldAxis, Ingest, Applied;
    AxesAreIndependent(axes, p);
    AxesAreIndependent(axes, q);
    AppliedIsPerAxis(axes, p);
    AppliedIsPerAxis(axes, q);
  }

  /** Cutting one stream of signals into several ingests changes nothing, and the applied
      counts add up. */
  lemma {:induction false} IngestInParts(axes: Axes, p: seq<Signal>, q: seq<Signal>)
    ensures Ingest(axes, p + q) == Ingest(Ingest(axes, p), q)
    ensures Applied(axes, p + q) == Applied(axes, p) + Applied(Ingest(axes, p), q)
  {
    hide Applies, ApplySignal;
    if q == [] {
      assert p + q == p;
    } else {
      IngestInParts(axes, p, q[..|q| - 1]);
      assert (p + q)[..|p + q| - 1] == p + q[..|q| - 1];
    }
  }

  // ---- Range, memory loss and the closed form ----

  lemma {:induction false} FoldStaysInRange(s: AxisState, sigs: seq<Signal>)
    requires InRange(s)
    ensures InRange(FoldAxis(s, sigs))
  {
    if sigs != [] {
      FoldStaysInRange(s, sigs[..|sigs| - 1]);
    }
  }

  lemma ScoresStayInRange(axes: Axes, sigs: seq<Signal>)
    requires AllInRange(axes)
    ensures AllInRange(Ingest(axes, sigs))
  {
    hide FoldAxis, Own, Ingest, InRange;
    AxesAreIndependent(axes, sigs);
    forall a | a in axes ensures InRange(Ingest(axes, sigs)[a]) {
      FoldStaysInRange(axes[a], Own(sigs, a));
    }
  }

  /** What is left of an initial difference after `n` updates. */
  function Decay(n: nat): (r: real)
    ensures 0.0 < r <= 1.0
    ensures n > 0 ==> r < 1.0
  {
    if n == 0 then 1.0 else (1.0 - EMA_ALPHA) * Decay(n - 1)
  }

  /** In range the final clamp does nothing: an update is affine in the score. */
  lemma UpdateIsAffine(s: AxisState, sig: Signal)
    requires InRange(s)
    ensures UpdateWeighted(s, sig).score == 0.2 * Target(sig) + 0.8 * s.score
    ensures InRange(UpdateWeighted(s, sig))
  {
    hide Target;
  }

  /** Reward times weight, each kept within [0, 1]. */
  lemma TargetExactly(sig: Signal)
    ensures var reward := if sig.reward < 0.0 then 0.0 else if sig.reward > 1.0 then 1.0 else sig.reward;
            var weight := if sig.weight < 0.0 then 0.0 else if sig.weight > 1.0 then 1.0 else sig.weight;
            Target(sig) == reward * weight
  {
    var x, y := Clamp(sig.reward), Clamp(sig.weight);
    assert 0.0 <= x * y <= 1.0 by {
      assert x * y <= 1.0 * y;
    }
  }

  /** One signal moves its own axis a fifth of the way to reward times weight, and no other; the
      move is noticed if it is larger than a thousandth. */
  lemma OneSignalExactly(axes: Axes, sig: Signal)
    requires AllInRange(axes)
    ensures var reward := if sig.reward < 0.0 then 0.0 else if sig.reward > 1.0 then 1.0 else sig.reward;
            var weight := if sig.weight < 0.0 then 0.0 else if sig.weight > 1.0 then 1.0 else sig.weight;
            var target := reward * weight;
            var after := Ingest(axes, [sig]);
            && after.Keys == axes.Keys && (forall a :: a in axes && a != sig.axis ==> after[a] == axes[a])
            && (sig.axis in axes ==>
                  var s := axes[sig.axis];
                  && after[sig.axis].score == 0.2 * target + 0.8 * s.score
                  && after[sig.axis].samples == if s.samples < 0xFFFF_FFFF then s.samples + 1 else 0xFFFF_FFFF)
            && Applied(axes, [sig]) ==
               if sig.axis in axes &&
                  (|| after[sig.axis].score > axes[sig.axis].score + 0.001
                   || after[sig.axis].score < axes[sig.axis].score - 0.001)
               then 1 else 0
  {
    TargetExactly(sig);
    assert [sig][..0] == [] && Ingest(axes, []) == axes && Applied(axes, []) == 0;
    if sig.axis in axes {
      UpdateIsAffine(axes[sig.axis], sig);
    }
    hide Target;
  }

  /** A new engine knows all five axes, each half way up. */
  lemma DefaultsExactly(a: Axis)
    ensures a in DefaultAxes(0.5) && DefaultAxes(0.5)[a] == AxisState(0.5, 0)
  {
  }

  /** Two axes fed the same `n` signals differ by 0.8^n times their initial gap. */
  lemma {:induction false} GapDecays(s: AxisState, t: AxisState, sigs: seq<Signal>)
    requires InRange(s) && InRange(t)
    ensures FoldAxis(s, sigs).score - FoldAxis(t, sigs).score == Decay(|sigs|) * (s.score - t.score)
  {
    hide UpdateWeighted, Target;
    if sigs != [] {
      var front, last := sigs[..|sigs| - 1], sigs[|sigs| - 1];
      GapDecays(s, t, front);
      FoldStaysInRange(s, front);
      FoldStaysInRange(t, front);
      UpdateIsAffine(FoldAxis(s, front), last);
      UpdateIsAffine(FoldAxis(t, front), last);
      Regroup(Decay(|front|), s.score - t.score);
    }
  }

  lemma Regroup(d: real, gap: real)
    ensures 0.8 * (d * gap) == (0.8 * d) * gap
  {
  }

  /** Two engines with the same axes, fed the same signals. */
  lemma EnginesConverge(x: Axes, y: Axes, sigs: seq<Signal>, a: Axis)
    requires AllInRange(x) && AllInRange(y) && a in x && a in y
    ensures a in Ingest(x, sigs) && a in Ingest(y, sigs)
    ensures Ingest(x, sigs)[a].score - Ingest(y, sigs)[a].score ==
            Decay(|Own(sigs, a)|) * (x[a].score - y[a].score)
  {
    hide Ingest, Own, FoldAxis;
    AxesAreIndependent(x, sigs);
    AxesAreIndependent(y, sigs);
    GapDecays(x[a], y[a], Own(sigs, a));
  }

  /** Signals that all pull towards `goal` leave exactly the decayed distance to it. */
  lemma {:induction false} SteadySignalsApproachTheirTarget(s: AxisState, sigs: seq<Signal>, goal: real)
    requires InRange(s) && forall i :: 0 <= i < |sigs| ==> Target(sigs[i]) == goal
    ensures FoldAxis(s, sigs).score == goal + Decay(|sigs|) * (s.score - goal)
  {
    hide UpdateWeighted, Target;
    if sigs != [] {
      var front, last := sigs[..|sigs| - 1], sigs[|sigs| - 1];
      SteadySignalsApproachTheirTarget(s, front, goal);
      FoldStaysInRange(s, front);
      UpdateIsAffine(FoldAxis(s, front), last);
      Regroup(Decay(|front|), s.score - goal);
    }
  }

  // ---- Order of signals ----

  /** Signals of one axis all pull to the same value. */
  ghost predicate Agree(sigs: seq<Signal>) {
    forall i, j :: 0 <= i < j < |sigs| && sigs[i].axis == sigs[j].axis ==> Target(sigs[i]) == Target(sigs[j])
  }

  ghost predicate SameScores(x: Axes, y: Axes) {
    x.Keys == y.Keys && forall a :: a in x ==> x[a] == y[a]
  }

  /** Ingesting in any other order gives the same axes. */
  ghost predicate OrderIrrelevant(axes: Axes, sigs: seq<Signal>) {
    forall q: seq<Signal> :: multiset(q) == multiset(sigs) ==> SameScores(Ingest(axes, q), Ingest(axes, sigs))
  }

  lemma FoldSamples(s: AxisState, sigs: seq<Signal>)
    requires s.samples <= U32_MAX
    ensures FoldAxis(s, sigs).samples == Min(s.samples + |sigs|, U32_MAX)
  {
  }

  lemma OwnPermutes(p: seq<Signal>, q: seq<Signal>, a: Axis)
    requires multiset(p) == multiset(q)
    ensures multiset(Own(p, a)) == multiset(Own(q, a)) && |Own(p, a)| == |Own(q, a)|
  {
    FilterPermutes(p, q, (s: Signal) => s.axis == a);
  }

  lemma InPermutation<T>(p: seq<T>, q: seq<T>, i: nat)
    requires multiset(p) == multiset(q) && i < |q|
    ensures q[i] in p
  {
    assert q[i] in multiset(q);
  }

  lemma AgreeMeansOneGoal(sigs: seq<Signal>, x: Signal, y: Signal)
    requires Agree(sigs) && x in sigs && y in sigs && x.axis == y.axis
    ensures Target(x) == Target(y)
  {
    hide Target;
  }

  /** Agreeing signals on one axis: any order gives the same state. */
  lemma AgreeingOwnSignals(s: AxisState, p: seq<Signal>, q: seq<Signal>, a: Axis)
    requires InRange(s) && Agree(p) && multiset(p) == multiset(q)
    ensures FoldAxis(s, Own(p, a)) == FoldAxis(s, Own(q, a))
  {
    hide Own, Target, FoldAxis, Agree;
    var op, oq := Own(p, a), Own(q, a);
    OwnPermutes(p, q, a);
    OwnIsOwn(p, a);
    FoldSamples(s, op);
    FoldSamples(s, oq);
    if op != [] {
      var goal := Target(op[0]);
      forall i | 0 <= i < |op| ensures Target(op[i]) == goal {
        AgreeMeansOneGoal(p, op[i], op[0]);
      }
      forall i | 0 <= i < |oq| ensures Target(oq[i]) == goal {
        InPermutation(op, oq, i);
        AgreeMeansOneGoal(p, oq[i], op[0]);
      }
      SteadySignalsApproachTheirTarget(s, op, goal);
      SteadySignalsApproachTheirTarget(s, oq, goal);
    } else {
      assert oq == op;
    }
  }

  lemma OwnIsOwn(sigs: seq<Signal>, a: Axis)
    ensures forall x :: x in Own(sigs, a) <==> x in sigs && x.axis == a
  {
  }

  lemma AgreementMakesOrderIrrelevant(axes: Axes, sigs: seq<Signal>)
    requires AllInRange(axes) && Agree(sigs)
    ensures OrderIrrelevant(axes, sigs)
  {
    hide Ingest, Own, FoldAxis, Agree;
    forall q: seq<Signal> | multiset(q) == multiset(sigs) ensures SameScores(Ingest(axes, q), Ingest(axes, sigs)) {
      AxesAreIndependent(axes, q);
      AxesAreIndependent(axes, sigs);
      forall a | a in axes ensures Ingest(axes, q)[a] == Ingest(axes, sigs)[a] {
        AgreeingOwnSignals(axes[a], sigs, q, a);
      }
    }
  }

  lemma {:induction false} FoldAppend(s: AxisState, p: seq<Signal>, q: seq<Signal>)
    ensures FoldAxis(s, p + q) == FoldAxis(FoldAxis(s, p), q)
  {
    hide UpdateWeighted;
    if q == [] {
      assert p + q == p;
    } else {
      var front, last := q[..|q| - 1], q[|q| - 1];
      FoldAppend(s, p, front);
      assert p + q == p + front + [last];
      FoldLast(s, p + front, last);
    }
  }

  /** The score left by `x`, then `mid`, then `y`. */
  lemma FoldBetween(s: AxisState, x: Signal, mid: seq<Signal>, y: Signal)
    requires InRange(s)
    ensures var u := UpdateWeighted(s, x);
            && InRange(u) && u.score == 0.2 * Target(x) + 0.8 * s.score
            && FoldAxis(s, [x] + mid + [y]).score == 0.2 * Target(y) + 0.8 * FoldAxis(u, mid).score
  {
    hide Target, UpdateWeighted, FoldAxis;
    FoldOne(s, x);
    FoldAppend(s, [x], mid);
    FoldLast(s, [x] + mid, y);
    UpdateIsAffine(s, x);
    FoldStaysInRange(UpdateWeighted(s, x), mid);
    UpdateIsAffine(FoldAxis(UpdateWeighted(s, x), mid), y);
  }

  /** How far a swap of targets `tx` and `ty` moves the score, `d` being what decays in between. */
  function Shift(tx: real, ty: real, d: real): real {
    (0.2 * (tx - ty)) * (0.8 * d - 1.0)
  }

  /** Swapping two signals around others: the exact difference, zero only for equal targets. */
  lemma SwapShifts(s: AxisState, x: Signal, mid: seq<Signal>, y: Signal)
    requires InRange(s)
    ensures FoldAxis(s, [x] + mid + [y]).score - FoldAxis(s, [y] + mid + [x]).score ==
            Shift(Target(x), Target(y), Decay(|mid|))
  {
    hide Target, UpdateWeighted, FoldAxis, InRange, Decay, Shift;
    FoldBetween(s, x, mid, y);
    FoldBetween(s, y, mid, x);
    var ux, uy := FoldAxis(UpdateWeighted(s, x), mid).score, FoldAxis(UpdateWeighted(s, y), mid).score;
    GapDecays(UpdateWeighted(s, x), UpdateWeighted(s, y), mid);
    assert ux - uy == Decay(|mid|) * (0.2 * (Target(x) - Target(y)));
    SwapArithmetic(Target(x), Target(y), Decay(|mid|), ux, uy);
  }

  lemma FoldOne(s: AxisState, x: Signal)
    ensures FoldAxis(s, [x]) == UpdateWeighted(s, x)
  {
    FoldLast(s, [], x);
    assert [] + [x] == [x];
  }

  lemma SwapArithmetic(tx: real, ty: real, d: real, ux: real, uy: real)
    requires ux - uy == d * (0.2 * (tx - ty))
    ensures (0.2 * ty + 0.8 * ux) - (0.2 * tx + 0.8 * uy) == Shift(tx, ty, d)
  {
  }

  function Swapped(sigs: seq<Signal>, i: nat, j: nat): seq<Signal>
    requires i < j < |sigs|
  {
    sigs[..i] + [sigs[j]] + sigs[i + 1..j] + [sigs[i]] + sigs[j + 1..]
  }

  lemma SwappedPermutes(sigs: seq<Signal>, i: nat, j: nat)
    requires i < j < |sigs|
    ensures multiset(Swapped(sigs, i, j)) == multiset(sigs)
  {
    assert sigs == sigs[..i] + [sigs[i]] + sigs[i + 1..j] + [sigs[j]] + sigs[j + 1..];
  }

  lemma OwnOfFive(a: Axis, p: seq<Signal>, x: Signal, m: seq<Signal>, y: Signal, z: seq<Signal>)
    requires x.axis == a && y.axis == a
    ensures Own(p + [x] + m + [y] + z, a) == Own(p, a) + ([x] + Own(m, a) + [y]) + Own(z, a)
  {
    OwnAppend(p + [x] + m + [y], z, a);
    OwnAppend(p + [x] + m, [y], a);
    OwnAppend(p + [x], m, a);
    OwnAppend(p, [x], a);
    hide Own;
    assert Own([x], a) == [x] && Own([y], a) == [y] by {
      OwnSingle(x);
      OwnSingle(y);
    }
    assert Own(p, a) + [x] + Own(m, a) + [y] + Own(z, a) == Own(p, a) + ([x] + Own(m, a) + [y]) + Own(z, a);
  }

  lemma OwnSingle(x: Signal)
    ensures Own([x], x.axis) == [x]
  {
    OwnStep([x], x.axis);
    assert [x][..0] == [];
    OwnNone(x.axis);
  }

  /** Two signals of one axis that pull to different values: swapping them changes the score. */
  lemma DisagreementShows(axes: Axes, sigs: seq<Signal>, i: nat, j: nat)
    requires AllInRange(axes) && i < j < |sigs|
    requires sigs[i].axis == sigs[j].axis && sigs[i].axis in axes && Target(sigs[i]) != Target(sigs[j])
    ensures !SameScores(Ingest(axes, Swapped(sigs, i, j)), Ingest(axes, sigs))
  {
    hide Own, Ingest, FoldAxis, Target;
    var a, x, y := sigs[i].axis, sigs[i], sigs[j];
    var p, m, z := sigs[..i], sigs[i + 1..j], sigs[j + 1..];
    assert sigs == p + [x] + m + [y] + z;
    OwnOfFive(a, p, x, m, y, z);
    OwnOfFive(a, p, y, m, x, z);
    AxesAreIndependent(axes, sigs);
    AxesAreIndependent(axes, Swapped(sigs, i, j));
    SwapInsideShows(axes[a], Own(p, a), x, Own(m, a), y, Own(z, a));
  }

  lemma SwapInsideShows(s: AxisState, p: seq<Signal>, x: Signal, m: seq<Signal>, y: Signal, z: seq<Signal>)
    requires InRange(s) && Target(x) != Target(y)
    ensures FoldAxis(s, p + ([x] + m + [y]) + z).score != FoldAxis(s, p + ([y] + m + [x]) + z).score
  {
    hide FoldAxis, Target, Decay, InRange, Shift;
    var s' := FoldAxis(s, p);
    FoldStaysInRange(s, p);
    FoldThrough(s, p, [x] + m + [y], z);
    FoldThrough(s, p, [y] + m + [x], z);
    FoldStaysInRange(s', [x] + m + [y]);
    FoldStaysInRange(s', [y] + m + [x]);
    var xs, ys := FoldAxis(s', [x] + m + [y]), FoldAxis(s', [y] + m + [x]);
    var e := xs.score - ys.score;
    SwapShifts(s', x, m, y);
    ShiftIsNonZero(Target(x), Target(y), Decay(|m|));
    GapDecays(xs, ys, z);
    NonZero(Decay(|z|), e);
  }

  lemma FoldThrough(s: AxisState, p: seq<Signal>, m: seq<Signal>, z: seq<Signal>)
    ensures FoldAxis(s, p + m + z) == FoldAxis(FoldAxis(FoldAxis(s, p), m), z)
  {
    FoldAppend(s, p + m, z);
    FoldAppend(s, p, m);
  }

  lemma ShiftIsNonZero(tx: real, ty: real, d: real)
    requires tx != ty && 0.0 < d <= 1.0
    ensures Shift(tx, ty, d) != 0.0
  {
    var gap, factor := 0.2 * (tx - ty), 0.8 * d - 1.0;
    NonZero(gap, factor);
    assert Shift(tx, ty, d) == gap * factor;
  }

  lemma NonZero(x: real, y: real)
    requires x != 0.0 && y != 0.0
    ensures x * y != 0.0
  {
  }

  /** The order of a batch of signals is irrelevant exactly when the signals of each axis agree. */
  lemma OrderIrrelevantIff(axes: Axes, sigs: seq<Signal>)
    requires AllInRange(axes) && forall i :: 0 <= i < |sigs| ==> sigs[i].axis in axes
    ensures OrderIrrelevant(axes, sigs) <==> Agree(sigs)
  {
    hide Ingest, Target, SameScores;
    if Agree(sigs) {
      AgreementMakesOrderIrrelevant(axes, sigs);
    } else {
      var i, j :| 0 <= i < j < |sigs| && sigs[i].axis == sigs[j].axis && Target(sigs[i]) != Target(sigs[j]);
      SwappedPermutes(sigs, i, j);
      DisagreementShows(axes, sigs, i, j);
    }
  }

  // ---- The engine ----

  const ALL: set<Axis> := {Instrumentality, Verbosity, Persistence, Systematicity, Curiosity}

  function DefaultAxes(initial: real): Axes {
    map a | a in ALL :: AxisState(Clamp(initial), 0)
  }

  class EvolutionEngine {
    var axes: Axes

    constructor ()
      ensures axes == DefaultAxes(0.5) && axes.Keys == ALL && AllInRange(axes)
    {
      axes := DefaultAxes(0.5);
    }

    method IngestSignals(sigs: seq<Signal>) returns (applied: nat)
      modifies this
      ensures axes == Ingest(old(axes), sigs)
      ensures applied == Applied(old(axes), sigs)
      ensures old(AllInRange(axes)) ==> AllInRange(axes)
    {
      hide UpdateWeighted, Moves;
      applied := 0;
      for i := 0 to |sigs|
        invariant axes == Ingest(old(axes), sigs[..i])
        invariant applied == Applied(old(axes), sigs[..i])
      {
        assert sigs[..i + 1][..i] == sigs[..i];
        var sig := sigs[i];
        if sig.axis in axes {
          if Moves(axes[sig.axis], sig) {
            applied := applied + 1;
          }
          axes := axes[sig.axis := UpdateWeighted(axes[sig.axis], sig)];
        }
      }
      assert sigs[..|sigs|] == sigs;
      if old(AllInRange(axes)) {
        ScoresStayInRange(old(axes), sigs);
      }
    }

    /** A correction is one full-weight signal. */
    method CorrectionTick(a: Axis, correction: real)
      modifies this
      ensures axes == Ingest(old(axes), [Signal(a, correction, 1.0)])
    {
      if a in axes {
        axes := axes[a := UpdateWeighted(axes[a], Signal(a, Clamp(correction), 1.0))];
      }
      assert [Signal(a, correction, 1.0)][..0] == [];
      assert Ingest(old(axes), []) == old(axes);
    }
  }
}
