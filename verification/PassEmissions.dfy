/** What a pass emits, counted: which signals and which tags, for which episodes. */
module PassEmissions {
  import opened Wrappers
  import opened Collections
  import opened Evolution
  import opened PassInput
  import opened PersonaSignals

  // ---- Signals ----

  /** What the detectors say of the `j`-th episode of a pass. */
  function PassAt(t: Tagger, s: EpisodeState, eps: seq<Episode>, j: nat): Signals
    requires j < |eps|
  {
    Step(t, After(t, s, eps[..j]), eps[j]).signals
  }

  /** The episodes of a pass of which the detectors say `p`. */
  ghost function Where(t: Tagger, s: EpisodeState, eps: seq<Episode>, p: Signals -> bool): set<nat> {
    set j: nat | j < |eps| && p(PassAt(t, s, eps, j))
  }

  lemma WhereStep(t: Tagger, s: EpisodeState, eps: seq<Episode>, last: Episode, p: Signals -> bool)
    ensures |Where(t, s, eps + [last], p)| ==
            |Where(t, s, eps, p)| + if p(Step(t, After(t, s, eps), last).signals) then 1 else 0
  {
    hide After, Step, PassAt;
    PassAtSnoc(t, s, eps, last);
    var n, all := |eps|, eps + [last];
    var before := Where(t, s, eps, p);
    assert forall j: nat :: j in before <==> j < n && p(PassAt(t, s, eps, j));
    assert Where(t, s, all, p) == before + if p(PassAt(t, s, all, n)) then {n} else {};
  }

  /** Later episodes do not change what was said of the earlier ones. */
  lemma PassAtSnoc(t: Tagger, s: EpisodeState, eps: seq<Episode>, last: Episode)
    ensures var all := eps + [last];
            && PassAt(t, s, all, |eps|) == Step(t, After(t, s, eps), last).signals
            && forall j: nat :: j < |eps| ==> PassAt(t, s, all, j) == PassAt(t, s, eps, j)
  {
    hide Step, After;
    var all := eps + [last];
    assert all[..|eps|] == eps;
    forall j: nat | j < |eps| ensures PassAt(t, s, all, j) == PassAt(t, s, eps, j) {
      assert all[..j] == eps[..j];
    }
  }

  /** Tools of episodes that were not turned into signals before. */
  function UnsignalledTools(eps: seq<Episode>): nat {
    if eps == [] then 0
    else
      var last := eps[|eps| - 1];
      UnsignalledTools(eps[..|eps| - 1]) + if last.fullySignalled then 0 else last.taggedTools
  }

  /** The signals of one episode: one for each thing the detectors say, one for each tool that
      was not turned into a signal before, and no others. */
  lemma EpisodeEmits(ep: Episode, sig: Signals, x: Signal)
    ensures multiset(RawSignals(ep, sig))[x] ==
            if x == Signal(Systematicity, 0.84, 0.85) then if sig.correction.Some? then 1 else 0
            else if x == Signal(Verbosity, 0.22, 0.75) then if sig.brevity == Some(Explicit) then 1 else 0
            else if x == Signal(Verbosity, 0.24, 0.7) then if sig.brevity == Some(Implicit) then 1 else 0
            else if x == Signal(Systematicity, 0.78, 0.65) then if sig.formality == Some(Formal) then 1 else 0
            else if x == Signal(Systematicity, 0.28, 0.65) then if sig.formality == Some(Informal) then 1 else 0
            else if x == Signal(Instrumentality, 0.68, 0.5) then if ep.fullySignalled then 0 else ep.taggedTools
            else 0
  {
    var c := if sig.correction.Some? then [CORRECTION] else [];
    var b := if sig.brevity.Some? then [BrevitySignal(sig.brevity.value)] else [];
    var f := if sig.formality.Some? then [FormalitySignal(sig.formality.value)] else [];
    assert RawSignals(ep, sig) == AffinitySignals(ep) + c + b + f;
    CountFour(AffinitySignals(ep), c, b, f, x);
    hide RawSignals, AffinitySignals, BrevitySignal, FormalitySignal;
    ToolsEmit(ep, x);
    CorrectionEmits(sig.correction, c, x);
    BrevityEmits(sig.brevity, b, x);
    FormalityEmits(sig.formality, f, x);
  }

  lemma CorrectionEmits(correction: Option<string>, c: seq<Signal>, x: Signal)
    requires c == if correction.Some? then [CORRECTION] else []
    ensures multiset(c)[x] == if x == Signal(Systematicity, 0.84, 0.85) && correction.Some? then 1 else 0
  {
  }

  lemma BrevityEmits(brevity: Option<Brevity>, b: seq<Signal>, x: Signal)
    requires b == if brevity.Some? then [BrevitySignal(brevity.value)] else []
    ensures multiset(b)[x] ==
            if brevity == Some(Explicit) && x == Signal(Verbosity, 0.22, 0.75) then 1
            else if brevity == Some(Implicit) && x == Signal(Verbosity, 0.24, 0.7) then 1
            else 0
  {
  }

  lemma FormalityEmits(formality: Option<Direction>, f: seq<Signal>, x: Signal)
    requires f == if formality.Some? then [FormalitySignal(formality.value)] else []
    ensures multiset(f)[x] ==
            if formality == Some(Formal) && x == Signal(Systematicity, 0.78, 0.65) then 1
            else if formality == Some(Informal) && x == Signal(Systematicity, 0.28, 0.65) then 1
            else 0
  {
  }

  lemma CountFour(a: seq<Signal>, b: seq<Signal>, c: seq<Signal>, d: seq<Signal>, x: Signal)
    ensures multiset(a + b + c + d)[x] == multiset(a)[x] + multiset(b)[x] + multiset(c)[x] + multiset(d)[x]
  {
  }

  lemma ToolsEmit(ep: Episode, x: Signal)
    ensures multiset(AffinitySignals(ep))[x] ==
            if x == Signal(Instrumentality, 0.68, 0.5) && !ep.fullySignalled then ep.taggedTools else 0
  {
    if !ep.fullySignalled {
      RepeatedSignal(ep.taggedTools, Signal(Instrumentality, 0.68, 0.5), x);
      assert AffinitySignals(ep) == seq(ep.taggedTools, _ => Signal(Instrumentality, 0.68, 0.5));
    }
  }

  lemma {:induction false} RepeatedSignal(n: nat, y: Signal, x: Signal)
    ensures multiset(seq(n, _ => y))[x] == if x == y then n else 0
    decreases n
  {
    if n > 0 {
      RepeatedSignal(n - 1, y, x);
      assert seq(n, _ => y) == seq(n - 1, _ => y) + [y];
    }
  }

  /** In a pass from any state over any episodes, each kind of signal comes as often as the
      detectors say so, tool signals come from episodes not fully signalled before, and there
      are no others. */
  lemma {:induction false} PassEmits(t: Tagger, s: EpisodeState, eps: seq<Episode>, x: Signal)
    ensures multiset(PassSignals(t, s, eps))[x] ==
            if x == Signal(Systematicity, 0.84, 0.85) then |Where(t, s, eps, (g: Signals) => g.correction.Some?)|
            else if x == Signal(Verbosity, 0.22, 0.75) then |Where(t, s, eps, (g: Signals) => g.brevity == Some(Explicit))|
            else if x == Signal(Verbosity, 0.24, 0.7) then |Where(t, s, eps, (g: Signals) => g.brevity == Some(Implicit))|
            else if x == Signal(Systematicity, 0.78, 0.65)
            then |Where(t, s, eps, (g: Signals) => g.formality == Some(Formal))|
            else if x == Signal(Systematicity, 0.28, 0.65)
            then |Where(t, s, eps, (g: Signals) => g.formality == Some(Informal))|
            else if x == Signal(Instrumentality, 0.68, 0.5) then UnsignalledTools(eps)
            else 0
  {
    hide RawSignals, Step, After, Where;
    if eps == [] {
      NoneWhere(t, s);
    } else {
      var front, last := eps[..|eps| - 1], eps[|eps| - 1];
      assert eps == front + [last];
      PassEmits(t, s, front, x);
      var sig := Step(t, After(t, s, front), last).signals;
      EpisodeEmits(last, sig, x);
      CountTwo(PassSignals(t, s, front), RawSignals(last, sig), x);
      WhereStep(t, s, front, last, (g: Signals) => g.formality == Some(Formal));
      WhereStep(t, s, front, last, (g: Signals) => g.formality == Some(Informal));
      WhereStep(t, s, front, last, (g: Signals) => g.brevity == Some(Explicit));
      WhereStep(t, s, front, last, (g: Signals) => g.brevity == Some(Implicit));
      WhereStep(t, s, front, last, (g: Signals) => g.correction.Some?);
    }
  }

  lemma CountTwo(a: seq<Signal>, b: seq<Signal>, x: Signal)
    ensures multiset(a + b)[x] == multiset(a)[x] + multiset(b)[x]
  {
  }

  lemma NoneWhere(t: Tagger, s: EpisodeState)
    ensures forall p :: Where(t, s, [], p) == {}
  {
  }

  /** A correction is said of an episode iff its text corrects. */
  lemma CorrectionsAreRead(t: Tagger, s: EpisodeState, eps: seq<Episode>, j: nat)
    requires j < |eps|
    ensures PassAt(t, s, eps, j).correction == t.correction(eps[j].userText)
  {
  }

  // ---- Tags ----

  ghost predicate Marks(sig: Signals, tag: string) {
    || sig.correction == Some(tag)
    || (sig.brevity == Some(Explicit) && tag == "det:brevity:explicit")
    || (sig.brevity == Some(Implicit) && tag == "det:brevity:implicit_shape")
    || (sig.formality == Some(Formal) && tag == "det:formality:formal_run")
    || (sig.formality == Some(Informal) && tag == "det:formality:informal_run")
  }

  /** The entries stand for the episodes `at` of a pass, in order: their tags say all that the
      detectors say of it, and of no other episode do these say anything. */
  ghost predicate StandFor(t: Tagger, s: EpisodeState, eps: seq<Episode>, pending: Pending, at: seq<nat>) {
    && |at| == |pending|
    && (forall k :: 0 <= k < |at| ==> at[k] < |eps| && pending[k].0 == eps[at[k]].id)
    && (forall k, tag :: 0 <= k < |at| ==> (tag in pending[k].1 <==> Marks(PassAt(t, s, eps, at[k]), tag)))
    && (forall k, l :: 0 <= k < l < |at| ==> at[k] < at[l])
    && (forall j: nat :: j < |eps| ==> (j in at <==> exists tag :: Marks(PassAt(t, s, eps, j), tag)))
  }

  lemma {:induction false} PendingExactly(t: Tagger, s: EpisodeState, eps: seq<Episode>) returns (at: seq<nat>)
    ensures StandFor(t, s, eps, PassTags(t, s, eps), at)
  {
    hide Step, After, Marks, Tags, PassAt, StandFor;
    if eps == [] {
      at := [];
      NonePending(t, s);
    } else {
      var front, last := eps[..|eps| - 1], eps[|eps| - 1];
      at := PendingExactly(t, s, front);
      PassAtSnoc(t, s, front, last);
      assert front + [last] == eps;
      var sig := PassAt(t, s, eps, |front|);
      PendingSnoc(t, s, eps, PassTags(t, s, front), at, Tags(sig));
      if Tags(sig) == [] {
        assert PassTags(t, s, front) + [] == PassTags(t, s, front);
      } else {
        at := at + [|front|];
      }
    }
  }

  lemma NonePending(t: Tagger, s: EpisodeState)
    ensures StandFor(t, s, [], [], [])
  {
  }

  lemma PendingSnoc(t: Tagger, s: EpisodeState, eps: seq<Episode>, pending: Pending, at: seq<nat>, tags: seq<string>)
    requires eps != [] && StandFor(t, s, eps[..|eps| - 1], pending, at)
    requires tags == Tags(PassAt(t, s, eps, |eps| - 1))
    ensures if tags == [] then StandFor(t, s, eps, pending, at)
            else StandFor(t, s, eps, pending + [(eps[|eps| - 1].id, tags)], at + [|eps| - 1])
  {
    hide Step, After, Marks, Tags, PassAt;
    PassAtSnoc(t, s, eps[..|eps| - 1], eps[|eps| - 1]);
    assert eps[..|eps| - 1] + [eps[|eps| - 1]] == eps;
    TagsMark(PassAt(t, s, eps, |eps| - 1));
  }

  lemma TagsMark(sig: Signals)
    ensures forall tag :: tag in Tags(sig) <==> Marks(sig, tag)
    ensures Tags(sig) != [] <==> exists tag :: Marks(sig, tag)
  {
    assert Tags(sig) != [] ==> Tags(sig)[0] in Tags(sig);
  }

  // ---- Domains ----

  /** The clusters with two strong facts or one very strong one that, counted in passes, have
      not fired in the two before. */
  ghost function Firing(pass: nat, lastEmit: map<string, nat>, clusters: Clusters): set<string> {
    set c | c in clusters
            && (|| (exists i, j :: 0 <= i < j < |clusters[c]| && clusters[c][i] >= 3 && clusters[c][j] >= 3)
                || (exists i :: 0 <= i < |clusters[c]| && clusters[c][i] >= 6))
            && (c in lastEmit ==> pass >= lastEmit[c] + 2)
  }

  /** One domain signal per cluster that fires. */
  lemma DomainsEmit(s: DomainState, clusters: Clusters)
    ensures DomainSignals(s, clusters) == seq(|Firing(s.pass, s.lastEmit, clusters)|, _ => Signal(Persistence, 0.72, 0.6))
  {
    hide Crosses;
    forall c | c in clusters
      ensures Crosses(clusters[c]) <==>
              || (exists i, j :: 0 <= i < j < |clusters[c]| && clusters[c][i] >= 3 && clusters[c][j] >= 3)
              || (exists i :: 0 <= i < |clusters[c]| && clusters[c][i] >= 6)
    {
      CrossesExactly(clusters[c]);
    }
    assert Emitting(s, clusters) == Firing(s.pass, s.lastEmit, clusters);
  }

  // ---- What a formal run does to its axis ----

  ghost predicate SpeaksThrice(t: Tagger, eps: seq<Episode>, dir: Direction) {
    && |eps| == 3
    && forall i :: 0 <= i < 3 ==>
         eps[i].userText != "" && t.formality(eps[i].userText) == Some(dir) && t.correction(eps[i].userText).None?
  }

  /** Three messages in one direction signal at the third, and only there. */
  lemma ThirdSignals(t: Tagger, eps: seq<Episode>, dir: Direction)
    requires SpeaksThrice(t, eps, dir)
    ensures SignalsAt(t, eps, 0).formality.None? && SignalsAt(t, eps, 1).formality.None?
    ensures SignalsAt(t, eps, 2).formality == Some(dir)
  {
    hide After, SignalsAt, Said;
    SaidThree(eps);
    if SignalsAt(t, eps, 0).formality.Some? {
      var p := FormalityConsumesThree(t, eps, 0);
    }
    if SignalsAt(t, eps, 1).formality.Some? {
      var p := FormalityConsumesThree(t, eps, 1);
    }
    ThirdFires(t, eps, 0, 2, dir);
  }

  lemma SaidThree(eps: seq<Episode>)
    requires |eps| == 3 && forall i :: 0 <= i < 3 ==> eps[i].userText != ""
    ensures Said(eps, 0, 2) == 2 && Said(eps, 0, 3) == 3
  {
    assert Said(eps, 0, 0) == 0 && Said(eps, 0, 1) == 1;
  }

  lemma {:induction false} AllTheSame(sigs: seq<Signal>, x: Signal)
    requires forall y :: y in sigs ==> y == x
    ensures multiset(sigs)[x] == |sigs|
  {
    if sigs != [] {
      assert sigs == [sigs[0]] + sigs[1..];
      assert sigs[0] in sigs;
      forall y | y in sigs[1..] ensures y == x {
        assert y in sigs;
      }
      AllTheSame(sigs[1..], x);
    }
  }

  /** The run gives its axis one signal and nothing else. */
  lemma OneOwnSignal(t: Tagger, eps: seq<Episode>, dir: Direction, x: Signal)
    requires SpeaksThrice(t, eps, dir)
    requires x == if dir == Formal then Signal(Systematicity, 0.78, 0.65) else Signal(Systematicity, 0.28, 0.65)
    ensures Own(PassSignals(t, INITIAL, eps), Systematicity) == [x]
  {
    hide PassSignals, Step, After, Own;
    ThirdSignals(t, eps, dir);
    forall j: nat | j < 3 ensures PassAt(t, INITIAL, eps, j).correction.None? {
      CorrectionsAreRead(t, INITIAL, eps, j);
    }
    var other := if dir == Formal then Informal else Formal;
    assert Where(t, INITIAL, eps, (g: Signals) => g.formality == Some(dir)) == {2};
    assert Where(t, INITIAL, eps, (g: Signals) => g.formality == Some(other)) == {};
    assert Where(t, INITIAL, eps, (g: Signals) => g.correction.Some?) == {};
    var sigs := PassSignals(t, INITIAL, eps);
    forall y: Signal | y.axis == Systematicity ensures multiset(sigs)[y] == if y == x then 1 else 0 {
      PassEmits(t, INITIAL, eps, y);
    }
    OnlyOne(sigs, x);
  }

  lemma OnlyOne(sigs: seq<Signal>, x: Signal)
    requires x.axis == Systematicity
    requires forall y: Signal :: y.axis == Systematicity ==> multiset(sigs)[y] == if y == x then 1 else 0
    ensures Own(sigs, Systematicity) == [x]
  {
    var own := Own(sigs, Systematicity);
    forall y | y in own ensures y == x {
      assert y in multiset(sigs);
    }
    FilterCount(sigs, (s: Signal) => s.axis == Systematicity, x);
    AllTheSame(own, x);
    assert |own| == 1;
  }

  /** A formal run leaves the axis above what an informal run leaves, by the same amount from
      every state. */
  lemma FormalEndsAboveInformal(t: Tagger, axes: Axes, formal: seq<Episode>, informal: seq<Episode>)
    requires Systematicity in axes && InRange(axes[Systematicity])
    requires SpeaksThrice(t, formal, Formal) && SpeaksThrice(t, informal, Informal)
    ensures var up, down := Ingest(axes, PassSignals(t, INITIAL, formal)), Ingest(axes, PassSignals(t, INITIAL, informal));
            && Systematicity in up && Systematicity in down
            && up[Systematicity].score - down[Systematicity].score == 0.2 * 0.65 * (0.78 - 0.28)
  {
    hide Ingest, PassSignals, Own;
    AfterOneSignal(axes, PassSignals(t, INITIAL, formal), Signal(Systematicity, 0.78, 0.65)) by {
      OneOwnSignal(t, formal, Formal, Signal(Systematicity, 0.78, 0.65));
    }
    AfterOneSignal(axes, PassSignals(t, INITIAL, informal), Signal(Systematicity, 0.28, 0.65)) by {
      OneOwnSignal(t, informal, Informal, Signal(Systematicity, 0.28, 0.65));
    }
  }

  lemma AfterOneSignal(axes: Axes, sigs: seq<Signal>, x: Signal)
    requires Systematicity in axes && InRange(axes[Systematicity]) && 0.0 <= x.reward <= 1.0 && 0.0 <= x.weight <= 1.0
    requires Own(sigs, Systematicity) == [x]
    ensures var after := Ingest(axes, sigs);
            && Systematicity in after
            && after[Systematicity].score == 0.2 * (x.reward * x.weight) + 0.8 * axes[Systematicity].score
  {
    hide Ingest, Own, FoldAxis, UpdateWeighted;
    AxesAreIndependent(axes, sigs);
    FoldOne(axes[Systematicity], x);
    UpdateIsAffine(axes[Systematicity], x);
    TargetExactly(x);
  }
}
