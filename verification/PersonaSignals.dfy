/** The debounce, streak and cooldown detectors whose state lives across extraction passes. */
module PersonaSignals {
  import opened Wrappers
  import opened Bounds
  import opened Collections
  import opened Evolution
  import opened PassInput

  const BREVITY_DEBOUNCE_TURNS: nat := 3
  const DOMAIN_COOLDOWN_PASSES: nat := 2
  const DOMAIN_MIN_RECURRENCE_NODE: nat := 3
  const DOMAIN_EMIT_AT_LEAST_NODES: nat := 2
  const DOMAIN_SINGLE_NODE_RECURRENCE: nat := 6

  datatype Direction = Informal | Formal

  /** The text classifiers, which the detectors only call. */
  datatype Tagger = Tagger(
    asksBrevity: string -> bool,
    formality: string -> Option<Direction>,
    correction: string -> Option<string>,
    words: string -> nat)

  datatype Brevity = Explicit | Implicit

  datatype Signals = Signals(correction: Option<string>, brevity: Option<Brevity>, formality: Option<Direction>)

  datatype Run = Run(dir: Direction, length: nat)

  datatype EpisodeState = EpisodeState(turn: nat, streak: nat, lastBrevity: Option<nat>, run: Option<Run>)

  const INITIAL: EpisodeState := EpisodeState(0, 0, None, None)

  predicate BrevityShape(t: Tagger, ep: Episode) {
    var user := if ep.userTokens > 0 then ep.userTokens else if ep.userText == "" then 0 else t.words(ep.userText);
    user < 12 && ep.assistantTokens > 300
  }

  predicate AsksBrevity(t: Tagger, ep: Episode) {
    ep.userText != "" && t.asksBrevity(ep.userText)
  }

  predicate DebounceAllows(last: Option<nat>, turn: nat) {
    last.None? || Max(turn - last.value, 0) >= BREVITY_DEBOUNCE_TURNS
  }

  datatype BrevityStep = BrevityStep(streak: nat, last: Option<nat>, signal: Option<Brevity>)

  function StepBrevity(t: Tagger, s: EpisodeState, ep: Episode): BrevityStep {
    if AsksBrevity(t, ep) && DebounceAllows(s.lastBrevity, s.turn)
    then BrevityStep(0, Some(s.turn), Some(Explicit))
    else if BrevityShape(t, ep) then
      var streak := Min(s.streak + 1, U8_MAX);
      if streak >= 2 && DebounceAllows(s.lastBrevity, s.turn)
      then BrevityStep(0, Some(s.turn), Some(Implicit))
      else BrevityStep(streak, s.lastBrevity, None)
    else BrevityStep(0, s.lastBrevity, None)
  }

  datatype FormalityStep = FormalityStep(run: Option<Run>, signal: Option<Direction>)

  function StepFormality(t: Tagger, run: Option<Run>, ep: Episode): FormalityStep {
    if ep.userText == "" then FormalityStep(run, None)
    else match t.formality(ep.userText)
      case None => FormalityStep(None, None)
      case Some(dir) =>
        var length := if run.Some? && run.value.dir == dir then Min(run.value.length + 1, U8_MAX) else 1;
        if length >= 3 then FormalityStep(None, Some(dir)) else FormalityStep(Some(Run(dir, length)), None)
  }

  datatype EpisodeStep = EpisodeStep(state: EpisodeState, signals: Signals)

  function Step(t: Tagger, s: EpisodeState, ep: Episode): EpisodeStep {
    var b := StepBrevity(t, s, ep);
    var f := StepFormality(t, s.run, ep);
    EpisodeStep(EpisodeState(Min(s.turn + 1, U32_MAX), b.streak, b.last, f.run),
                Signals(t.correction(ep.userText), b.signal, f.signal))
  }

  function After(t: Tagger, s: EpisodeState, eps: seq<Episode>): EpisodeState {
    if eps == [] then s else Step(t, After(t, s, eps[..|eps| - 1]), eps[|eps| - 1]).state
  }

  /** The signals of the `j`-th processed episode of a stream that starts from nothing. */
  function SignalsAt(t: Tagger, eps: seq<Episode>, j: nat): Signals
    requires j < |eps|
  {
    Step(t, After(t, INITIAL, eps[..j]), eps[j]).signals
  }

  /** One more episode, seen by each detector. */
  lemma AfterStep(t: Tagger, eps: seq<Episode>, k: nat)
    requires k < |eps|
    ensures var s, s' := After(t, INITIAL, eps[..k]), After(t, INITIAL, eps[..k + 1]);
            && s'.turn == Min(s.turn + 1, U32_MAX)
            && StepBrevity(t, s, eps[k]) == BrevityStep(s'.streak, s'.lastBrevity, SignalsAt(t, eps, k).brevity)
            && StepFormality(t, s.run, eps[k]) == FormalityStep(s'.run, SignalsAt(t, eps, k).formality)
  {
    hide StepBrevity, StepFormality;
    assert eps[..k + 1][..k] == eps[..k];
  }

  // ---- Brevity ----

  /** No brevity signal within three counted episodes before `j`; the counter stops at its
      maximum, and from there on episodes count as simultaneous. */
  ghost predicate Quiet(t: Tagger, eps: seq<Episode>, j: nat)
    requires j < |eps|
  {
    forall i: nat :: i < j && SignalsAt(t, eps, i).brevity.Some? ==> Min(j, U32_MAX) - Min(i, U32_MAX) >= 3
  }

  /** The debounce memory after `k` episodes: the last emission and nothing later. */
  ghost predicate Remembers(t: Tagger, eps: seq<Episode>, k: nat)
    requires k <= |eps|
  {
    var s := After(t, INITIAL, eps[..k]);
    && s.turn == Min(k, U32_MAX)
    && (s.lastBrevity.Some? ==>
          exists i: nat :: i < k && SignalsAt(t, eps, i).brevity.Some? && s.lastBrevity.value == Min(i, U32_MAX))
    && (forall i: nat :: i < k && SignalsAt(t, eps, i).brevity.Some? ==>
          s.lastBrevity.Some? && Min(i, U32_MAX) <= s.lastBrevity.value)
    && (s.streak >= 1 ==> k >= 1 && BrevityShape(t, eps[k - 1]) && SignalsAt(t, eps, k - 1).brevity.None?)
    && (k >= 1 && BrevityShape(t, eps[k - 1]) && SignalsAt(t, eps, k - 1).brevity.None? ==> s.streak >= 1)
  }

  lemma {:induction false} AlwaysRemembers(t: Tagger, eps: seq<Episode>, k: nat)
    requires k <= |eps|
    ensures Remembers(t, eps, k)
  {
    hide After, SignalsAt, BrevityShape, AsksBrevity;
    if k == 0 {
      NothingYet(t, eps);
    } else {
      AlwaysRemembers(t, eps, k - 1);
      AfterStep(t, eps, k - 1);
    }
  }

  lemma NothingYet(t: Tagger, eps: seq<Episode>)
    ensures After(t, INITIAL, eps[..0]) == INITIAL
  {
  }

  /** Two brevity signals are at least three processed episodes apart, and an implicit one
      needs two implicit-shape episodes in a row. */
  lemma BrevitySignalsAreSpaced(t: Tagger, eps: seq<Episode>, i: nat, j: nat)
    requires i < j < |eps|
    ensures SignalsAt(t, eps, i).brevity.Some? && SignalsAt(t, eps, j).brevity.Some? ==> j - i >= 3
    ensures SignalsAt(t, eps, j).brevity == Some(Implicit) ==> BrevityShape(t, eps[j]) && BrevityShape(t, eps[j - 1])
    ensures SignalsAt(t, eps, j).brevity == Some(Explicit) ==> AsksBrevity(t, eps[j])
  {
    hide After, SignalsAt, BrevityShape, AsksBrevity;
    AlwaysRemembers(t, eps, j);
    AfterStep(t, eps, j);
  }

  lemma FirstEpisodeIsNeverImplicit(t: Tagger, eps: seq<Episode>)
    requires eps != []
    ensures SignalsAt(t, eps, 0).brevity != Some(Implicit)
  {
    AlwaysRemembers(t, eps, 0);
  }

  /** On every stream the detector is exactly this rule: quiet for three counted episodes, then an
      explicit request, else two implicit shapes in a row. */
  lemma BrevityExactly(t: Tagger, eps: seq<Episode>, j: nat)
    requires j < |eps|
    ensures SignalsAt(t, eps, j).brevity ==
            if !Quiet(t, eps, j) then None
            else if eps[j].userText != "" && t.asksBrevity(eps[j].userText) then Some(Explicit)
            else if j >= 1 && forall i :: j - 1 <= i <= j ==>
                      && eps[i].assistantTokens > 300
                      && if eps[i].userTokens > 0 then eps[i].userTokens < 12
                         else eps[i].userText == "" || t.words(eps[i].userText) < 12
            then Some(Implicit)
            else None
  {
    hide BrevityShape, AsksBrevity, After, SignalsAt, Quiet;
    ShapeExactly(t, eps[j]);
    if j >= 1 {
      ShapeExactly(t, eps[j - 1]);
    }
    AfterStep(t, eps, j);
    var s := After(t, INITIAL, eps[..j]);
    assert Remembers(t, eps, j) by {
      AlwaysRemembers(t, eps, j);
    }
    assert DebounceAllows(s.lastBrevity, s.turn) <==> Quiet(t, eps, j) by {
      QuietIsAllowed(t, eps, j);
    }
    ShapeBeforeQuiet(t, eps, j);
  }

  lemma ShapeExactly(t: Tagger, ep: Episode)
    ensures BrevityShape(t, ep) <==>
            && ep.assistantTokens > 300
            && if ep.userTokens > 0 then ep.userTokens < 12 else ep.userText == "" || t.words(ep.userText) < 12
    ensures AsksBrevity(t, ep) <==> ep.userText != "" && t.asksBrevity(ep.userText)
  {
  }

  lemma QuietIsAllowed(t: Tagger, eps: seq<Episode>, j: nat)
    requires j < |eps| && Remembers(t, eps, j)
    ensures var s := After(t, INITIAL, eps[..j]);
            DebounceAllows(s.lastBrevity, s.turn) <==> Quiet(t, eps, j)
  {
    hide SignalsAt, After;
    var s := After(t, INITIAL, eps[..j]);
    if s.lastBrevity.Some? {
      var i: nat :| i < j && SignalsAt(t, eps, i).brevity.Some? && s.lastBrevity.value == Min(i, U32_MAX);
    }
  }

  lemma ShapeBeforeQuiet(t: Tagger, eps: seq<Episode>, j: nat)
    requires j < |eps|
    ensures Quiet(t, eps, j) && j >= 1 ==> SignalsAt(t, eps, j - 1).brevity.None?
  {
    hide SignalsAt;
  }

  /** Until the counter saturates that means: no signal on the two episodes before. */
  lemma QuietMeansTwoEpisodes(t: Tagger, eps: seq<Episode>, j: nat)
    requires j < |eps| && j <= U32_MAX
    ensures Quiet(t, eps, j) <==>
            && (j >= 1 ==> SignalsAt(t, eps, j - 1).brevity.None?)
            && (j >= 2 ==> SignalsAt(t, eps, j - 2).brevity.None?)
  {
    hide SignalsAt;
    if !Quiet(t, eps, j) {
      var i: nat :| i < j && SignalsAt(t, eps, i).brevity.Some? && Min(j, U32_MAX) - Min(i, U32_MAX) < 3;
      assert i == j - 1 || i == j - 2;
    }
  }

  /** Once it has saturated, a signal is the last one ever. */
  lemma SaturationSilencesBrevity(t: Tagger, eps: seq<Episode>, i: nat, j: nat)
    requires U32_MAX - 2 <= i < j < |eps| && SignalsAt(t, eps, i).brevity.Some?
    ensures SignalsAt(t, eps, j).brevity.None?
  {
    hide SignalsAt;
    BrevityExactly(t, eps, j);
  }

  /** Every third episode of a stream that always asks signals, up to saturation. */
  lemma {:induction false} EveryThirdSignals(t: Tagger, eps: seq<Episode>, j: nat)
    requires j < |eps| && j <= U32_MAX && forall i :: 0 <= i < |eps| ==> AsksBrevity(t, eps[i])
    ensures SignalsAt(t, eps, j).brevity.Some? <==> j % 3 == 0
    decreases j
  {
    hide SignalsAt, Quiet, BrevityShape, AsksBrevity;
    BrevityExactly(t, eps, j);
    ShapeExactly(t, eps[j]);
    QuietMeansTwoEpisodes(t, eps, j);
    if j >= 1 {
      EveryThirdSignals(t, eps, j - 1);
    }
    if j >= 2 {
      EveryThirdSignals(t, eps, j - 2);
    }
  }

  /** It happens: four episodes past saturation of a user who asks every time, the last answered
      request was number 2^32 - 1, and the one three later, due by the rule, gets nothing. */
  lemma SaturatedRequestGetsNothing(t: Tagger, ep: Episode)
    requires AsksBrevity(t, ep)
    ensures var eps := seq(U32_MAX + 4, _ => ep);
            && SignalsAt(t, eps, U32_MAX).brevity == Some(Explicit)
            && SignalsAt(t, eps, U32_MAX + 1).brevity.None? && SignalsAt(t, eps, U32_MAX + 2).brevity.None?
            && SignalsAt(t, eps, U32_MAX + 3).brevity.None?
  {
    hide SignalsAt, Quiet, BrevityShape, AsksBrevity;
    var eps := seq(U32_MAX + 4, _ => ep);
    assert eps[U32_MAX] == ep;
    ShapeExactly(t, ep);
    EveryThirdSignals(t, eps, U32_MAX);
    BrevityExactly(t, eps, U32_MAX);
    SaturationSilencesBrevity(t, eps, U32_MAX, U32_MAX + 1);
    SaturationSilencesBrevity(t, eps, U32_MAX, U32_MAX + 2);
    SaturationSilencesBrevity(t, eps, U32_MAX, U32_MAX + 3);
  }

  // ---- Formality ----

  /** Non-empty user messages among the episodes from `p` up to `k`. */
  function Said(eps: seq<Episode>, p: nat, k: nat): nat
    requires p <= k <= |eps|
    decreases k
  {
    if p == k then 0 else Said(eps, p, k - 1) + if eps[k - 1].userText != "" then 1 else 0
  }

  /** From `p` up to `k`: starts with a message in direction `dir`, every non-empty message is
      in that direction, there are `n` of them, and no formality signal fires. */
  ghost predicate RunSince(t: Tagger, eps: seq<Episode>, p: nat, k: nat, dir: Direction, n: nat) {
    && p < k <= |eps| && eps[p].userText != ""
    && (forall i: nat :: p <= i < k ==>
          (eps[i].userText != "" ==> t.formality(eps[i].userText) == Some(dir)) && SignalsAt(t, eps, i).formality.None?)
    && Said(eps, p, k) == n
  }

  lemma {:induction false} RunIsReal(t: Tagger, eps: seq<Episode>, k: nat)
    requires k <= |eps|
    ensures var r := After(t, INITIAL, eps[..k]).run;
            r.Some? ==> 1 <= r.value.length <= 2 && exists p: nat :: RunSince(t, eps, p, k, r.value.dir, r.value.length)
  {
    hide After, SignalsAt, StepBrevity;
    if k == 0 {
      NothingYet(t, eps);
    } else {
      RunIsReal(t, eps, k - 1);
      AfterStep(t, eps, k - 1);
      var before, r := After(t, INITIAL, eps[..k - 1]).run, After(t, INITIAL, eps[..k]).run;
      if r.Some? {
        if before.Some? && before.value.dir == r.value.dir {
          var p: nat :| RunSince(t, eps, p, k - 1, before.value.dir, before.value.length);
          RunGrows(t, eps, p, k - 1, before.value.dir, before.value.length);
        } else {
          assert Said(eps, k - 1, k - 1) == 0;
          assert eps[k - 1].userText != "";
          assert RunSince(t, eps, k - 1, k, r.value.dir, 1);
        }
      }
    }
  }

  lemma RunGrows(t: Tagger, eps: seq<Episode>, p: nat, k: nat, dir: Direction, n: nat)
    requires k < |eps| && RunSince(t, eps, p, k, dir, n)
    requires SignalsAt(t, eps, k).formality.None?
    requires eps[k].userText != "" ==> t.formality(eps[k].userText) == Some(dir)
    ensures RunSince(t, eps, p, k + 1, dir, n + if eps[k].userText != "" then 1 else 0)
  {
    hide SignalsAt;
  }

  /** A formality signal consumes a run of exactly three non-empty messages in its direction,
      with nothing else said in between and no earlier formality signal inside the run. */
  lemma FormalityConsumesThree(t: Tagger, eps: seq<Episode>, j: nat) returns (p: nat)
    requires j < |eps| && SignalsAt(t, eps, j).formality.Some?
    ensures p < j && Said(eps, p, j + 1) == 3 && eps[p].userText != "" && eps[j].userText != ""
    ensures forall i: nat :: p <= i <= j && eps[i].userText != "" ==>
              t.formality(eps[i].userText) == SignalsAt(t, eps, j).formality
    ensures forall i: nat :: p <= i < j ==> SignalsAt(t, eps, i).formality.None?
  {
    hide After, SignalsAt, StepBrevity;
    RunIsReal(t, eps, j);
    AfterStep(t, eps, j);
    var r := After(t, INITIAL, eps[..j]).run;
    p :| RunSince(t, eps, p, j, r.value.dir, r.value.length);
  }

  lemma {:induction false} RunIsTracked(t: Tagger, eps: seq<Episode>, p: nat, k: nat, dir: Direction, n: nat)
    requires RunSince(t, eps, p, k, dir, n)
    ensures var r := After(t, INITIAL, eps[..k]).run; r.Some? && r.value.dir == dir && r.value.length >= n
    decreases k
  {
    hide After, SignalsAt, StepBrevity;
    AfterStep(t, eps, k - 1);
    RunIsReal(t, eps, k - 1);
    RunIsReal(t, eps, k);
    if p < k - 1 {
      RunIsTracked(t, eps, p, k - 1, dir, Said(eps, p, k - 1));
    } else {
      assert Said(eps, p, p) == 0;
    }
  }

  /** On every stream: a formality signal comes exactly where the third non-empty message of a
      direction ends a run that holds no other direction and no earlier signal. */
  lemma FormalityExactly(t: Tagger, eps: seq<Episode>, j: nat, dir: Direction)
    requires j < |eps|
    ensures SignalsAt(t, eps, j).formality == Some(dir) <==>
            exists p: nat ::
              && p < j && Said(eps, p, j + 1) == 3 && eps[p].userText != "" && eps[j].userText != ""
              && (forall i: nat :: p <= i <= j && eps[i].userText != "" ==> t.formality(eps[i].userText) == Some(dir))
              && (forall i: nat :: p <= i < j ==> SignalsAt(t, eps, i).formality.None?)
  {
    hide After, SignalsAt, StepBrevity;
    if SignalsAt(t, eps, j).formality == Some(dir) {
      var p := FormalityConsumesThree(t, eps, j);
    }
    if p: nat :|
      && p < j && Said(eps, p, j + 1) == 3 && eps[p].userText != "" && eps[j].userText != ""
      && (forall i: nat :: p <= i <= j && eps[i].userText != "" ==> t.formality(eps[i].userText) == Some(dir))
      && (forall i: nat :: p <= i < j ==> SignalsAt(t, eps, i).formality.None?)
    {
      ThirdFires(t, eps, p, j, dir);
    }
  }

  lemma ThirdFires(t: Tagger, eps: seq<Episode>, p: nat, j: nat, dir: Direction)
    requires p < j < |eps| && Said(eps, p, j + 1) == 3 && eps[p].userText != "" && eps[j].userText != ""
    requires forall i: nat :: p <= i <= j && eps[i].userText != "" ==> t.formality(eps[i].userText) == Some(dir)
    requires forall i: nat :: p <= i < j ==> SignalsAt(t, eps, i).formality.None?
    ensures SignalsAt(t, eps, j).formality == Some(dir)
  {
    hide After, SignalsAt, StepBrevity;
    RunIsTracked(t, eps, p, j, dir, 2);
    RunIsReal(t, eps, j);
    AfterStep(t, eps, j);
  }

  /** Two formality signals consume disjoint runs: the later run starts after the earlier signal. */
  lemma FormalityRunsAreDisjoint(t: Tagger, eps: seq<Episode>, i: nat, j: nat) returns (p: nat, q: nat)
    requires i < j < |eps| && SignalsAt(t, eps, i).formality.Some? && SignalsAt(t, eps, j).formality.Some?
    ensures p < i < q < j && Said(eps, p, i + 1) == 3 && Said(eps, q, j + 1) == 3
  {
    hide SignalsAt;
    p := FormalityConsumesThree(t, eps, i);
    q := FormalityConsumesThree(t, eps, j);
  }

  // ---- Domain emergence ----

  function CountAtLeast(xs: seq<nat>, n: nat): nat {
    if xs == [] then 0 else (if xs[0] >= n then 1 else 0) + CountAtLeast(xs[1..], n)
  }

  function Largest(xs: seq<nat>): nat {
    if xs == [] then 0 else Max(xs[0], Largest(xs[1..]))
  }

  predicate Crosses(xs: seq<nat>) {
    || CountAtLeast(xs, DOMAIN_MIN_RECURRENCE_NODE) >= DOMAIN_EMIT_AT_LEAST_NODES
    || Largest(xs) >= DOMAIN_SINGLE_NODE_RECURRENCE
  }

  /** A cluster crosses the threshold with two strong facts, or with one very strong one. */
  lemma CrossesExactly(xs: seq<nat>)
    ensures Crosses(xs) <==>
            || (exists i, j :: 0 <= i < j < |xs| && xs[i] >= 3 && xs[j] >= 3)
            || (exists i :: 0 <= i < |xs| && xs[i] >= 6)
  {
    hide CountAtLeast, Largest;
    CountExactly(xs, 3);
    LargestExactly(xs, 6);
  }

  lemma {:induction false} CountExactly(xs: seq<nat>, n: nat)
    ensures CountAtLeast(xs, n) >= 1 <==> exists i :: 0 <= i < |xs| && xs[i] >= n
    ensures CountAtLeast(xs, n) >= 2 <==> exists i, j :: 0 <= i < j < |xs| && xs[i] >= n && xs[j] >= n
  {
    if xs != [] {
      var rest := xs[1..];
      CountExactly(rest, n);
      if i :| 0 <= i < |rest| && rest[i] >= n {
        assert xs[i + 1] >= n;
      }
      if i, j :| 0 <= i < j < |rest| && rest[i] >= n && rest[j] >= n {
        assert xs[i + 1] >= n && xs[j + 1] >= n;
      }
      if i, j :| 0 <= i < j < |xs| && xs[i] >= n && xs[j] >= n {
        assert rest[j - 1] >= n;
        assert i > 0 ==> rest[i - 1] >= n;
      }
    }
  }

  lemma {:induction false} LargestExactly(xs: seq<nat>, n: nat)
    requires n > 0
    ensures Largest(xs) >= n <==> exists i :: 0 <= i < |xs| && xs[i] >= n
  {
    if xs != [] {
      var rest := xs[1..];
      LargestExactly(rest, n);
      if i :| 0 <= i < |rest| && rest[i] >= n {
        assert xs[i + 1] >= n;
      }
      if i :| 0 <= i < |xs| && xs[i] >= n {
        assert i > 0 ==> rest[i - 1] >= n;
      }
    }
  }

  datatype DomainState = DomainState(pass: nat, lastEmit: map<string, nat>)

  const NO_DOMAINS: DomainState := DomainState(0, map[])

  predicate Emits(s: DomainState, clusters: Clusters, c: string) {
    && c in clusters && Crosses(clusters[c])
    && (c in s.lastEmit ==> Max(s.pass - s.lastEmit[c], 0) >= DOMAIN_COOLDOWN_PASSES)
  }

  function Emitting(s: DomainState, clusters: Clusters): set<string> {
    set c | c in clusters && Emits(s, clusters, c)
  }

  function Stamped(last: map<string, nat>, fired: set<string>, pass: nat): map<string, nat> {
    last + map c | c in fired :: pass
  }

  function NextPass(s: DomainState): nat {
    Min(s.pass + 1, U64_MAX)
  }

  /** One pass: the pass counter moves, then each cluster decides on its own. */
  function DomainPass(s: DomainState, clusters: Clusters): DomainState {
    var now := s.(pass := NextPass(s));
    now.(lastEmit := Stamped(s.lastEmit, Emitting(now, clusters), now.pass))
  }

  function DomainsAfter(passes: seq<Clusters>): DomainState {
    if passes == [] then NO_DOMAINS else DomainPass(DomainsAfter(passes[..|passes| - 1]), passes[|passes| - 1])
  }

  predicate EmitsAt(passes: seq<Clusters>, k: nat, c: string)
    requires k < |passes|
  {
    var s := DomainsAfter(passes[..k]);
    Emits(s.(pass := NextPass(s)), passes[k], c)
  }

  ghost predicate DomainMemory(passes: seq<Clusters>, k: nat, c: string)
    requires k <= |passes|
  {
    var s := DomainsAfter(passes[..k]);
    && s.pass == Min(k, U64_MAX)
    && (c in s.lastEmit ==> exists i: nat :: i < k && EmitsAt(passes, i, c) && s.lastEmit[c] == Min(i + 1, U64_MAX))
    && (forall i: nat :: i < k && EmitsAt(passes, i, c) ==> c in s.lastEmit && Min(i + 1, U64_MAX) <= s.lastEmit[c])
  }

  lemma {:induction false} DomainAlwaysRemembers(passes: seq<Clusters>, k: nat, c: string)
    requires k <= |passes|
    ensures DomainMemory(passes, k, c)
  {
    hide Crosses;
    if k > 0 {
      DomainAlwaysRemembers(passes, k - 1, c);
      assert passes[..k][..k - 1] == passes[..k - 1];
      assert DomainsAfter(passes[..k]) == DomainPass(DomainsAfter(passes[..k - 1]), passes[k - 1]);
      var s := DomainsAfter(passes[..k]);
      if EmitsAt(passes, k - 1, c) {
        assert s.lastEmit[c] == Min(k, U64_MAX);
      }
    }
  }

  /** No signal of the cluster within two counted passes before pass `k`. */
  ghost predicate CooledDown(passes: seq<Clusters>, k: nat, c: string)
    requires k < |passes|
  {
    forall i: nat :: i < k && EmitsAt(passes, i, c) ==> Min(k + 1, U64_MAX) - Min(i + 1, U64_MAX) >= 2
  }

  /** In every run a cluster signals in a pass exactly when it crosses the threshold and has
      cooled down. Until the pass counter saturates that means it did not signal in the pass
      before, so a cluster that keeps crossing signals every other pass. */
  lemma DomainExactly(passes: seq<Clusters>, k: nat, c: string)
    requires k < |passes|
    ensures EmitsAt(passes, k, c) <==>
            && c in passes[k] && CooledDown(passes, k, c)
            && var counts := passes[k][c];
               || (exists i, j :: 0 <= i < j < |counts| && counts[i] >= 3 && counts[j] >= 3)
               || (exists i :: 0 <= i < |counts| && counts[i] >= 6)
    ensures k < U64_MAX ==> (CooledDown(passes, k, c) <==> k == 0 || !EmitsAt(passes, k - 1, c))
  {
    hide Crosses, DomainsAfter;
    if c in passes[k] {
      CrossesExactly(passes[k][c]);
    }
    DomainAlwaysRemembers(passes, k, c);
    var s := DomainsAfter(passes[..k]);
    if c in s.lastEmit {
      var i: nat :| i < k && EmitsAt(passes, i, c) && s.lastEmit[c] == Min(i + 1, U64_MAX);
    }
    if k < U64_MAX && !CooledDown(passes, k, c) {
      var i: nat :| i < k && EmitsAt(passes, i, c) && Min(k + 1, U64_MAX) - Min(i + 1, U64_MAX) < 2;
      assert i == k - 1;
    }
  }

  /** The spacing holds in every run, even after the pass counter saturates. */
  lemma DomainSignalsAreSpaced(passes: seq<Clusters>, i: nat, j: nat, c: string)
    requires i < j < |passes| && EmitsAt(passes, i, c) && EmitsAt(passes, j, c)
    ensures j - i >= 2
  {
    DomainAlwaysRemembers(passes, j, c);
  }

  // ---- Several passes over one state ----

  function Flatten(passes: seq<seq<Episode>>): seq<Episode> {
    if passes == [] then [] else Flatten(passes[..|passes| - 1]) + passes[|passes| - 1]
  }

  function AfterPasses(t: Tagger, passes: seq<seq<Episode>>): EpisodeState {
    if passes == [] then INITIAL else After(t, AfterPasses(t, passes[..|passes| - 1]), passes[|passes| - 1])
  }

  lemma {:induction false} AfterAppend(t: Tagger, s: EpisodeState, a: seq<Episode>, b: seq<Episode>)
    ensures After(t, s, a + b) == After(t, After(t, s, a), b)
  {
    hide Step;
    if b == [] {
      assert a + b == a;
    } else {
      AfterAppend(t, s, a, b[..|b| - 1]);
      assert (a + b)[..|a + b| - 1] == a + b[..|b| - 1];
    }
  }

  lemma {:induction false} PassesAreOneStream(t: Tagger, passes: seq<seq<Episode>>)
    ensures AfterPasses(t, passes) == After(t, INITIAL, Flatten(passes))
  {
    hide After;
    if passes == [] {
      NothingYet(t, []);
      assert [][..0] == Flatten(passes);
    } else {
      var front := passes[..|passes| - 1];
      PassesAreOneStream(t, front);
      AfterAppend(t, INITIAL, Flatten(front), passes[|passes| - 1]);
    }
  }

  /** The signals of a later pass are those the stream theorems speak about: position in the
      pass plus everything processed by the passes before it. */
  lemma PassSignalsAreStreamSignals(t: Tagger, earlier: seq<seq<Episode>>, eps: seq<Episode>, i: nat)
    requires i < |eps|
    ensures var stream := Flatten(earlier) + eps;
            Step(t, After(t, AfterPasses(t, earlier), eps[..i]), eps[i]).signals
            == SignalsAt(t, stream, |Flatten(earlier)| + i)
  {
    hide After, Step;
    var before := Flatten(earlier);
    PassesAreOneStream(t, earlier);
    AfterAppend(t, INITIAL, before, eps[..i]);
    assert (before + eps)[..|before| + i] == before + eps[..i];
  }

  // ---- One pass: what it emits ----

  function AffinitySignals(ep: Episode): seq<Signal> {
    if ep.fullySignalled then [] else seq(ep.taggedTools, _ => Signal(Instrumentality, 0.68, 0.5))
  }

  const CORRECTION: Signal := Signal(Systematicity, 0.84, 0.85)

  function BrevitySignal(b: Brevity): Signal {
    if b.Explicit? then Signal(Verbosity, 0.22, 0.75) else Signal(Verbosity, 0.24, 0.7)
  }

  function FormalitySignal(dir: Direction): Signal {
    Signal(Systematicity, if dir.Formal? then 0.78 else 0.28, 0.65)
  }

  function RawSignals(ep: Episode, sig: Signals): seq<Signal> {
    AffinitySignals(ep)
    + (if sig.correction.Some? then [CORRECTION] else [])
    + (if sig.brevity.Some? then [BrevitySignal(sig.brevity.value)] else [])
    + (if sig.formality.Some? then [FormalitySignal(sig.formality.value)] else [])
  }

  function Tags(sig: Signals): seq<string> {
    (if sig.correction.Some? then [sig.correction.value] else [])
    + (match sig.brevity
       case None => []
       case Some(Explicit) => ["det:brevity:explicit"]
       case Some(Implicit) => ["det:brevity:implicit_shape"])
    + (match sig.formality
       case None => []
       case Some(Formal) => ["det:formality:formal_run"]
       case Some(Informal) => ["det:formality:informal_run"])
  }

  function PassSignals(t: Tagger, s: EpisodeState, eps: seq<Episode>): seq<Signal> {
    if eps == [] then [] else
    var front, last := eps[..|eps| - 1], eps[|eps| - 1];
    PassSignals(t, s, front) + RawSignals(last, Step(t, After(t, s, front), last).signals)
  }

  predicate IsCorrection(sig: Signal) {
    sig == CORRECTION
  }

  /** How many of the signals come from a correction. */
  function Corrections(sigs: seq<Signal>): nat {
    |Filter(sigs, IsCorrection)|
  }

  lemma CorrectionsAppend(a: seq<Signal>, b: seq<Signal>)
    ensures Corrections(a + b) == Corrections(a) + Corrections(b)
  {
    FilterAppend(a, b, IsCorrection);
  }

  lemma NoCorrections(sigs: seq<Signal>)
    requires CORRECTION !in sigs
    ensures Corrections(sigs) == 0
  {
    SomethingIn(Filter(sigs, IsCorrection));
  }

  predicate Corrects(t: Tagger, ep: Episode) {
    t.correction(ep.userText).Some?
  }

  function Corrector(t: Tagger): Episode -> bool {
    (e: Episode) => Corrects(t, e)
  }

  function Correcting(t: Tagger, eps: seq<Episode>): seq<Episode> {
    Filter(eps, Corrector(t))
  }

  lemma RawCorrections(t: Tagger, s: EpisodeState, ep: Episode)
    ensures Corrections(RawSignals(ep, Step(t, s, ep).signals)) == if Corrects(t, ep) then 1 else 0
  {
    hide StepBrevity, StepFormality;
    var sig := Step(t, s, ep).signals;
    var c := if sig.correction.Some? then [CORRECTION] else [];
    var b := if sig.brevity.Some? then [BrevitySignal(sig.brevity.value)] else [];
    var f := if sig.formality.Some? then [FormalitySignal(sig.formality.value)] else [];
    CorrectionsAppend(AffinitySignals(ep) + c + b, f);
    CorrectionsAppend(AffinitySignals(ep) + c, b);
    CorrectionsAppend(AffinitySignals(ep), c);
    NoCorrections(AffinitySignals(ep));
    NoCorrections(b);
    NoCorrections(f);
    assert [CORRECTION][1..] == [] && Filter([CORRECTION][1..], IsCorrection) == [];
    assert Corrections(c) == if Corrects(t, ep) then 1 else 0;
  }

  /** A pass signals one correction per episode whose text corrects, whatever the detectors
      remember. */
  lemma {:induction false} CorrectionsInPass(t: Tagger, s: EpisodeState, eps: seq<Episode>)
    ensures Corrections(PassSignals(t, s, eps)) == |Correcting(t, eps)|
  {
    hide RawSignals, Step, Corrects, Corrections;
    if eps == [] {
      NoCorrections([]);
    } else {
      var front, last := eps[..|eps| - 1], eps[|eps| - 1];
      CorrectionsInPass(t, s, front);
      CorrectionsAppend(PassSignals(t, s, front), RawSignals(last, Step(t, After(t, s, front), last).signals));
      RawCorrections(t, After(t, s, front), last);
      FilterStep(eps, |eps| - 1, Corrector(t));
      assert eps[..|eps| - 1 + 1] == eps;
    }
  }

  type Pending = seq<(nat, seq<string>)>

  function PassTags(t: Tagger, s: EpisodeState, eps: seq<Episode>): Pending {
    if eps == [] then [] else
    var front, last := eps[..|eps| - 1], eps[|eps| - 1];
    var tags := Tags(Step(t, After(t, s, front), last).signals);
    PassTags(t, s, front) + if tags == [] then [] else [(last.id, tags)]
  }

  /** An episode that corrects gets a tag, and an entry never comes without one. */
  lemma {:induction false} CorrectingIsPending(t: Tagger, s: EpisodeState, eps: seq<Episode>)
    ensures forall e :: e in eps && Corrects(t, e) ==> exists p :: p in PassTags(t, s, eps) && p.0 == e.id
    ensures forall p :: p in PassTags(t, s, eps) ==> p.1 != []
  {
    hide StepBrevity, StepFormality;
    if eps != [] {
      var front, last := eps[..|eps| - 1], eps[|eps| - 1];
      CorrectingIsPending(t, s, front);
      assert eps == front + [last];
      var tags := Tags(Step(t, After(t, s, front), last).signals);
      assert Corrects(t, last) ==> tags != [];
      if tags != [] {
        assert (last.id, tags) in PassTags(t, s, eps);
      }
    }
  }

  const DOMAIN_SIGNAL: Signal := Signal(Persistence, 0.72, 0.6)

  /** One signal per cluster that fires; which cluster came first cannot be seen. */
  function DomainSignals(s: DomainState, clusters: Clusters): seq<Signal> {
    seq(|Emitting(s, clusters)|, _ => DOMAIN_SIGNAL)
  }

  ghost function FiredAmong(s: DomainState, clusters: Clusters, visited: seq<string>): set<string> {
    set c | c in visited && Emits(s, clusters, c)
  }

  lemma FiredStep(s: DomainState, clusters: Clusters, order: seq<string>, i: nat)
    requires Distinct(order) && i < |order|
    ensures FiredAmong(s, clusters, order[..i + 1]) ==
            FiredAmong(s, clusters, order[..i]) + if Emits(s, clusters, order[i]) then {order[i]} else {}
    ensures order[i] !in FiredAmong(s, clusters, order[..i])
  {
    hide Emits;
    assert order[..i + 1] == order[..i] + [order[i]];
    assert order[i] !in order[..i];
  }

  lemma FiredAll(s: DomainState, clusters: Clusters, order: seq<string>)
    requires Elems(order) == clusters.Keys
    ensures FiredAmong(s, clusters, order[..|order|]) == Emitting(s, clusters)
  {
    hide Emits;
    assert order[..|order|] == order;
    assert forall c :: c in order <==> c in Elems(order);
  }

  lemma NothingFired(s: DomainState, clusters: Clusters, order: seq<string>)
    ensures FiredAmong(s, clusters, order[..0]) == {}
    ensures s.lastEmit == Stamped(s.lastEmit, {}, s.pass)
  {
  }

  lemma StampStep(last: map<string, nat>, fired: set<string>, pass: nat, c: string)
    requires c !in fired
    ensures Stamped(last, fired + {c}, pass) == Stamped(last, fired, pass)[c := pass]
    ensures c in Stamped(last, fired, pass) <==> c in last
    ensures c in last ==> Stamped(last, fired, pass)[c] == last[c]
  {
  }

  class ExtractorState {
    var passSeq: nat
    var turn: nat
    var streak: nat
    var lastBrevity: Option<nat>
    var run: Option<Run>
    var lastEmit: map<string, nat>

    constructor ()
      ensures Episodes() == INITIAL && Domains() == NO_DOMAINS
    {
      passSeq, turn, streak, lastBrevity, run, lastEmit := 0, 0, 0, None, None, map[];
    }

    function Episodes(): EpisodeState
      reads this
    {
      EpisodeState(turn, streak, lastBrevity, run)
    }

    function Domains(): DomainState
      reads this
    {
      DomainState(passSeq, lastEmit)
    }

    /** One episode through the three detectors. */
    method Observe(t: Tagger, ep: Episode) returns (sig: Signals)
      modifies this
      ensures EpisodeStep(Episodes(), sig) == Step(t, old(Episodes()), ep)
      ensures Domains() == old(Domains())
    {
      hide BrevityShape;
      var now := turn;
      turn := Min(turn + 1, U32_MAX);
      sig := Signals(t.correction(ep.userText), None, None);
      if ep.userText != "" && t.asksBrevity(ep.userText) && DebounceAllows(lastBrevity, now) {
        sig := sig.(brevity := Some(Explicit));
        lastBrevity, streak := Some(now), 0;
      } else if BrevityShape(t, ep) {
        streak := Min(streak + 1, U8_MAX);
        if streak >= 2 && DebounceAllows(lastBrevity, now) {
          sig := sig.(brevity := Some(Implicit));
          lastBrevity, streak := Some(now), 0;
        }
      } else {
        streak := 0;
      }
      if ep.userText != "" {
        var dir := t.formality(ep.userText);
        if dir.Some? {
          var length := 1;
          if run.Some? && run.value.dir == dir.value {
            length := Min(run.value.length + 1, U8_MAX);
          }
          run := Some(Run(dir.value, length));
          if length >= 3 {
            sig := sig.(formality := dir);
            run := None;
          }
        } else {
          run := None;
        }
      }
    }

    /** The clusters are visited in any order; what happens to one does not depend on another. */
    method DomainEmergence(clusters: Clusters) returns (out: seq<Signal>)
      modifies this`lastEmit
      ensures lastEmit == Stamped(old(lastEmit), Emitting(old(Domains()), clusters), passSeq)
      ensures out == DomainSignals(old(Domains()), clusters)
    {
      hide Crosses, FiredAmong, Stamped, Emitting, Distinct;
      out := [];
      ghost var s := Domains();
      var order := Enumerate(clusters.Keys);
      ghost var fired := FiredAmong(s, clusters, order[..0]);
      assert fired == {} && lastEmit == Stamped(s.lastEmit, {}, passSeq) by {
        NothingFired(s, clusters, order);
      }
      for i := 0 to |order|
        invariant fired == FiredAmong(s, clusters, order[..i])
        invariant lastEmit == Stamped(s.lastEmit, fired, passSeq)
        invariant out == seq(|fired|, _ => DOMAIN_SIGNAL)
      {
        var c := order[i];
        assert c in Elems(order);
        FiredStep(s, clusters, order, i);
        StampStep(s.lastEmit, fired, passSeq, c);
        if Crosses(clusters[c]) && (c in lastEmit ==> Max(passSeq - lastEmit[c], 0) >= DOMAIN_COOLDOWN_PASSES) {
          lastEmit := lastEmit[c := passSeq];
          out := out + [DOMAIN_SIGNAL];
          fired := fired + {c};
        }
      }
      FiredAll(s, clusters, order);
    }

    /** The agent's episodes oldest first, then its topic clusters. */
    method ExtractPassCollect(t: Tagger, agent: string, rows: seq<Episode>, facts: seq<Fact>)
      returns (out: seq<Signal>, pending: Pending)
      modifies this
      ensures Episodes() == After(t, old(Episodes()), Chronological(rows, agent))
      ensures Domains() == DomainPass(old(Domains()), ClustersOf(facts, agent))
      ensures pending == PassTags(t, old(Episodes()), Chronological(rows, agent))
      ensures var now := old(Domains()).(pass := passSeq);
              out == PassSignals(t, old(Episodes()), Chronological(rows, agent)) + DomainSignals(now, ClustersOf(facts, agent))
    {
      hide Step, RawSignals, Tags, Emits, Chronological, ClustersOf;
      var eps := Chronological(rows, agent);
      passSeq := Min(passSeq + 1, U64_MAX);
      ghost var s := Episodes();
      out, pending := [], [];
      for i := 0 to |eps|
        invariant Episodes() == After(t, s, eps[..i])
        invariant Domains() == old(Domains()).(pass := Min(old(passSeq) + 1, U64_MAX))
        invariant out == PassSignals(t, s, eps[..i])
        invariant pending == PassTags(t, s, eps[..i])
      {
        assert eps[..i + 1][..i] == eps[..i];
        var sig := Observe(t, eps[i]);
        out := out + RawSignals(eps[i], sig);
        if Tags(sig) != [] {
          pending := pending + [(eps[i].id, Tags(sig))];
        }
      }
      assert eps[..|eps|] == eps;
      var clusters := GroupClusters(facts, agent);
      var emerged := DomainEmergence(clusters);
      out := out + emerged;
    }
  }
}
