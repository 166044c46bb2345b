/** The signals read off stored nodes: hash sets and hash maps are walked in any order. */
module NodeSignals {
  import opened Wrappers
  import opened Collections
  import opened Text
  import opened Evolution

  /** What extraction reads of an episode. */
  datatype EpisodeFacts = EpisodeFacts(
    gate: Option<string>,
    phase: Option<string>,
    trust: Option<real>,
    hints: seq<string>,
    traceTool: Option<string>,
    tools: seq<string>,
    bytes: nat,
    outcome: string,
    durationMs: nat)

  function ParseAxis(name: string): Option<Axis> {
    match Trim(name)
    case "Instrumentality" | "instrumentality" => Some(Instrumentality)
    case "Verbosity" | "verbosity" => Some(Verbosity)
    case "Persistence" | "persistence" => Some(Persistence)
    case "Systematicity" | "systematicity" => Some(Systematicity)
    case "Curiosity" | "curiosity" => Some(Curiosity)
    case _ => None
  }

  /** Both spellings of an axis name it, space around them or not. */
  lemma ParseAxisExactly(name: string)
    ensures var n := Trim(name);
            && (ParseAxis(name) == Some(Instrumentality) <==> n == "Instrumentality" || n == "instrumentality")
            && (ParseAxis(name) == Some(Verbosity) <==> n == "Verbosity" || n == "verbosity")
            && (ParseAxis(name) == Some(Persistence) <==> n == "Persistence" || n == "persistence")
            && (ParseAxis(name) == Some(Systematicity) <==> n == "Systematicity" || n == "systematicity")
            && (ParseAxis(name) == Some(Curiosity) <==> n == "Curiosity" || n == "curiosity")
  {
    hide Trim;
  }

  // ---- Episodes ----

  predicate EpisodicShouldProcess(ep: EpisodeFacts) {
    ep.outcome == "success" || ep.hints != []
  }

  /** The phase up to its first colon. */
  function PhaseKind(ep: EpisodeFacts): (kind: string)
    ensures ':' !in kind
    ensures match ep.phase
            case None => kind == ""
            case Some(p) => kind <= p && (kind == p || p[|kind|] == ':')
  {
    Before(if ep.phase.Some? then ep.phase.value else "", ':')
  }

  function VitalsSignals(ep: EpisodeFacts): seq<Signal> {
    if ep.gate.None? then [] else
    var kind := PhaseKind(ep);
    var trust := Clamp(if ep.trust.Some? then ep.trust.value else 0.5);
    match ep.gate.value
    case "pass" =>
      (match kind
       case "reasoning" | "retrieval" => [Signal(Systematicity, 0.7 + 0.3 * trust, 0.65)]
       case "creative" => [Signal(Curiosity, 0.65, 0.5), Signal(Verbosity, 0.6, 0.45)]
       case _ => [])
    case "warn" =>
      (match kind
       case "hallucination" => [Signal(Curiosity, 0.55, 0.4), Signal(Systematicity, 0.2, 0.4)]
       case "refusal" => [Signal(Systematicity, 0.5, 0.3)]
       case _ => if trust > 0.3 then [Signal(Persistence, 0.55, 0.4)] else [])
    case "fail" =>
      [Signal(Systematicity, 0.1, 0.5)] + if trust > 0.2 then [Signal(Persistence, 0.4, 0.3)] else []
    case _ => []
  }

  /** `axis:reward`; how a reward is read is left to `parse`. */
  function HintSignal(hint: string, parse: string -> Option<real>): Option<Signal> {
    var name := Before(hint, ':');
    if |name| == |hint| then None else
    match ParseAxis(name)
    case None => None
    case Some(axis) =>
      var reward := parse(Trim(hint[|name| + 1..]));
      if reward.None? then None else Some(Signal(axis, Clamp(reward.value), 0.8))
  }

  function HintSignals(hints: seq<string>, parse: string -> Option<real>): seq<Signal> {
    if hints == [] then []
    else
      var last := HintSignal(hints[|hints| - 1], parse);
      HintSignals(hints[..|hints| - 1], parse) + if last.Some? then [last.value] else []
  }

  predicate IsInstrumentalityTool(tool: string) {
    var n := Lower(tool);
    || Contains(n, "shell") || Contains(n, "cli") || Contains(n, "mcp") || Contains(n, "compile")
    || Contains(n, "compiler") || n == "ainl" || Contains(n, "ainl_")
  }

  predicate IsWebTool(tool: string) {
    var n := Lower(tool);
    Contains(n, "web_search") || Contains(n, "web_fetch") || Contains(n, "web.fetch")
  }

  predicate WritesMuch(tool: string, bytes: nat) {
    Contains(Lower(tool), "file_write") && bytes >= 4096
  }

  /** Which axes a tool speaks for. */
  predicate Speaks(bytes: nat, a: Axis, tool: string) {
    match a
    case Instrumentality => IsInstrumentalityTool(tool)
    case Curiosity => IsWebTool(tool)
    case Verbosity => WritesMuch(tool, bytes)
    case _ => false
  }

  function ToolSignal(a: Axis): Signal {
    match a
    case Instrumentality => Signal(Instrumentality, 0.8, 0.6)
    case Curiosity => Signal(Curiosity, 0.7, 0.5)
    case _ => Signal(a, 0.6, 0.4)
  }

  function OneTool(bytes: nat, tool: string): seq<Signal> {
    (if Speaks(bytes, Instrumentality, tool) then [ToolSignal(Instrumentality)] else [])
    + (if Speaks(bytes, Curiosity, tool) then [ToolSignal(Curiosity)] else [])
    + (if Speaks(bytes, Verbosity, tool) then [ToolSignal(Verbosity)] else [])
  }

  function ToolSignals(bytes: nat, order: seq<string>): seq<Signal> {
    if order == [] then [] else ToolSignals(bytes, order[..|order| - 1]) + OneTool(bytes, order[|order| - 1])
  }

  function ToolNames(ep: EpisodeFacts): set<string> {
    Elems(ep.tools) + (if ep.traceTool.Some? then {ep.traceTool.value} else if ep.tools != [] then {ep.tools[0]} else {})
  }

  function OutcomeSignals(ep: EpisodeFacts): seq<Signal> {
    (match ep.outcome
     case "success" => [Signal(Systematicity, 0.6, 0.5)]
     case "retry" | "error" => [Signal(Curiosity, 0.5, 0.5)]
     case _ => [])
    + (if ep.durationMs > 5000 then [Signal(Persistence, 0.6, 0.4)] else [])
  }

  /** The signals of an episode when its tool set is walked in the given order. */
  function EpisodicSignals(ep: EpisodeFacts, parse: string -> Option<real>, order: seq<string>): seq<Signal> {
    VitalsSignals(ep) + HintSignals(ep.hints, parse) + ToolSignals(ep.bytes, order) + OutcomeSignals(ep)
  }

  /** An episode speaks only if it succeeded or already emitted signals. */
  function FromEpisode(ep: EpisodeFacts, parse: string -> Option<real>, order: seq<string>): seq<Signal> {
    if EpisodicShouldProcess(ep) then EpisodicSignals(ep, parse, order) else []
  }

  ghost predicate Enumerates(order: seq<string>, names: set<string>) {
    Distinct(order) && Elems(order) == names
  }

  method ReadHints(hints: seq<string>, parse: string -> Option<real>) returns (out: seq<Signal>)
    ensures out == HintSignals(hints, parse)
  {
    hide HintSignal;
    out := [];
    for i := 0 to |hints|
      invariant out == HintSignals(hints[..i], parse)
    {
      assert hints[..i + 1][..i] == hints[..i];
      var sig := HintSignal(hints[i], parse);
      if sig.Some? {
        out := out + [sig.value];
      }
    }
    assert hints[..|hints|] == hints;
  }

  method ReadTools(bytes: nat, order: seq<string>) returns (out: seq<Signal>)
    ensures out == ToolSignals(bytes, order)
  {
    hide OneTool;
    out := [];
    for i := 0 to |order|
      invariant out == ToolSignals(bytes, order[..i])
    {
      assert order[..i + 1][..i] == order[..i];
      out := out + OneTool(bytes, order[i]);
    }
    assert order[..|order|] == order;
  }

  method ExtractEpisodic(ep: EpisodeFacts, parse: string -> Option<real>) returns (out: seq<Signal>)
    ensures exists order :: Enumerates(order, ToolNames(ep)) && out == FromEpisode(ep, parse, order)
  {
    hide VitalsSignals, HintSignals, ToolSignals, OutcomeSignals, ToolNames, Distinct, Elems;
    var order := Enumerate(ToolNames(ep));
    assert Enumerates(order, ToolNames(ep));
    out := [];
    if EpisodicShouldProcess(ep) {
      var hints := ReadHints(ep.hints, parse);
      var tools := ReadTools(ep.bytes, order);
      out := VitalsSignals(ep) + hints + tools + OutcomeSignals(ep);
    }
    assert out == FromEpisode(ep, parse, order);
  }

  function Repeated(sig: Signal, n: nat): seq<Signal> {
    seq(n, _ => sig)
  }

  function Speakers(bytes: nat, a: Axis, order: seq<string>): seq<string> {
    Filter(order, (tool: string) => Speaks(bytes, a, tool))
  }

  lemma OwnIf(sig: Signal, on: bool, a: Axis)
    ensures Own(if on then [sig] else [], a) == if on && sig.axis == a then [sig] else []
  {
    if on {
      OwnStep([sig], a);
      assert [sig][..0] == [];
    }
    OwnNone(a);
  }

  lemma OneToolOwn(bytes: nat, tool: string, a: Axis)
    ensures Own(OneTool(bytes, tool), a) == if Speaks(bytes, a, tool) then [ToolSignal(a)] else []
  {
    hide Own, IsInstrumentalityTool, IsWebTool, WritesMuch;
    var i, c, v := Speaks(bytes, Instrumentality, tool), Speaks(bytes, Curiosity, tool), Speaks(bytes, Verbosity, tool);
    var si := if i then [ToolSignal(Instrumentality)] else [];
    var sc := if c then [ToolSignal(Curiosity)] else [];
    var sv := if v then [ToolSignal(Verbosity)] else [];
    OwnAppend(si + sc, sv, a);
    OwnAppend(si, sc, a);
    OwnIf(ToolSignal(Instrumentality), i, a);
    OwnIf(ToolSignal(Curiosity), c, a);
    OwnIf(ToolSignal(Verbosity), v, a);
  }

  /** An axis hears the same signal once per speaking tool, however the set is walked. */
  lemma {:induction false} ToolsOwn(bytes: nat, order: seq<string>, a: Axis)
    ensures Own(ToolSignals(bytes, order), a) == Repeated(ToolSignal(a), |Speakers(bytes, a, order)|)
  {
    hide Own, OneTool, Speaks;
    if order == [] {
      OwnNone(a);
    } else {
      var front, last := order[..|order| - 1], order[|order| - 1];
      ToolsOwn(bytes, front, a);
      OwnAppend(ToolSignals(bytes, front), OneTool(bytes, last), a);
      OneToolOwn(bytes, last, a);
      FilterStep(order, |order| - 1, (tool: string) => Speaks(bytes, a, tool));
      assert order[..|order| - 1 + 1] == order;
    }
  }

  lemma SpeakersAreCounted(bytes: nat, p: seq<string>, q: seq<string>, a: Axis)
    requires Distinct(p) && Distinct(q) && Elems(p) == Elems(q)
    ensures |Speakers(bytes, a, p)| == |Speakers(bytes, a, q)|
  {
    hide Speaks;
    var speaks := (tool: string) => Speaks(bytes, a, tool);
    FilterDistinct(p, speaks);
    FilterDistinct(q, speaks);
    DistinctCardinality(Speakers(bytes, a, p));
    DistinctCardinality(Speakers(bytes, a, q));
    assert forall x :: (x in p <==> x in Elems(p)) && (x in q <==> x in Elems(q));
    assert Elems(Speakers(bytes, a, p)) == Elems(Speakers(bytes, a, q));
  }

  /** Every order of an episode's tool set leaves the engine in the same state and counts the
      same signals as applied, wherever the episode stands among other signals. */
  lemma ToolOrderIsIrrelevant(
    axes: Axes, ep: EpisodeFacts, parse: string -> Option<real>, p: seq<string>, q: seq<string>,
    before: seq<Signal>, after: seq<Signal>)
    requires Enumerates(p, ToolNames(ep)) && Enumerates(q, ToolNames(ep))
    ensures var inP := before + FromEpisode(ep, parse, p) + after;
            var inQ := before + FromEpisode(ep, parse, q) + after;
            Ingest(axes, inP) == Ingest(axes, inQ) && Applied(axes, inP) == Applied(axes, inQ)
  {
    hide Own, VitalsSignals, HintSignals, ToolSignals, OutcomeSignals, Ingest, Applied;
    if !EpisodicShouldProcess(ep) {
      return;
    }
    var inP := before + EpisodicSignals(ep, parse, p) + after;
    var inQ := before + EpisodicSignals(ep, parse, q) + after;
    forall a ensures Own(inP, a) == Own(inQ, a) {
      OwnInContext(ep, parse, p, before, after, a);
      OwnInContext(ep, parse, q, before, after, a);
      ToolsOwn(ep.bytes, p, a);
      ToolsOwn(ep.bytes, q, a);
      SpeakersAreCounted(ep.bytes, p, q, a);
    }
    OnlySubsequencesMatter(axes, inP, inQ);
  }

  lemma OwnInContext(
    ep: EpisodeFacts, parse: string -> Option<real>, order: seq<string>, before: seq<Signal>, after: seq<Signal>, a: Axis)
    ensures Own(before + EpisodicSignals(ep, parse, order) + after, a) ==
            Own(before, a)
            + (Own(VitalsSignals(ep), a) + Own(HintSignals(ep.hints, parse), a) + Own(ToolSignals(ep.bytes, order), a)
               + Own(OutcomeSignals(ep), a))
            + Own(after, a)
  {
    hide Own, VitalsSignals, HintSignals, ToolSignals, OutcomeSignals;
    var v, h, t, o := VitalsSignals(ep), HintSignals(ep.hints, parse), ToolSignals(ep.bytes, order), OutcomeSignals(ep);
    OwnAppend(before + (v + h + t + o), after, a);
    OwnAppend(before, v + h + t + o, a);
    OwnAppend(v + h + t, o, a);
    OwnAppend(v + h, t, a);
    OwnAppend(v, h, a);
  }

  // ---- What an episode says, signal by signal ----

  /** The trust reported, within [0, 1]; one half if none is. */
  ghost predicate Trusted(ep: EpisodeFacts, trust: real) {
    match ep.trust
    case None => trust == 0.5
    case Some(t) => trust == if t < 0.0 then 0.0 else if t > 1.0 then 1.0 else t
  }

  /** The signals of the vitals gate, each at most once: by gate, kind of phase and trust. */
  lemma VitalsExactly(ep: EpisodeFacts, trust: real, x: Signal)
    requires Trusted(ep, trust)
    ensures ep.gate == Some("pass") ==>
              multiset(VitalsSignals(ep))[x] ==
              if || (x == Signal(Systematicity, 0.7 + 0.3 * trust, 0.65) && PhaseKind(ep) in ["reasoning", "retrieval"])
                 || (x in [Signal(Curiosity, 0.65, 0.5), Signal(Verbosity, 0.6, 0.45)] && PhaseKind(ep) == "creative")
              then 1 else 0
    ensures ep.gate == Some("warn") ==>
              multiset(VitalsSignals(ep))[x] ==
              if || (x in [Signal(Curiosity, 0.55, 0.4), Signal(Systematicity, 0.2, 0.4)] && PhaseKind(ep) == "hallucination")
                 || (x == Signal(Systematicity, 0.5, 0.3) && PhaseKind(ep) == "refusal")
                 || (x == Signal(Persistence, 0.55, 0.4) && PhaseKind(ep) !in ["hallucination", "refusal"] && trust > 0.3)
              then 1 else 0
    ensures ep.gate == Some("fail") ==>
              multiset(VitalsSignals(ep))[x] ==
              if || x == Signal(Systematicity, 0.1, 0.5)
                 || (x == Signal(Persistence, 0.4, 0.3) && trust > 0.2)
              then 1 else 0
    ensures ep.gate !in [Some("pass"), Some("warn"), Some("fail")] ==> VitalsSignals(ep) == []
  {
    assert trust == Clamp(if ep.trust.Some? then ep.trust.value else 0.5);
    match ep.gate {
      case Some("pass") => PassVitals(ep, trust, x);
      case Some("warn") => WarnVitals(ep, trust, x);
      case Some("fail") => FailVitals(ep, trust, x);
      case _ =>
    }
    hide VitalsSignals, PhaseKind, Before;
  }

  lemma PassVitals(ep: EpisodeFacts, trust: real, x: Signal)
    requires ep.gate == Some("pass") && trust == Clamp(if ep.trust.Some? then ep.trust.value else 0.5)
    ensures multiset(VitalsSignals(ep))[x] ==
            if || (x == Signal(Systematicity, 0.7 + 0.3 * trust, 0.65) && PhaseKind(ep) in ["reasoning", "retrieval"])
               || (x in [Signal(Curiosity, 0.65, 0.5), Signal(Verbosity, 0.6, 0.45)] && PhaseKind(ep) == "creative")
            then 1 else 0
  {
    hide Before, Clamp;
  }

  lemma WarnVitals(ep: EpisodeFacts, trust: real, x: Signal)
    requires ep.gate == Some("warn") && trust == Clamp(if ep.trust.Some? then ep.trust.value else 0.5)
    ensures multiset(VitalsSignals(ep))[x] ==
            if || (x in [Signal(Curiosity, 0.55, 0.4), Signal(Systematicity, 0.2, 0.4)] && PhaseKind(ep) == "hallucination")
               || (x == Signal(Systematicity, 0.5, 0.3) && PhaseKind(ep) == "refusal")
               || (x == Signal(Persistence, 0.55, 0.4) && PhaseKind(ep) !in ["hallucination", "refusal"] && trust > 0.3)
            then 1 else 0
  {
    hide Before, Clamp;
  }

  lemma FailVitals(ep: EpisodeFacts, trust: real, x: Signal)
    requires ep.gate == Some("fail") && trust == Clamp(if ep.trust.Some? then ep.trust.value else 0.5)
    ensures multiset(VitalsSignals(ep))[x] ==
            if || x == Signal(Systematicity, 0.1, 0.5)
               || (x == Signal(Persistence, 0.4, 0.3) && trust > 0.2)
            then 1 else 0
  {
    hide Before, Clamp;
  }

  /** The signals of outcome and duration, each at most once. */
  lemma OutcomeExactly(ep: EpisodeFacts, x: Signal)
    ensures multiset(OutcomeSignals(ep))[x] ==
            if || (x == Signal(Systematicity, 0.6, 0.5) && ep.outcome == "success")
               || (x == Signal(Curiosity, 0.5, 0.5) && (ep.outcome == "retry" || ep.outcome == "error"))
               || (x == Signal(Persistence, 0.6, 0.4) && ep.durationMs > 5000)
            then 1 else 0
  {
  }

  /** A hint speaks iff it is an axis name, a colon and something that reads as a reward. */
  lemma HintExactly(hint: string, parse: string -> Option<real>, sig: Signal)
    ensures HintSignal(hint, parse) == Some(sig) <==>
            && sig.weight == 0.8
            && exists name, text ::
                 && hint == name + ":" + text && ':' !in name && ParseAxis(name) == Some(sig.axis)
                 && parse(Trim(text)).Some?
                 && var r := parse(Trim(text)).value;
                    sig.reward == if r < 0.0 then 0.0 else if r > 1.0 then 1.0 else r
  {
    hide ParseAxis, Trim;
    var name := Before(hint, ':');
    if |name| < |hint| {
      assert hint == name + ":" + hint[|name| + 1..];
    }
    forall n, text | hint == n + ":" + text && ':' !in n ensures n == name && |name| < |hint| && text == hint[|name| + 1..] {
      BeforeColon(n, text);
    }
  }

  lemma {:induction false} BeforeColon(name: string, text: string)
    requires ':' !in name
    ensures Before(name + ":" + text, ':') == name
  {
    var s := name + ":" + text;
    if name != "" {
      assert s[1..] == name[1..] + ":" + text;
      BeforeColon(name[1..], text);
    }
  }

  /** Hints speak in order, each for itself. */
  lemma HintsExactly(hints: seq<string>, last: string, parse: string -> Option<real>)
    ensures HintSignals([], parse) == []
    ensures HintSignals(hints + [last], parse) ==
            HintSignals(hints, parse) + match HintSignal(last, parse) case None => [] case Some(sig) => [sig]
  {
    hide HintSignal;
    assert (hints + [last])[..|hints|] == hints;
  }

  /** Tools speak by name, whatever its case. */
  lemma SpeaksExactly(bytes: nat, tool: string)
    ensures var n := Lower(tool);
            && (Speaks(bytes, Instrumentality, tool) <==>
                || n == "ainl" || Contains(n, "shell") || Contains(n, "cli") || Contains(n, "mcp")
                || Contains(n, "compile") || Contains(n, "ainl_"))
            && (Speaks(bytes, Curiosity, tool) <==>
                Contains(n, "web_search") || Contains(n, "web_fetch") || Contains(n, "web.fetch"))
            && (Speaks(bytes, Verbosity, tool) <==> Contains(n, "file_write") && bytes >= 4096)
            && !Speaks(bytes, Persistence, tool) && !Speaks(bytes, Systematicity, tool)
  {
    var n := Lower(tool);
    hide Lower, Contains;
    ContainsExactly(n, "compiler");
    ContainsExactly(n, "compile");
    if before, after :| n == before + "compiler" + after {
      assert "compiler" == "compile" + "r";
      assert n == before + "compile" + ("r" + after);
    }
  }

  /** Each axis hears one signal for each tool that speaks for it, and nothing else of tools. */
  lemma ToolsExactly(bytes: nat, order: seq<string>)
    ensures var sigs := ToolSignals(bytes, order);
            && Own(sigs, Instrumentality) ==
               Repeated(Signal(Instrumentality, 0.8, 0.6), |Filter(order, (t: string) => Speaks(bytes, Instrumentality, t))|)
            && Own(sigs, Curiosity) ==
               Repeated(Signal(Curiosity, 0.7, 0.5), |Filter(order, (t: string) => Speaks(bytes, Curiosity, t))|)
            && Own(sigs, Verbosity) ==
               Repeated(Signal(Verbosity, 0.6, 0.4), |Filter(order, (t: string) => Speaks(bytes, Verbosity, t))|)
            && Own(sigs, Persistence) == [] && Own(sigs, Systematicity) == []
  {
    hide Own, ToolSignals, IsInstrumentalityTool, IsWebTool, WritesMuch;
    ToolsOwn(bytes, order, Instrumentality);
    ToolsOwn(bytes, order, Curiosity);
    ToolsOwn(bytes, order, Verbosity);
    ToolsOwn(bytes, order, Persistence);
    ToolsOwn(bytes, order, Systematicity);
    SomethingIn(Speakers(bytes, Persistence, order));
    SomethingIn(Speakers(bytes, Systematicity, order));
  }

  /** A processed episode says what its vitals, hints, tools and outcome say; another nothing. */
  lemma EpisodeSays(ep: EpisodeFacts, parse: string -> Option<real>, order: seq<string>, x: Signal)
    ensures multiset(FromEpisode(ep, parse, order))[x] ==
            if ep.outcome == "success" || ep.hints != []
            then multiset(VitalsSignals(ep))[x] + multiset(HintSignals(ep.hints, parse))[x]
                 + multiset(ToolSignals(ep.bytes, order))[x] + multiset(OutcomeSignals(ep))[x]
            else 0
  {
    hide VitalsSignals, HintSignals, ToolSignals, OutcomeSignals;
  }

  // ---- Persona rows: a hash map of axis names to scores ----

  type Entry = (string, real)

  function Prior(e: Entry): seq<Signal> {
    var axis := ParseAxis(e.0);
    if axis.Some? then [Signal(axis.value, Clamp(e.1), 0.3)] else []
  }

  function PersonaPriors(entries: seq<Entry>): seq<Signal> {
    if entries == [] then [] else PersonaPriors(entries[..|entries| - 1]) + Prior(entries[|entries| - 1])
  }

  /** Names of one axis carry one score. */
  ghost predicate NamesAgree(entries: seq<Entry>) {
    forall i, j :: 0 <= i < j < |entries| && ParseAxis(entries[i].0).Some?
                   && ParseAxis(entries[i].0) == ParseAxis(entries[j].0) ==>
                     Clamp(entries[i].1) == Clamp(entries[j].1)
  }

  ghost predicate WalkOrderIrrelevant(axes: Axes, entries: seq<Entry>) {
    forall walk: seq<Entry> :: multiset(walk) == multiset(entries) ==>
                                 SameScores(Ingest(axes, PersonaPriors(walk)), Ingest(axes, PersonaPriors(entries)))
  }

  lemma {:induction false} PriorsAppend(p: seq<Entry>, q: seq<Entry>)
    ensures PersonaPriors(p + q) == PersonaPriors(p) + PersonaPriors(q)
  {
    hide Prior;
    if q == [] {
      assert p + q == p;
    } else {
      PriorsAppend(p, q[..|q| - 1]);
      assert (p + q)[..|p + q| - 1] == p + q[..|q| - 1];
    }
  }

  lemma PriorsOne(e: Entry)
    ensures PersonaPriors([e]) == Prior(e)
  {
    hide Prior;
    assert [e][..0] == [];
    assert PersonaPriors([]) == [];
  }

  lemma PriorsNone()
    ensures PersonaPriors([]) == []
  {
  }

  lemma PriorsAround(p: seq<Entry>, e: Entry, q: seq<Entry>)
    ensures PersonaPriors(p + [e] + q) == PersonaPriors(p) + Prior(e) + PersonaPriors(q)
  {
    PriorsAppend(p + [e], q);
    PriorsAppend(p, [e]);
    PriorsOne(e);
  }

  lemma RemoveFirst(p: seq<Entry>)
    requires p != []
    ensures p == [] + [p[0]] + p[1..] && multiset(p) == multiset{p[0]} + multiset(p[1..])
  {
    assert p == [p[0]] + p[1..];
  }

  lemma RemoveAt(q: seq<Entry>, i: nat)
    requires i < |q|
    ensures q == q[..i] + [q[i]] + q[i + 1..] && multiset(q) == multiset{q[i]} + multiset(q[..i] + q[i + 1..])
  {
    assert q == q[..i] + [q[i]] + q[i + 1..];
  }

  lemma Cancel(x: Entry, a: multiset<Entry>, b: multiset<Entry>)
    requires multiset{x} + a == multiset{x} + b
    ensures a == b
  {
    assert a == (multiset{x} + a) - multiset{x};
    assert b == (multiset{x} + b) - multiset{x};
  }

  /** Where the first element of `p` sits in a permutation of `p`. */
  lemma TakeOut(p: seq<Entry>, q: seq<Entry>) returns (i: nat)
    requires multiset(p) == multiset(q) && p != []
    ensures i < |q| && q == q[..i] + [p[0]] + q[i + 1..] && p == [] + [p[0]] + p[1..]
    ensures multiset(p[1..]) == multiset(q[..i] + q[i + 1..])
  {
    RemoveFirst(p);
    assert p[0] in multiset(q);
    i :| 0 <= i < |q| && q[i] == p[0];
    RemoveAt(q, i);
    Cancel(p[0], multiset(p[1..]), multiset(q[..i] + q[i + 1..]));
  }

  lemma {:induction false} PriorsPermute(p: seq<Entry>, q: seq<Entry>)
    requires multiset(p) == multiset(q)
    ensures multiset(PersonaPriors(p)) == multiset(PersonaPriors(q))
    decreases |p|
  {
    hide Prior, PersonaPriors;
    if p == [] {
      assert |multiset(q)| == 0;
      assert q == [];
    } else {
      var i := TakeOut(p, q);
      PriorsPermute(p[1..], q[..i] + q[i + 1..]);
      PriorsAround([], p[0], p[1..]);
      PriorsAround(q[..i], p[0], q[i + 1..]);
      PriorsAppend(q[..i], q[i + 1..]);
      PriorsNone();
      MultisetAround(Prior(p[0]), PersonaPriors(q[..i]), PersonaPriors(q[i + 1..]));
      MultisetAround(Prior(p[0]), [], PersonaPriors(p[1..]));
    }
  }

  lemma MultisetAround(mid: seq<Signal>, left: seq<Signal>, right: seq<Signal>)
    ensures multiset(left + mid + right) == multiset(left + right) + multiset(mid)
  {
  }

  lemma {:induction false} PriorsComeFromEntries(entries: seq<Entry>, k: nat) returns (i: nat)
    requires k < |PersonaPriors(entries)|
    ensures i < |entries| && Prior(entries[i]) == [PersonaPriors(entries)[k]]
    ensures |PersonaPriors(entries[..i])| == k
  {
    hide ParseAxis;
    var front, last := entries[..|entries| - 1], entries[|entries| - 1];
    if k < |PersonaPriors(front)| {
      i := PriorsComeFromEntries(front, k);
      assert front[..i] == entries[..i];
    } else {
      i := |entries| - 1;
    }
  }

  lemma PriorTarget(e: Entry)
    requires ParseAxis(e.0).Some?
    ensures Prior(e) == [Signal(ParseAxis(e.0).value, Clamp(e.1), 0.3)]
    ensures Target(Prior(e)[0]) == 0.3 * Clamp(e.1)
  {
    hide ParseAxis;
  }

  lemma NamesAgreeMeansAgree(entries: seq<Entry>)
    requires NamesAgree(entries)
    ensures Agree(PersonaPriors(entries))
  {
    hide PersonaPriors, Prior, Target, ParseAxis;
    var sigs := PersonaPriors(entries);
    forall k, l | 0 <= k < l < |sigs| && sigs[k].axis == sigs[l].axis ensures Target(sigs[k]) == Target(sigs[l]) {
      var i := PriorsComeFromEntries(entries, k);
      var j := PriorsComeFromEntries(entries, l);
      PriorIsNamed(entries[i]);
      PriorIsNamed(entries[j]);
      PriorTarget(entries[i]);
      PriorTarget(entries[j]);
    }
  }

  lemma PriorIsNamed(e: Entry)
    ensures Prior(e) != [] <==> ParseAxis(e.0).Some?
    ensures Prior(e) != [] ==> Prior(e)[0].axis == ParseAxis(e.0).value
  {
    hide ParseAxis;
  }

  /** Two names of one axis with different scores: walking the map the other way round, these
      two swapped, gives different scores. */
  lemma NamesDisagree(axes: Axes, entries: seq<Entry>, i: nat, j: nat) returns (walk: seq<Entry>)
    requires AllInRange(axes) && axes.Keys == ALL
    requires i < j < |entries| && ParseAxis(entries[i].0).Some? && ParseAxis(entries[i].0) == ParseAxis(entries[j].0)
    requires Clamp(entries[i].1) != Clamp(entries[j].1)
    ensures multiset(walk) == multiset(entries)
    ensures !SameScores(Ingest(axes, PersonaPriors(walk)), Ingest(axes, PersonaPriors(entries)))
  {
    hide PersonaPriors, Prior, Target, ParseAxis, Ingest, SameScores, Clamp, AllInRange;
    var x, y := entries[i], entries[j];
    var p, m, z := entries[..i], entries[i + 1..j], entries[j + 1..];
    assert entries == p + [x] + m + [y] + z;
    walk := p + [y] + m + [x] + z;
    PriorTarget(x);
    PriorTarget(y);
    var sx, sy := Prior(x)[0], Prior(y)[0];
    PriorsOfFive(p, x, m, y, z);
    PriorsOfFive(p, y, m, x, z);
    var sigs := PersonaPriors(entries);
    var k, l := |PersonaPriors(p)|, |PersonaPriors(p)| + 1 + |PersonaPriors(m)|;
    assert sigs == PersonaPriors(p) + [sx] + PersonaPriors(m) + [sy] + PersonaPriors(z);
    assert sigs[k] == sx && sigs[l] == sy;
    assert Swapped(sigs, k, l) == PersonaPriors(walk);
    assert sx.axis in axes by {
      EveryAxis(sx.axis);
    }
    DisagreementShows(axes, sigs, k, l);
  }

  lemma EveryAxis(a: Axis)
    ensures a in ALL
  {
  }

  lemma PriorsOfFive(p: seq<Entry>, x: Entry, m: seq<Entry>, y: Entry, z: seq<Entry>)
    ensures PersonaPriors(p + [x] + m + [y] + z) ==
            PersonaPriors(p) + Prior(x) + PersonaPriors(m) + Prior(y) + PersonaPriors(z)
  {
    hide PersonaPriors, Prior;
    PriorsAround(p + [x] + m, y, z);
    PriorsAround(p, x, m);
  }

  /** The walk over a persona row's axis map is order-free exactly when no two names of one
      axis disagree. `axis_scores` is keyed by name, and two names can mean one axis. */
  lemma PriorOrderIrrelevantIff(axes: Axes, entries: seq<Entry>)
    requires AllInRange(axes) && axes.Keys == ALL
    ensures WalkOrderIrrelevant(axes, entries) <==> NamesAgree(entries)
  {
    hide PersonaPriors, ParseAxis, Ingest, SameScores, Clamp, AllInRange, Agree;
    if NamesAgree(entries) {
      hide NamesAgree;
      NamesAgreeMeansAgree(entries);
      AgreementMakesOrderIrrelevant(axes, PersonaPriors(entries));
      forall walk: seq<Entry> | multiset(walk) == multiset(entries)
        ensures SameScores(Ingest(axes, PersonaPriors(walk)), Ingest(axes, PersonaPriors(entries)))
      {
        PriorsPermute(walk, entries);
      }
    } else {
      var i, j :| 0 <= i < j < |entries| && ParseAxis(entries[i].0).Some?
                  && ParseAxis(entries[i].0) == ParseAxis(entries[j].0) && Clamp(entries[i].1) != Clamp(entries[j].1);
      var walk := NamesDisagree(axes, entries, i, j);
    }
  }

  /** The condition can fail on a real row: both spellings of one axis are accepted. */
  lemma TwoSpellingsDisagree()
    ensures !NamesAgree([("Verbosity", 0.0), ("verbosity", 1.0)])
    ensures !WalkOrderIrrelevant(DefaultAxes(0.5), [("Verbosity", 0.0), ("verbosity", 1.0)])
  {
    hide Ingest, WalkOrderIrrelevant;
    var entries := [("Verbosity", 0.0), ("verbosity", 1.0)];
    assert ParseAxis("Verbosity") == Some(Verbosity) == ParseAxis("verbosity");
    assert entries[0].0 == "Verbosity" && entries[1].0 == "verbosity";
    PriorOrderIrrelevantIff(DefaultAxes(0.5), entries);
  }
}
