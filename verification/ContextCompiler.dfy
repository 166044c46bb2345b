/** `ContextCompiler::compose`: ranking, pinning, greedy budget fill, summary recall. */
module ContextCompiler {
  import opened Wrappers
  import opened Bounds
  import opened Text
  import opened Collections
  import opened Compression

  datatype Kind =
    | SystemPrompt | OlderTurn | RecentTurn | ToolDefinitions
    | ToolResult | UserPrompt | AnchoredSummaryRecall | MemoryBlock

  datatype Role = System | User | Assistant | Tool

  datatype Segment = Segment(
    kind: Kind, role: Role, content: string, ageIndex: nat, toolName: Option<string>, baseImportance: real)

  // ---- Budget ----

  datatype Policy = Policy(
    totalWindow: nat, systemPct: real, toolDefPct: real, userPromptPct: real,
    recentTurnsVerbatim: nat, softTotalCap: nat)

  /** A fraction of the window, cast to an unsigned integer. */
  function Reserve(p: Policy, pct: real): nat {
    Max((p.totalWindow as real * pct).Floor, 0)
  }

  function FlexibleBudget(p: Policy): nat {
    Max(Max(Max(p.totalWindow - Reserve(p, p.systemPct), 0) - Reserve(p, p.toolDefPct), 0)
        - Reserve(p, p.userPromptPct), 0)
  }

  /** Budget and reserves share out the window, unless the reserves take all of it. */
  lemma FlexibleBudgetExactly(p: Policy)
    ensures var w := p.totalWindow as real;
            var system := if w * p.systemPct < 0.0 then 0 else (w * p.systemPct).Floor;
            var tools := if w * p.toolDefPct < 0.0 then 0 else (w * p.toolDefPct).Floor;
            var user := if w * p.userPromptPct < 0.0 then 0 else (w * p.userPromptPct).Floor;
            if system + tools + user <= p.totalWindow
            then FlexibleBudget(p) + system + tools + user == p.totalWindow
            else FlexibleBudget(p) == 0
  {
    hide Reserve;
    ReserveIsCast(p, p.systemPct);
    ReserveIsCast(p, p.toolDefPct);
    ReserveIsCast(p, p.userPromptPct);
    SubtractInTurn(p, Reserve(p, p.systemPct), Reserve(p, p.toolDefPct), Reserve(p, p.userPromptPct));
  }

  lemma SubtractInTurn(p: Policy, a: nat, b: nat, c: nat)
    requires a == Reserve(p, p.systemPct) && b == Reserve(p, p.toolDefPct) && c == Reserve(p, p.userPromptPct)
    ensures FlexibleBudget(p) == if a + b + c <= p.totalWindow then p.totalWindow - a - b - c else 0
  {
    hide Reserve;
  }

  lemma ReserveIsCast(p: Policy, pct: real)
    ensures var x := p.totalWindow as real * pct;
            Reserve(p, pct) == if x < 0.0 then 0 else x.Floor
  {
  }

  // ---- Metrics ----

  datatype Row = Row(kind: Kind, original: nat, compressed: nat, dropped: bool)

  function SatAdd(a: nat, b: nat): nat {
    Min(a + b, U64_MAX)
  }

  class Metrics {
    var perSegment: seq<Row>
    var totalOriginal: nat
    var totalCompressed: nat
    var totalSaved: nat
    var savingsPct: real

    constructor ()
      ensures perSegment == [] && Accounted()
    {
      perSegment, totalOriginal, totalCompressed, totalSaved, savingsPct := [], 0, 0, 0, 0.0;
    }

    ghost predicate Accounted()
      reads this
    {
      && totalOriginal == SatSum(Originals(perSegment))
      && totalCompressed == SatSum(Compresseds(perSegment))
      && totalSaved == Max(totalOriginal - totalCompressed, 0)
      && savingsPct == Percentage(totalSaved, totalOriginal)
    }

    method RecordSegment(kind: Kind, original: nat, compressed: nat, dropped: bool)
      requires Accounted()
      modifies this
      ensures Accounted()
      ensures perSegment == old(perSegment) + [Row(kind, original, compressed, dropped)]
      ensures 0.0 <= savingsPct <= 100.0
    {
      SatSumSnoc(Originals(perSegment), original);
      SatSumSnoc(Compresseds(perSegment), compressed);
      perSegment := perSegment + [Row(kind, original, compressed, dropped)];
      assert Originals(perSegment) == Originals(old(perSegment)) + [original];
      assert Compresseds(perSegment) == Compresseds(old(perSegment)) + [compressed];
      totalOriginal := SatAdd(totalOriginal, original);
      totalCompressed := SatAdd(totalCompressed, compressed);
      totalSaved := Max(totalOriginal - totalCompressed, 0);
      savingsPct := Percentage(totalSaved, totalOriginal);
      SavingsAreAShare(totalOriginal, totalCompressed);
    }
  }

  function Percentage(part: nat, whole: nat): real {
    if whole == 0 then 0.0 else part as real * 100.0 / whole as real
  }

  lemma PercentageExactly(part: nat, whole: nat)
    ensures Percentage(part, 0) == 0.0
    ensures whole > 0 ==> Percentage(part, whole) * whole as real == 100.0 * part as real
  {
  }

  /** Savings are a share of the original: between nothing and all of it. */
  lemma SavingsAreAShare(original: nat, compressed: nat)
    ensures 0.0 <= Percentage(Max(original - compressed, 0), original) <= 100.0
  {
    var saved := Max(original - compressed, 0);
    if original > 0 {
      var s, o := saved as real, original as real;
      assert 0.0 <= s <= o && s * 100.0 / o <= o * 100.0 / o == 100.0;
    }
  }

  function Originals(rows: seq<Row>): seq<nat> {
    seq(|rows|, i requires 0 <= i < |rows| => rows[i].original)
  }

  function Compresseds(rows: seq<Row>): seq<nat> {
    seq(|rows|, i requires 0 <= i < |rows| => rows[i].compressed)
  }

  function Sum(xs: seq<nat>): nat {
    if xs == [] then 0 else Sum(xs[..|xs| - 1]) + xs[|xs| - 1]
  }

  function SatSum(xs: seq<nat>): nat {
    if xs == [] then 0 else SatAdd(SatSum(xs[..|xs| - 1]), xs[|xs| - 1])
  }

  lemma SatSumSnoc(xs: seq<nat>, x: nat)
    ensures SatSum(xs + [x]) == SatAdd(SatSum(xs), x)
  {
    assert (xs + [x])[..|xs|] == xs;
  }

  lemma {:induction false} SatSumIsCappedSum(xs: seq<nat>)
    ensures SatSum(xs) == Min(Sum(xs), U64_MAX)
  {
    if xs != [] {
      SatSumIsCappedSum(xs[..|xs| - 1]);
    }
  }

  lemma {:induction false} SumMonotone(xs: seq<nat>, ys: seq<nat>)
    requires |xs| == |ys| && forall i :: 0 <= i < |xs| ==> xs[i] <= ys[i]
    ensures Sum(xs) <= Sum(ys)
  {
    if xs != [] {
      SumMonotone(xs[..|xs| - 1], ys[..|ys| - 1]);
    }
  }

  /** If no row grew, the three totals are the plain sums and their difference: nothing
      saturates, as long as the originals themselves can be counted. */
  lemma TotalsAreExact(rows: seq<Row>, original: nat, compressed: nat, saved: nat)
    requires forall i :: 0 <= i < |rows| ==> rows[i].compressed <= rows[i].original
    requires original == SatSum(Originals(rows)) && compressed == SatSum(Compresseds(rows))
    requires saved == Max(original - compressed, 0)
    requires Sum(Originals(rows)) <= U64_MAX
    ensures original == Sum(Originals(rows)) && compressed == Sum(Compresseds(rows))
    ensures saved == Sum(Originals(rows)) - Sum(Compresseds(rows))
  {
    SatSumIsCappedSum(Originals(rows));
    SatSumIsCappedSum(Compresseds(rows));
    SumMonotone(Compresseds(rows), Originals(rows));
  }

  // ---- Ranking and pinning ----

  predicate Pinned(p: Policy, s: Segment) {
    || s.kind == SystemPrompt || s.kind == UserPrompt
    || (s.kind == RecentTurn && s.ageIndex < p.recentTurnsVerbatim % (U32_MAX + 1))
    || s.kind == ToolDefinitions
  }

  function PinnedAt(p: Policy, segs: seq<Segment>): nat -> bool {
    (i: nat) => i < |segs| && Pinned(p, segs[i])
  }

  function LooseAt(p: Policy, segs: seq<Segment>): nat -> bool {
    (i: nat) => i < |segs| && !Pinned(p, segs[i])
  }

  function Indices(n: nat): seq<nat> {
    seq(n, i => i)
  }

  /** Score order; with an embedding of the query, pinned ones first and the rest by similarity. */
  function Rank(p: Policy, segs: seq<Segment>, score: nat -> real, similarity: Option<nat -> real>): seq<nat> {
    var scored := SortDesc(Indices(|segs|), score);
    match similarity
    case None => scored
    case Some(sim) => Filter(scored, PinnedAt(p, segs)) + SortDesc(Filter(scored, LooseAt(p, segs)), sim)
  }

  function PinnedOrder(p: Policy, segs: seq<Segment>, rank: seq<nat>): seq<nat> {
    Filter(rank, PinnedAt(p, segs))
  }

  function LooseOrder(p: Policy, segs: seq<Segment>, rank: seq<nat>): seq<nat> {
    Filter(rank, LooseAt(p, segs))
  }

  // ---- Greedy fill ----

  /** The prose compressor of the compression crate, as far as compose can tell. */
  type Prose = (Mode, string, nat) -> string

  function ModeFor(k: Kind): Mode {
    match k
    case ToolResult => Aggressive
    case OlderTurn => Balanced
    case MemoryBlock => Balanced
    case AnchoredSummaryRecall => Balanced
    case RecentTurn => Balanced
    case _ => Off
  }

  function InMode(prose: Prose, mode: Mode): (r: (string, nat) -> string)
    ensures forall t, b :: r(t, b) == prose(mode, t, b)
  {
    (t: string, b: nat) => prose(mode, t, b)
  }

  function Form(s: Segment, prose: Prose): string {
    CompressedText(s.content, ModeFor(s.kind), InMode(prose, ModeFor(s.kind)))
  }

  lemma OffKeeps(text: string, prose: (string, nat) -> string)
    ensures CompressedText(text, Off, prose) == text
  {
  }

  /** What competes for the budget is compressed in earnest: tool results hardest. */
  lemma FormByKind(s: Segment, prose: Prose)
    returns (parts: seq<string>, budgets: seq<nat>, codes: seq<nat>)
    ensures s.kind in {SystemPrompt, UserPrompt, ToolDefinitions} ==> Form(s, prose) == s.content
    ensures CountsCode(Split(s.content), codes)
    ensures s.kind !in {SystemPrompt, UserPrompt, ToolDefinitions} ==>
              var mode := if s.kind == ToolResult then Aggressive else Balanced;
              var orig, result := Tokens(s.content), Trim(JoinParas(parts));
              var share := (orig as real * if s.kind == ToolResult then 0.35 else 0.55).Floor;
              var target := if share < orig / 4 then orig / 4 else share;
              && Emits(Split(s.content), InMode(prose, mode), parts, budgets)
              && budgets[0] == (if codes[0] < target then target - codes[0] else 0)
              && Form(s, prose) == if orig < 80 || Tokens(result) >= orig then s.content else result
  {
    hide CompressedText, Tokens, Split, Trim, JoinParas, Emits, CountsCode;
    var mode := if s.kind == ToolResult then Aggressive else Balanced;
    parts, budgets, codes := CompressExactly(s.content, mode, InMode(prose, mode));
    CountsAreNonEmpty(Split(s.content), InMode(prose, mode), codes, parts, budgets);
    OffKeeps(s.content, InMode(prose, Off));
  }

  function Cost(s: Segment, prose: Prose): nat {
    Tokens(Form(s, prose))
  }

  datatype Fill = Fill(kept: set<nat>, left: nat, summarise: seq<nat>, rows: seq<Row>)

  function FillStep(segs: seq<Segment>, prose: Prose, i: nat, f: Fill): Fill
    requires i < |segs|
  {
    var s := segs[i];
    var c := Cost(s, prose);
    if c <= f.left
    then Fill(f.kept + {i}, f.left - c, f.summarise, f.rows + [Row(s.kind, Tokens(s.content), c, false)])
    else Fill(f.kept, f.left, if s.kind == OlderTurn then f.summarise + [i] else f.summarise,
              f.rows + [Row(s.kind, Tokens(s.content), 0, true)])
  }

  function GreedyFill(segs: seq<Segment>, prose: Prose, order: seq<nat>, f: Fill): Fill
    requires IndicesBelow(order, |segs|)
    decreases |order|
  {
    if order == [] then f else GreedyFill(segs, prose, order[1..], FillStep(segs, prose, order[0], f))
  }

  function PinnedRows(segs: seq<Segment>, order: seq<nat>): seq<Row>
    requires IndicesBelow(order, |segs|)
  {
    seq(|order|, k requires 0 <= k < |order| =>
      Row(segs[order[k]].kind, Tokens(segs[order[k]].content), Tokens(segs[order[k]].content), false))
  }

  // ---- Summary recall ----

  datatype Section = Section(id: string, title: string, content: string)

  datatype Summary = Summary(sections: seq<Section>, tokenEstimate: nat, iteration: nat)

  const EMPTY_SUMMARY: Summary := Summary(
    [Section("intent", "Intent", ""), Section("decisions", "Decisions", ""),
     Section("files_touched", "Files touched", ""), Section("pending_tasks", "Pending tasks", ""),
     Section("current_state", "Current state", "")], 0, 0)

  predicate IsEmpty(s: Summary) {
    forall k :: 0 <= k < |s.sections| ==> IsBlank(s.sections[k].content)
  }

  function PromptText(sections: seq<Section>, out: string): string {
    if sections == [] then out
    else if IsBlank(sections[0].content) then PromptText(sections[1..], out)
    else PromptText(sections[1..],
                    (if out == "" then "" else out + "\n\n") + "## " + sections[0].title + "\n" + Trim(sections[0].content))
  }

  /** One section after the other: title and trimmed content, an empty line between two. */
  lemma {:induction false} PromptTextExactly(sections: seq<Section>, last: Section)
    ensures PromptText([], "") == ""
    ensures var before := PromptText(sections, "");
            PromptText(sections + [last], "") ==
            if Trim(last.content) == "" then before
            else (if before == "" then "" else before + "\n\n") + "## " + last.title + "\n" + Trim(last.content)
  {
    PromptTextSnoc(sections, last, "");
  }

  lemma {:induction false} PromptTextSnoc(sections: seq<Section>, last: Section, out: string)
    ensures var before := PromptText(sections, out);
            PromptText(sections + [last], out) ==
            if Trim(last.content) == "" then before
            else (if before == "" then "" else before + "\n\n") + "## " + last.title + "\n" + Trim(last.content)
  {
    hide Trim;
    var all := sections + [last];
    if sections == [] {
      assert all[1..] == [];
    } else {
      assert all[1..] == sections[1..] + [last];
      var next := if IsBlank(sections[0].content) then out
        else (if out == "" then "" else out + "\n\n") + "## " + sections[0].title + "\n" + Trim(sections[0].content);
      PromptTextSnoc(sections[1..], last, next);
    }
  }

  type Summarizer = (seq<Segment>, Summary) -> Option<Summary>

  function Pick(segs: seq<Segment>, order: seq<nat>): seq<Segment>
    requires IndicesBelow(order, |segs|)
  {
    seq(|order|, k requires 0 <= k < |order| => segs[order[k]])
  }

  /** The summarizer is asked once, and only when an older turn was dropped. */
  function NextSummary(summarizer: Option<Summarizer>, dropped: seq<Segment>, prior: Summary): Summary {
    if summarizer.None? || dropped == [] then prior
    else match summarizer.value(dropped, prior)
      case None => prior
      case Some(s) => s.(tokenEstimate := Tokens(PromptText(s.sections, "")), iteration := Min(s.iteration + 1, U32_MAX))
  }

  predicate IsHead(s: Segment) {
    s.kind == SystemPrompt || s.kind == MemoryBlock
  }

  function HeadLength(segs: seq<Segment>): (n: nat)
    ensures n <= |segs| && (forall j :: 0 <= j < n ==> IsHead(segs[j])) && (n < |segs| ==> !IsHead(segs[n]))
  {
    if segs == [] || !IsHead(segs[0]) then 0 else 1 + HeadLength(segs[1..])
  }

  function Recall(s: Summary): Segment {
    Segment(AnchoredSummaryRecall, System, PromptText(s.sections, ""), 0, None, 1.5)
  }

  function Inject(composed: seq<Segment>, s: Summary): seq<Segment> {
    if IsEmpty(s) then composed
    else composed[..HeadLength(composed)] + [Recall(s)] + composed[HeadLength(composed)..]
  }

  // ---- Assembly ----

  function KeepAt(p: Policy, segs: seq<Segment>, prose: Prose, kept: set<nat>, i: nat): Option<Segment>
    requires i < |segs|
  {
    if Pinned(p, segs[i]) then Some(segs[i])
    else if i in kept then Some(segs[i].(content := Form(segs[i], prose)))
    else None
  }

  function Keep(p: Policy, segs: seq<Segment>, prose: Prose, kept: set<nat>): seq<Option<Segment>> {
    seq(|segs|, i requires 0 <= i < |segs| => KeepAt(p, segs, prose, kept, i))
  }

  function Flatten(keep: seq<Option<Segment>>): seq<Segment> {
    if keep == [] then []
    else Flatten(keep[..|keep| - 1]) + (if keep[|keep| - 1].Some? then [keep[|keep| - 1].value] else [])
  }

  // ---- compose ----

  function FillOf(p: Policy, segs: seq<Segment>, prose: Prose, rank: seq<nat>): Fill
    requires IndicesBelow(rank, |segs|)
  {
    OrdersInRange(p, segs, rank);
    GreedyFill(segs, prose, LooseOrder(p, segs, rank),
               Fill({}, FlexibleBudget(p), [], PinnedRows(segs, PinnedOrder(p, segs, rank))))
  }

  lemma OrdersInRange(p: Policy, segs: seq<Segment>, rank: seq<nat>)
    requires IndicesBelow(rank, |segs|)
    ensures IndicesBelow(PinnedOrder(p, segs, rank), |segs|) && IndicesBelow(LooseOrder(p, segs, rank), |segs|)
  {
    forall k | 0 <= k < |PinnedOrder(p, segs, rank)| ensures PinnedOrder(p, segs, rank)[k] < |segs| {
      assert PinnedOrder(p, segs, rank)[k] in PinnedOrder(p, segs, rank);
    }
    forall k | 0 <= k < |LooseOrder(p, segs, rank)| ensures LooseOrder(p, segs, rank)[k] < |segs| {
      assert LooseOrder(p, segs, rank)[k] in LooseOrder(p, segs, rank);
    }
  }

  // ---- Ranking is a permutation ----

  lemma RankIsPermutation(p: Policy, segs: seq<Segment>, score: nat -> real, similarity: Option<nat -> real>)
    ensures var rank := Rank(p, segs, score, similarity);
            && Distinct(rank) && Elems(rank) == Elems(Indices(|segs|)) && IndicesBelow(rank, |segs|)
  {
    hide SortDesc, Filter;
    var scored := SortDesc(Indices(|segs|), score);
    var rank := Rank(p, segs, score, similarity);
    SortDescPermutes(Indices(|segs|), score);
    IndicesDistinct(|segs|);
    PermutationIsDistinct<nat>(Indices(|segs|), scored);
    if similarity.Some? {
      Rerank(p, segs, scored, similarity.value);
    }
    PermutationIsDistinct<nat>(scored, rank);
    forall k | 0 <= k < |rank| ensures rank[k] < |segs| {
      assert rank[k] in Elems<nat>(rank);
      assert rank[k] in Elems<nat>(Indices(|segs|));
    }
  }

  lemma IndicesDistinct(n: nat)
    ensures Distinct(Indices(n)) && forall i: nat :: i in Elems(Indices(n)) <==> i < n
  {
    forall i: nat | i < n ensures i in Elems(Indices(n)) {
      assert Indices(n)[i] == i;
    }
  }

  /** Putting pinned segments first and re-sorting the others permutes the order. */
  lemma Rerank(p: Policy, segs: seq<Segment>, scored: seq<nat>, sim: nat -> real)
    requires Elems(scored) == Elems(Indices(|segs|))
    ensures multiset(Filter(scored, PinnedAt(p, segs)) + SortDesc(Filter(scored, LooseAt(p, segs)), sim)) == multiset(scored)
  {
    hide SortDesc, Filter;
    var loose: seq<nat> := Filter(scored, LooseAt(p, segs));
    SortDescPermutes(loose, sim);
    IndicesDistinct(|segs|);
    forall i: nat | i in scored ensures i < |segs| {
      assert i in Elems(scored);
    }
    FilterSplits(scored, PinnedAt(p, segs), LooseAt(p, segs));
  }

  lemma {:induction false} FilterSplits(s: seq<nat>, a: nat -> bool, b: nat -> bool)
    requires forall x :: x in s ==> a(x) != b(x)
    ensures multiset(Filter(s, a)) + multiset(Filter(s, b)) == multiset(s)
  {
    if s != [] {
      FilterSplits(s[1..], a, b);
      assert s == [s[0]] + s[1..];
      assert s[0] in s;
    }
  }

  /** The competitors for the budget come best first: by similarity to the query where there is
      an embedding, then by score, then in input order. */
  lemma BestFirst(p: Policy, segs: seq<Segment>, score: nat -> real, similarity: Option<nat -> real>)
    ensures var order := LooseOrder(p, segs, Rank(p, segs, score, similarity));
            forall a, b :: 0 <= a < b < |order| ==>
              var i, j := order[a], order[b];
              || (similarity.Some? && similarity.value(i) > similarity.value(j))
              || ((similarity.Some? ==> similarity.value(i) == similarity.value(j))
                  && (score(i) > score(j) || (score(i) == score(j) && i < j)))
  {
    hide SortDesc, Filter, Pinned;
    var input := (i: nat, j: nat) => i < j;
    LooseIsOrdered(p, segs, score, similarity, input);
  }

  lemma LooseIsOrdered(p: Policy, segs: seq<Segment>, score: nat -> real, similarity: Option<nat -> real>,
                       tie: (nat, nat) -> bool)
    requires Ordered(Indices(|segs|), tie)
    ensures Ordered(LooseOrder(p, segs, Rank(p, segs, score, similarity)),
                    if similarity.Some? then ByKey(similarity.value, ByKey(score, tie)) else ByKey(score, tie))
  {
    hide SortDesc, Filter, Pinned, Ordered, ByKey;
    var scored := SortDesc(Indices(|segs|), score);
    SortDescIsStable(Indices(|segs|), score, tie);
    FilterOrdered(scored, LooseAt(p, segs), ByKey(score, tie));
    if similarity.Some? {
      var first: seq<nat> := Filter(scored, PinnedAt(p, segs));
      var rest := SortDesc(Filter(scored, LooseAt(p, segs)), similarity.value);
      SortDescIsStable(Filter(scored, LooseAt(p, segs)), similarity.value, ByKey(score, tie));
      FilterOrdered(rest, LooseAt(p, segs), ByKey(similarity.value, ByKey(score, tie)));
      FilterAppend(first, rest, LooseAt(p, segs));
      FilterAway(first, LooseAt(p, segs));
      assert Filter(first, LooseAt(p, segs)) + Filter(rest, LooseAt(p, segs)) == Filter(rest, LooseAt(p, segs));
    }
  }

  lemma FilterAway(s: seq<nat>, keep: nat -> bool)
    requires forall x :: x in s ==> !keep(x)
    ensures Filter(s, keep) == []
  {
    assert forall x :: x !in Filter(s, keep);
    SomethingIn(Filter(s, keep));
  }

  /** The two orders together list every segment exactly once. */
  lemma OrdersPartition(p: Policy, segs: seq<Segment>, rank: seq<nat>)
    requires Distinct(rank) && Elems(rank) == Elems(Indices(|segs|))
    ensures var a, b := PinnedOrder(p, segs, rank), LooseOrder(p, segs, rank);
            && Distinct(a) && Distinct(b)
            && (forall i: nat :: i in a <==> i < |segs| && Pinned(p, segs[i]))
            && (forall i: nat :: i in b <==> i < |segs| && !Pinned(p, segs[i]))
  {
    FilterDistinct(rank, PinnedAt(p, segs));
    FilterDistinct(rank, LooseAt(p, segs));
    forall i: nat ensures i in rank <==> i < |segs| {
      assert i in rank <==> i in Elems(rank);
      assert i < |segs| ==> Indices(|segs|)[i] == i;
    }
  }

  // ---- What the greedy fill guarantees ----

  /** Tokens spent on the kept segments of an order. */
  ghost function Spent(segs: seq<Segment>, prose: Prose, order: seq<nat>, kept: set<nat>): nat
    requires IndicesBelow(order, |segs|)
  {
    if order == [] then 0
    else (if order[0] in kept then Cost(segs[order[0]], prose) else 0) + Spent(segs, prose, order[1..], kept)
  }

  function RowOf(segs: seq<Segment>, prose: Prose, i: nat, kept: bool): Row
    requires i < |segs|
  {
    if kept then Row(segs[i].kind, Tokens(segs[i].content), Cost(segs[i], prose), false)
    else Row(segs[i].kind, Tokens(segs[i].content), 0, true)
  }

  ghost function RowsOf(segs: seq<Segment>, prose: Prose, order: seq<nat>, kept: set<nat>): seq<Row>
    requires IndicesBelow(order, |segs|)
  {
    seq(|order|, k requires 0 <= k < |order| => RowOf(segs, prose, order[k], order[k] in kept))
  }

  ghost function DroppedTurn(segs: seq<Segment>, kept: set<nat>): nat -> bool {
    (i: nat) => i < |segs| && segs[i].kind == OlderTurn && i !in kept
  }

  /** Budget: what is left plus what was spent on kept segments is what there was, and no
      dropped segment would fit in what is left. */
  lemma {:induction false} FillBudget(segs: seq<Segment>, prose: Prose, order: seq<nat>, f: Fill)
    requires IndicesBelow(order, |segs|) && Distinct(order) && Elems(order) !! f.kept
    ensures var r := GreedyFill(segs, prose, order, f);
            && f.kept <= r.kept <= f.kept + Elems(order)
            && r.left + Spent(segs, prose, order, r.kept) == f.left
            && (forall i :: i in Elems(order) - r.kept ==> i < |segs| && Cost(segs[i], prose) > r.left)
    decreases |order|
  {
    hide Cost;
    if order == [] {
    } else {
      DistinctTail(order);
      assert Elems(order) == {order[0]} + Elems(order[1..]);
      FillBudget(segs, prose, order[1..], FillStep(segs, prose, order[0], f));
    }
  }

  /** One competitor: it is kept iff it costs no more than what is left, and then what is left
      shrinks by its cost. */
  ghost predicate GreedyStep(s: Segment, prose: Prose, kept: bool, budget: nat, left: nat) {
    var cost := Tokens(Form(s, prose));
    if cost <= budget then kept && left == budget - cost else !kept && left == budget
  }

  ghost predicate Greedy(segs: seq<Segment>, prose: Prose, order: seq<nat>, kept: set<nat>, budgets: seq<nat>) {
    && |budgets| == |order| + 1 && IndicesBelow(order, |segs|)
    && forall k :: 0 <= k < |order| ==> GreedyStep(segs[order[k]], prose, order[k] in kept, budgets[k], budgets[k + 1])
  }

  lemma {:induction false} FillIsGreedy(segs: seq<Segment>, prose: Prose, order: seq<nat>, f: Fill) returns (budgets: seq<nat>)
    requires IndicesBelow(order, |segs|) && Distinct(order) && Elems(order) !! f.kept
    ensures var r := GreedyFill(segs, prose, order, f);
            && Greedy(segs, prose, order, r.kept, budgets)
            && |budgets| == |order| + 1 && budgets[0] == f.left && budgets[|order|] == r.left
    decreases |order|
  {
    hide Form, Tokens;
    if order == [] {
      budgets := [f.left];
    } else {
      DistinctTail(order);
      assert Elems(order) == {order[0]} + Elems(order[1..]);
      var next := FillStep(segs, prose, order[0], f);
      var later := FillIsGreedy(segs, prose, order[1..], next);
      FillBudget(segs, prose, order[1..], next);
      budgets := [f.left] + later;
      var kept := GreedyFill(segs, prose, order[1..], next).kept;
      assert order[0] in kept <==> order[0] in next.kept;
      assert GreedyStep(segs[order[0]], prose, order[0] in kept, f.left, next.left);
      forall k | 0 < k < |order| ensures GreedyStep(segs[order[k]], prose, order[k] in kept, budgets[k], budgets[k + 1]) {
        assert GreedyStep(segs[order[1..][k - 1]], prose, order[1..][k - 1] in kept, later[k - 1], later[k]);
      }
    }
  }

  /** Accounting: one row per segment, in order, and the segments handed to the summarizer
      are exactly the dropped older turns, in order. */
  lemma {:induction false} FillAccounts(segs: seq<Segment>, prose: Prose, order: seq<nat>, f: Fill)
    requires IndicesBelow(order, |segs|) && Distinct(order) && Elems(order) !! f.kept
    ensures var r := GreedyFill(segs, prose, order, f);
            && r.summarise == f.summarise + Filter(order, DroppedTurn(segs, r.kept))
            && r.rows == f.rows + RowsOf(segs, prose, order, r.kept)
    decreases |order|
  {
    hide Cost, FillStep, RowsOf, RowOf;
    if order == [] {
      assert RowsOf(segs, prose, order, f.kept) == [] by {
        NoRows(segs, prose, f.kept);
      }
    } else {
      var i := order[0];
      var next := FillStep(segs, prose, i, f);
      DistinctTail(order);
      assert Elems(order) == {i} + Elems(order[1..]);
      FillStepKept(segs, prose, i, f);
      FillAccounts(segs, prose, order[1..], next);
      FillBudget(segs, prose, order[1..], next);
      var r := GreedyFill(segs, prose, order[1..], next);
      assert i in r.kept <==> i in next.kept;
      RowsOfCons(segs, prose, order, r.kept);
      StepAccounts(segs, prose, i, f, order[1..], r.kept);
    }
  }

  lemma NoRows(segs: seq<Segment>, prose: Prose, kept: set<nat>)
    ensures RowsOf(segs, prose, [], kept) == []
  {
  }

  lemma FillStepKept(segs: seq<Segment>, prose: Prose, i: nat, f: Fill)
    requires i < |segs|
    ensures f.kept <= FillStep(segs, prose, i, f).kept <= f.kept + {i}
  {
  }

  lemma StepAccounts(segs: seq<Segment>, prose: Prose, i: nat, f: Fill, rest: seq<nat>, kept: set<nat>)
    requires i < |segs| && i !in f.kept && IndicesBelow(rest, |segs|)
    requires i in kept <==> i in FillStep(segs, prose, i, f).kept
    ensures var next := FillStep(segs, prose, i, f);
            var row := RowOf(segs, prose, i, i in kept);
            var later := Filter(rest, DroppedTurn(segs, kept));
            && next.rows + RowsOf(segs, prose, rest, kept) == f.rows + ([row] + RowsOf(segs, prose, rest, kept))
            && next.summarise + later == f.summarise + (if DroppedTurn(segs, kept)(i) then [i] + later else later)
  {
    hide Cost;
  }

  lemma RowsOfCons(segs: seq<Segment>, prose: Prose, order: seq<nat>, kept: set<nat>)
    requires order != [] && IndicesBelow(order, |segs|)
    ensures RowsOf(segs, prose, order, kept) ==
            [RowOf(segs, prose, order[0], order[0] in kept)] + RowsOf(segs, prose, order[1..], kept)
  {
    hide RowOf;
  }

  // ---- The composed prompt ----

  /** Kept positions in increasing order. */
  ghost function Positions(keep: seq<Option<Segment>>): seq<nat> {
    if keep == [] then []
    else Positions(keep[..|keep| - 1]) + (if keep[|keep| - 1].Some? then [|keep| - 1] else [])
  }

  /** Flattening keeps exactly the filled positions, in order. */
  lemma {:induction false} FlattenIsSubsequence(keep: seq<Option<Segment>>)
    ensures var at := Positions(keep);
            && |at| == |Flatten(keep)|
            && (forall j :: 0 <= j < |at| ==> at[j] < |keep| && keep[at[j]] == Some(Flatten(keep)[j]))
            && (forall j, k :: 0 <= j < k < |at| ==> at[j] < at[k])
            && (forall i :: 0 <= i < |keep| && keep[i].Some? ==> i in at)
  {
    if keep != [] {
      FlattenIsSubsequence(keep[..|keep| - 1]);
      var front := Positions(keep[..|keep| - 1]);
      forall i | 0 <= i < |keep| && keep[i].Some? ensures i in Positions(keep) {
        if i < |keep| - 1 {
          assert keep[..|keep| - 1][i].Some?;
          assert i in front;
        } else {
          assert Positions(keep)[|front|] == i;
        }
      }
    }
  }

  /** The recall goes behind a run of system and memory segments, so every turn follows it;
      taking it out again leaves the composed segments. */
  lemma RecallPrecedesTurns(composed: seq<Segment>, s: Summary)
    requires !IsEmpty(s)
    ensures var at := HeadLength(composed);
            var out := Inject(composed, s);
            && at < |out| && out[at] == Recall(s)
            && out[..at] + out[at + 1..] == composed
            && (forall j :: 0 <= j < at ==> out[j].kind == SystemPrompt || out[j].kind == MemoryBlock)
            && (forall j :: 0 <= j < |out| && (out[j].kind == OlderTurn || out[j].kind == RecentTurn) ==> at < j)
  {
    hide PromptText, IsEmpty, HeadLength;
    var at := HeadLength(composed);
    var out := Inject(composed, s);
    assert out[at + 1..] == composed[at..] && out[..at] == composed[..at];
    forall j | 0 <= j < at ensures IsHead(out[j]) {
      assert out[j] == composed[j];
    }
  }

  // ---- What a composition is ----

  /** Where things come from: `from[j]` is the place in the input of the j-th output segment,
      -1 for the recall; `order` lists those that compete for the budget, `kept` holds the ones
      that got some, `budgets` what was left before each; `listed` is the order of the rows. */
  datatype Trace = Trace(from: seq<int>, order: seq<nat>, kept: set<nat>, budgets: seq<nat>, listed: seq<nat>)

  ghost predicate Increasing(from: seq<int>) {
    forall j, k :: 0 <= j < k < |from| && from[j] >= 0 && from[k] >= 0 ==> from[j] < from[k]
  }

  ghost predicate ComesFrom(r: Segment, s: Segment, prose: Prose, competes: bool) {
    r == s.(content := if competes then Form(s, prose) else s.content)
  }

  /** All but competitors are there as they were, kept competitors compressed, in input order. */
  ghost predicate Assembled(segs: seq<Segment>, prose: Prose, out: seq<Segment>, t: Trace) {
    && |t.from| == |out|
    && (forall j :: 0 <= j < |t.from| ==> -1 <= t.from[j] < |segs|)
    && Increasing(t.from)
    && (forall j :: 0 <= j < |t.from| && t.from[j] >= 0 ==> ComesFrom(out[j], segs[t.from[j]], prose, t.from[j] in t.order))
    && (forall i :: 0 <= i < |segs| ==> (i in t.from <==> i !in t.order || i in t.kept))
  }

  /** One recall, if the summary says anything: behind system and memory segments. */
  ghost predicate Recalled(s: Summary, out: seq<Segment>, t: Trace) {
    && |t.from| == |out|
    && (-1 in t.from <==> exists k :: 0 <= k < |s.sections| && Trim(s.sections[k].content) != "")
    && forall j :: 0 <= j < |out| && t.from[j] == -1 ==>
         && out[j] == Segment(AnchoredSummaryRecall, System, PromptText(s.sections, ""), 0, None, 1.5)
         && (forall k :: 0 <= k < |out| && k != j ==> t.from[k] != -1)
         && (forall k :: 0 <= k < j ==> out[k].kind in {SystemPrompt, MemoryBlock})
         && (j + 1 < |out| ==> out[j + 1].kind !in {SystemPrompt, MemoryBlock})
  }

  /** Each segment has one row: its tokens before and after, or that it was dropped. */
  ghost predicate Recorded(segs: seq<Segment>, prose: Prose, rows: seq<Row>, t: Trace) {
    && |rows| == |t.listed| == |segs| && Distinct(t.listed) && IndicesBelow(t.listed, |segs|)
    && forall k :: 0 <= k < |rows| ==>
         var i := t.listed[k];
         rows[k] == if i !in t.order then Row(segs[i].kind, Tokens(segs[i].content), Tokens(segs[i].content), false)
                    else if i in t.kept then Row(segs[i].kind, Tokens(segs[i].content), Tokens(Form(segs[i], prose)), false)
                    else Row(segs[i].kind, Tokens(segs[i].content), 0, true)
  }

  /** What `compose` promises of its output, in terms of its input. */
  ghost predicate Composition(p: Policy, segs: seq<Segment>, score: nat -> real, similarity: Option<nat -> real>,
                              prose: Prose, s: Summary, out: seq<Segment>, rows: seq<Row>, t: Trace)
  {
    && Distinct(t.order)
    && (forall i: nat :: i in t.order <==>
          && i < |segs| && segs[i].kind !in {SystemPrompt, UserPrompt, ToolDefinitions}
          && (segs[i].kind == RecentTurn ==> segs[i].ageIndex >= p.recentTurnsVerbatim % 0x1_0000_0000))
    && (forall a, b :: 0 <= a < b < |t.order| ==>
          var i, j := t.order[a], t.order[b];
          || (similarity.Some? && similarity.value(i) > similarity.value(j))
          || ((similarity.Some? ==> similarity.value(i) == similarity.value(j))
              && (score(i) > score(j) || (score(i) == score(j) && i < j))))
    && Greedy(segs, prose, t.order, t.kept, t.budgets) && t.budgets[0] == FlexibleBudget(p)
    && Assembled(segs, prose, out, t) && Recalled(s, out, t) && Recorded(segs, prose, rows, t)
  }

  lemma KeepAssembles(p: Policy, segs: seq<Segment>, prose: Prose, t: Trace)
    requires forall i: nat :: i in t.order <==> i < |segs| && !Pinned(p, segs[i])
    requires t.from == Positions(Keep(p, segs, prose, t.kept))
    ensures Assembled(segs, prose, Flatten(Keep(p, segs, prose, t.kept)), t)
  {
    hide Pinned, Form;
    var keep := Keep(p, segs, prose, t.kept);
    FlattenIsSubsequence(keep);
    forall i | 0 <= i < |segs| ensures i in t.from <==> i !in t.order || i in t.kept {
      assert keep[i].Some? <==> i !in t.order || i in t.kept;
    }
  }

  /** With the recall put in, everything else keeps its place of origin. */
  lemma InjectAssembles(segs: seq<Segment>, prose: Prose, composed: seq<Segment>, s: Summary, t: Trace) returns (from: seq<int>)
    requires Assembled(segs, prose, composed, t) && -1 !in t.from
    ensures Assembled(segs, prose, Inject(composed, s), t.(from := from))
    ensures Recalled(s, Inject(composed, s), t.(from := from))
  {
    hide Form, PromptText, HeadLength, Assembled, Recalled;
    LengthsMatch(segs, prose, composed, t);
    if IsEmpty(s) {
      from := t.from;
      NoRecall(composed, s, t);
    } else {
      var h := HeadLength(composed);
      from := t.from[..h] + [-1] + t.from[h..];
      InsertIsInserted(composed, h, Recall(s));
      InsertIsInserted<int>(t.from, h, -1);
      InsertAssembles(segs, prose, composed, Recall(s), h, Inject(composed, s), from, t);
      InsertRecalls(composed, s, h, Inject(composed, s), t.(from := from), t.from);
    }
  }

  lemma LengthsMatch(segs: seq<Segment>, prose: Prose, composed: seq<Segment>, t: Trace)
    requires Assembled(segs, prose, composed, t)
    ensures |t.from| == |composed|
  {
  }

  lemma NoRecall(composed: seq<Segment>, s: Summary, t: Trace)
    requires IsEmpty(s) && -1 !in t.from && |t.from| == |composed|
    ensures Recalled(s, composed, t)
  {
  }

  lemma InsertIncreases(before: seq<int>, h: nat, from: seq<int>)
    requires Increasing(before) && Inserted(before, h, -1, from)
    ensures Increasing(from)
  {
    forall j, k | 0 <= j < k < |from| && from[j] >= 0 && from[k] >= 0 ensures from[j] < from[k] {
      var a, b := if j < h then j else j - 1, if k < h then k else k - 1;
      assert from[j] == before[a] && from[k] == before[b];
    }
  }

  lemma InsertAssembles(segs: seq<Segment>, prose: Prose, composed: seq<Segment>, x: Segment, h: nat,
                        out: seq<Segment>, from: seq<int>, t: Trace)
    requires Assembled(segs, prose, composed, t) && -1 !in t.from
    requires Inserted(composed, h, x, out) && Inserted(t.from, h, -1, from)
    ensures Assembled(segs, prose, out, t.(from := from))
  {
    hide ComesFrom, Increasing;
    InsertIncreases(t.from, h, from);
    forall j | 0 <= j < |from| && from[j] >= 0 ensures ComesFrom(out[j], segs[from[j]], prose, from[j] in t.order) {
      var a := if j < h then j else j - 1;
      assert from[j] == t.from[a] && out[j] == composed[a];
    }
  }

  lemma InsertRecalls(composed: seq<Segment>, s: Summary, h: nat, out: seq<Segment>, t: Trace, before: seq<int>)
    requires !IsEmpty(s) && h == HeadLength(composed) && |before| == |composed| && -1 !in before
    requires Inserted(composed, h, Recall(s), out) && Inserted(before, h, -1, t.from)
    ensures Recalled(s, out, t)
  {
    hide PromptText, HeadLength;
    forall k | 0 <= k < h ensures IsHead(out[k]) {
      assert out[k] == composed[k];
    }
  }

  /** Every composition is as described, whatever the inputs. */
  lemma ComposeExactly(p: Policy, segs: seq<Segment>, score: nat -> real, similarity: Option<nat -> real>,
                       prose: Prose, s: Summary)
    returns (t: Trace)
    ensures IndicesBelow(Rank(p, segs, score, similarity), |segs|)
    ensures var fill := FillOf(p, segs, prose, Rank(p, segs, score, similarity));
            && Composition(p, segs, score, similarity, prose, s,
                           Inject(Flatten(Keep(p, segs, prose, fill.kept)), s), fill.rows, t)
            && fill.summarise == Filter(t.order, DroppedTurn(segs, t.kept)) && IndicesBelow(fill.summarise, |segs|)
  {
    hide Rank, GreedyFill, Tokens, CompressedText, FlexibleBudget, Form, Filter, PinnedOrder, LooseOrder, Keep, Flatten, Inject,
      Assembled, Recalled, Recorded, Greedy, RowsOf, PinnedRows;
    var rank := Rank(p, segs, score, similarity);
    RankIsPermutation(p, segs, score, similarity);
    OrdersInRange(p, segs, rank);
    OrdersPartition(p, segs, rank);
    BestFirst(p, segs, score, similarity);
    OrdersCount(p, segs, rank);
    ComposeAccountsForEverySegment(p, segs, score, similarity, prose);
    var pinned, loose := PinnedOrder(p, segs, rank), LooseOrder(p, segs, rank);
    var fill := FillOf(p, segs, prose, rank);
    var budgets := FillIsGreedy(segs, prose, loose, Fill({}, FlexibleBudget(p), [], PinnedRows(segs, pinned)));
    var keep := Keep(p, segs, prose, fill.kept);
    forall k | 0 <= k < |fill.summarise| ensures fill.summarise[k] < |segs| {
      assert fill.summarise[k] in fill.summarise;
    }
    t := Trace(Positions(keep), loose, fill.kept, budgets, pinned + loose);
    KeepAssembles(p, segs, prose, t);
    var from := InjectAssembles(segs, prose, Flatten(keep), s, t);
    t := t.(from := from);
    RowsAreRecorded(segs, prose, pinned, t);
  }

  lemma RowsAreRecorded(segs: seq<Segment>, prose: Prose, pinned: seq<nat>, t: Trace)
    requires IndicesBelow(pinned, |segs|) && IndicesBelow(t.order, |segs|) && t.listed == pinned + t.order
    requires Distinct(pinned) && Distinct(t.order) && |pinned| + |t.order| == |segs|
    requires forall i :: i in pinned ==> i !in t.order
    ensures Recorded(segs, prose, PinnedRows(segs, pinned) + RowsOf(segs, prose, t.order, t.kept), t)
  {
    hide Tokens, Form;
    DistinctConcat<nat>(pinned, t.order);
  }

  /** Pinned segments are kept as they are and cost the flexible budget nothing. */
  method KeepPinned(p: Policy, segs: seq<Segment>, ghost prose: Prose, pinned: seq<nat>, m: Metrics)
    returns (keep: seq<Option<Segment>>)
    requires IndicesBelow(pinned, |segs|) && forall i: nat :: i in pinned <==> i < |segs| && Pinned(p, segs[i])
    requires m.Accounted() && m.perSegment == []
    modifies m
    ensures keep == Keep(p, segs, prose, {})
    ensures m.Accounted() && m.perSegment == PinnedRows(segs, pinned)
  {
    hide Tokens, Pinned, SatSum;
    keep := seq(|segs|, i => None);
    for k := 0 to |pinned|
      invariant |keep| == |segs|
      invariant forall i: nat :: i < |segs| ==> keep[i] == if i in pinned[..k] then Some(segs[i]) else None
      invariant m.Accounted() && m.perSegment == PinnedRows(segs, pinned[..k])
    {
      var idx := pinned[k];
      var tokens := Tokens(segs[idx].content);
      assert pinned[..k + 1] == pinned[..k] + [idx];
      keep := keep[idx := Some(segs[idx])];
      m.RecordSegment(segs[idx].kind, tokens, tokens, false);
    }
    assert pinned[..|pinned|] == pinned;
  }

  method CompressFor(s: Segment, prose: Prose) returns (text: string)
    ensures text == Form(s, prose)
  {
    var mode := ModeFor(s.kind);
    if mode == Off {
      text := s.content;
    } else {
      var c := Compress(s.content, mode, InMode(prose, mode));
      text := c.text;
    }
  }

  /** The other segments in rank order, each compressed first, while the budget lasts. */
  method FillBudgeted(p: Policy, segs: seq<Segment>, prose: Prose, loose: seq<nat>, start: seq<Option<Segment>>, m: Metrics)
    returns (keep: seq<Option<Segment>>, dropped: seq<nat>)
    requires IndicesBelow(loose, |segs|) && forall k :: 0 <= k < |loose| ==> !Pinned(p, segs[loose[k]])
    requires m.Accounted() && start == Keep(p, segs, prose, {})
    modifies m
    ensures var fill := GreedyFill(segs, prose, loose, Fill({}, FlexibleBudget(p), [], old(m.perSegment)));
            && keep == Keep(p, segs, prose, fill.kept) && dropped == fill.summarise && m.perSegment == fill.rows
    ensures m.Accounted() && IndicesBelow(dropped, |segs|)
  {
    hide Tokens, Pinned, SatSum, Form, FlexibleBudget;
    keep, dropped := start, [];
    var budget := FlexibleBudget(p);
    ghost var kept: set<nat> := {};
    ghost var initial := Fill({}, budget, [], m.perSegment);
    assert loose[0..] == loose;
    for k := 0 to |loose|
      invariant m.Accounted() && IndicesBelow(dropped, |segs|)
      invariant keep == Keep(p, segs, prose, kept)
      invariant IndicesBelow(loose[k..], |segs|)
      invariant GreedyFill(segs, prose, loose, initial) ==
                GreedyFill(segs, prose, loose[k..], Fill(kept, budget, dropped, m.perSegment))
    {
      var idx := loose[k];
      var s := segs[idx];
      assert loose[k..][0] == idx && loose[k..][1..] == loose[k + 1..];
      var text := CompressFor(s, prose);
      var cost := Tokens(text);
      var original := Tokens(s.content);
      if cost <= budget {
        keep := keep[idx := Some(s.(content := text))];
        kept := kept + {idx};
        budget := budget - cost;
        m.RecordSegment(s.kind, original, cost, false);
      } else {
        if s.kind == OlderTurn {
          dropped := dropped + [idx];
        }
        m.RecordSegment(s.kind, original, 0, true);
      }
    }
  }

  method Compose(p: Policy, segs: seq<Segment>, score: nat -> real, similarity: Option<nat -> real>, prose: Prose,
                 summarizer: Option<Summarizer>, existing: Option<Summary>)
    returns (out: seq<Segment>, summary: Summary, metrics: Metrics, ghost t: Trace)
    ensures Composition(p, segs, score, similarity, prose, summary, out, metrics.perSegment, t)
    ensures forall i ::
              (&& 0 <= i < |segs|
               && (|| segs[i].kind in {SystemPrompt, UserPrompt, ToolDefinitions}
                   || (segs[i].kind == RecentTurn && segs[i].ageIndex < p.recentTurnsVerbatim <= U32_MAX))) ==>
              exists j :: 0 <= j < |out| && t.from[j] == i && out[j] == segs[i]
    ensures var dropped := Filter(t.order, DroppedTurn(segs, t.kept));
            var prior := if existing.Some? then existing.value else EMPTY_SUMMARY;
            && IndicesBelow(dropped, |segs|)
            && summary ==
               if summarizer.None? || dropped == [] || summarizer.value(Pick(segs, dropped), prior).None? then prior
               else
                 var s := summarizer.value(Pick(segs, dropped), prior).value;
                 Summary(s.sections, Tokens(PromptText(s.sections, "")), Min(s.iteration + 1, U32_MAX))
    ensures fresh(metrics) && metrics.Accounted()
    ensures Sum(Originals(metrics.perSegment)) <= U64_MAX ==>
              metrics.totalSaved == Sum(Originals(metrics.perSegment)) - Sum(Compresseds(metrics.perSegment))
  {
    hide Sum, SatSum, Pinned, Rank, GreedyFill, Composition, Filter, PromptText, Tokens;
    var rank := Rank(p, segs, score, similarity);
    RankIsPermutation(p, segs, score, similarity);
    OrdersInRange(p, segs, rank);
    var pinned, loose := PinnedOrder(p, segs, rank), LooseOrder(p, segs, rank);
    metrics := new Metrics();
    OrdersPartition(p, segs, rank);
    var keep := KeepPinned(p, segs, prose, pinned, metrics);
    var dropped: seq<nat>;
    forall k | 0 <= k < |loose| ensures !Pinned(p, segs[loose[k]]) {
      assert loose[k] in loose;
    }
    keep, dropped := FillBudgeted(p, segs, prose, loose, keep, metrics);
    var prior := if existing.Some? then existing.value else EMPTY_SUMMARY;
    summary := NextSummary(summarizer, Pick(segs, dropped), prior);
    out := Inject(Flatten(keep), summary);
    ComposeAccountsForEverySegment(p, segs, score, similarity, prose);
    if Sum(Originals(metrics.perSegment)) <= U64_MAX {
      TotalsAreExact(metrics.perSegment, metrics.totalOriginal, metrics.totalCompressed, metrics.totalSaved);
    }
    t := ComposeExactly(p, segs, score, similarity, prose, summary);
    VerbatimSegments(p, segs, score, similarity, prose, summary, out, metrics.perSegment, t);
  }

  /** System prompts, user prompts, tool definitions and the most recent turns are there
      verbatim, however small the budget. */
  lemma VerbatimSegments(p: Policy, segs: seq<Segment>, score: nat -> real, similarity: Option<nat -> real>,
                         prose: Prose, s: Summary, out: seq<Segment>, rows: seq<Row>, t: Trace)
    requires Composition(p, segs, score, similarity, prose, s, out, rows, t)
    ensures |t.from| == |out|
    ensures forall i ::
              (&& 0 <= i < |segs|
               && (|| segs[i].kind in {SystemPrompt, UserPrompt, ToolDefinitions}
                   || (segs[i].kind == RecentTurn && segs[i].ageIndex < p.recentTurnsVerbatim <= U32_MAX))) ==>
              exists j :: 0 <= j < |out| && t.from[j] == i && out[j] == segs[i]
  {
    hide Recalled, Recorded, Greedy, Form;
    forall i | 0 <= i < |segs| &&
      (segs[i].kind in {SystemPrompt, UserPrompt, ToolDefinitions}
       || (segs[i].kind == RecentTurn && segs[i].ageIndex < p.recentTurnsVerbatim <= U32_MAX))
      ensures exists j :: 0 <= j < |out| && t.from[j] == i && out[j] == segs[i]
    {
      assert i !in t.order && i in t.from;
    }
  }

  // ---- Main results about compose ----

  /** Unpinned segments never cost more than the flexible budget; what is not spent is left
      over; and the selection is maximal: no dropped segment's compressed form fits in it. */
  lemma ComposeRespectsBudget(p: Policy, segs: seq<Segment>, score: nat -> real, similarity: Option<nat -> real>, prose: Prose)
    ensures var rank := Rank(p, segs, score, similarity);
            && IndicesBelow(rank, |segs|) && IndicesBelow(LooseOrder(p, segs, rank), |segs|)
            && var fill := FillOf(p, segs, prose, rank);
               && (forall i :: i in fill.kept ==> i < |segs| && !Pinned(p, segs[i]))
               && Spent(segs, prose, LooseOrder(p, segs, rank), fill.kept) + fill.left == FlexibleBudget(p)
               && (forall i: nat :: i < |segs| && !Pinned(p, segs[i]) && i !in fill.kept ==>
                     Cost(segs[i], prose) > fill.left)
  {
    hide Cost, Pinned, Rank, FlexibleBudget, GreedyFill;
    var rank := Rank(p, segs, score, similarity);
    RankIsPermutation(p, segs, score, similarity);
    OrdersInRange(p, segs, rank);
    OrdersPartition(p, segs, rank);
    var loose := LooseOrder(p, segs, rank);
    FillBudget(segs, prose, loose, Fill({}, FlexibleBudget(p), [], PinnedRows(segs, PinnedOrder(p, segs, rank))));
    assert forall i: nat :: i in loose ==> i in Elems<nat>(loose);
  }

  /** Every input segment is recorded exactly once, no row reports growth, and the
      summarizer is given exactly the dropped older turns, in rank order. */
  lemma ComposeAccountsForEverySegment(p: Policy, segs: seq<Segment>, score: nat -> real,
                                       similarity: Option<nat -> real>, prose: Prose)
    ensures var rank := Rank(p, segs, score, similarity);
            && IndicesBelow(rank, |segs|)
            && var pinned, loose := PinnedOrder(p, segs, rank), LooseOrder(p, segs, rank);
               && IndicesBelow(pinned, |segs|) && IndicesBelow(loose, |segs|)
               && var fill := FillOf(p, segs, prose, rank);
                  && fill.rows == PinnedRows(segs, pinned) + RowsOf(segs, prose, loose, fill.kept)
                  && |fill.rows| == |segs|
                  && (forall k :: 0 <= k < |fill.rows| ==> fill.rows[k].compressed <= fill.rows[k].original)
                  && fill.summarise == Filter(loose, DroppedTurn(segs, fill.kept))
                  && (forall i: nat :: i in fill.summarise <==> i < |segs| && segs[i].kind == OlderTurn && i !in fill.kept)
  {
    hide Rank, FlexibleBudget, GreedyFill, Tokens, CompressedText;
    var rank := Rank(p, segs, score, similarity);
    RankIsPermutation(p, segs, score, similarity);
    OrdersInRange(p, segs, rank);
    OrdersPartition(p, segs, rank);
    var pinned, loose := PinnedOrder(p, segs, rank), LooseOrder(p, segs, rank);
    var start := Fill({}, FlexibleBudget(p), [], PinnedRows(segs, pinned));
    FillAccounts(segs, prose, loose, start);
    OrdersCount(p, segs, rank);
    var fill := FillOf(p, segs, prose, rank);
    RowsNeverGrow(segs, prose, pinned, loose, fill.kept);
  }

  lemma OrdersCount(p: Policy, segs: seq<Segment>, rank: seq<nat>)
    requires Distinct(rank) && Elems(rank) == Elems(Indices(|segs|))
    ensures |PinnedOrder(p, segs, rank)| + |LooseOrder(p, segs, rank)| == |segs|
  {
    hide Pinned;
    IndicesDistinct(|segs|);
    forall i: nat | i in rank ensures i < |segs| {
      assert i in Elems<nat>(rank);
    }
    FilterSplits(rank, PinnedAt(p, segs), LooseAt(p, segs));
    assert |multiset(rank)| == |rank|;
    DistinctCardinality<nat>(rank);
    DistinctCardinality<nat>(Indices(|segs|));
    assert Elems<nat>(rank) == Elems<nat>(Indices(|segs|));
    var a, b := PinnedOrder(p, segs, rank), LooseOrder(p, segs, rank);
    assert |multiset(a)| == |a| && |multiset(b)| == |b|;
  }

  lemma RowsNeverGrow(segs: seq<Segment>, prose: Prose, pinned: seq<nat>, loose: seq<nat>, kept: set<nat>)
    requires IndicesBelow(pinned, |segs|) && IndicesBelow(loose, |segs|)
    ensures var rows := PinnedRows(segs, pinned) + RowsOf(segs, prose, loose, kept);
            forall k :: 0 <= k < |rows| ==> rows[k].compressed <= rows[k].original
  {
    hide Tokens;
  }

  /** Without the recall, the output is the input with some segments left out: positions
      increase, every pinned segment is there verbatim, and any other kept one differs at
      most in its content, which is its compressed form.  The ranking decides only which
      ones are there. */
  lemma ComposeKeepsOrder(p: Policy, segs: seq<Segment>, prose: Prose, kept: set<nat>)
    ensures var keep := Keep(p, segs, prose, kept);
            var composed, at := Flatten(keep), Positions(keep);
            && |at| == |composed|
            && (forall j, k :: 0 <= j < k < |at| ==> at[j] < at[k] < |segs|)
            && (forall j :: 0 <= j < |at| ==>
                  && at[j] < |segs|
                  && composed[j] == segs[at[j]].(content := composed[j].content)
                  && (Pinned(p, segs[at[j]]) ==> composed[j] == segs[at[j]])
                  && (!Pinned(p, segs[at[j]]) ==> at[j] in kept && composed[j].content == Form(segs[at[j]], prose)))
            && (forall i :: 0 <= i < |segs| && (Pinned(p, segs[i]) || i in kept) ==> i in at)
  {
    hide Pinned, Form;
    FlattenIsSubsequence(Keep(p, segs, prose, kept));
  }
}
