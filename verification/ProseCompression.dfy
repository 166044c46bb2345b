/** Prose compression: which sentences stay, and how the kept text is tidied. */
module ProseCompression {
  import opened Collections
  import opened Compression

  /** Score of a sentence that must stay; every ordinary score is below it. */
  const F32_MAX: real := 340282346638528859811704183484516925440.0

  // ---- Selection ----

  datatype Choice = Choice(kept: set<nat>, used: nat)

  predicate MustStay(score: nat -> real, i: nat) {
    score(i) == F32_MAX
  }

  /** Take sentences in rank order, must-stay ones always, others while they fit. */
  function Choose(sents: seq<string>, score: nat -> real, budget: nat, order: seq<nat>, c: Choice): Choice
    requires IndicesBelow(order, |sents|)
    decreases |order|
  {
    if order == [] then c
    else
      var i := order[0];
      var next := if MustStay(score, i) || c.used + Tokens(sents[i]) <= budget
                  then Choice(c.kept + {i}, c.used + Tokens(sents[i])) else c;
      Choose(sents, score, budget, order[1..], next)
  }

  /** `order` is a possible result of sorting the sentence indices by descending score. */
  ghost predicate Ranking(order: seq<nat>, sents: seq<string>, score: nat -> real) {
    && Distinct(order)
    && IndicesBelow(order, |sents|) && (forall i: nat :: i < |sents| ==> i in order)
    && Descending(order, score)
    && (forall i: nat :: score(i) <= F32_MAX)
  }

  /** The loop of the source, which stops early once the budget is used up on an ordinary
      sentence; the early exit changes nothing. */
  method SelectSentences(sents: seq<string>, score: nat -> real, budget: nat, order: seq<nat>) returns (c: Choice)
    requires Ranking(order, sents, score)
    ensures c == Choose(sents, score, budget, order, Choice({}, 0))
  {
    c := Choice({}, 0);
    for k := 0 to |order|
      invariant Choose(sents, score, budget, order, Choice({}, 0)) == Choose(sents, score, budget, order[k..], c)
    {
      var i := order[k];
      assert order[k..][0] == i && order[k..][1..] == order[k + 1..];
      if score(i) == F32_MAX || c.used + Tokens(sents[i]) <= budget {
        c := Choice(c.kept + {i}, c.used + Tokens(sents[i]));
      }
      if c.used >= budget && score(i) != F32_MAX {
        var rest := order[k + 1..];
        forall m | 0 <= m < |rest| ensures !MustStay(score, rest[m]) {
          assert rest[m] == order[k + 1 + m];
        }
        NothingMoreFits(sents, score, budget, rest, c);
        return;
      }
    }
  }

  lemma {:induction false} NothingMoreFits(sents: seq<string>, score: nat -> real, budget: nat, order: seq<nat>, c: Choice)
    requires IndicesBelow(order, |sents|) && forall k :: 0 <= k < |order| ==> !MustStay(score, order[k])
    requires c.used >= budget
    ensures Choose(sents, score, budget, order, c) == c
    decreases |order|
  {
    if order != [] {
      NothingMoreFits(sents, score, budget, order[1..], c);
    }
  }

  /** Sum of the estimates of the chosen sentences among the first `k` of the ranking. */
  ghost function Spent(sents: seq<string>, order: seq<nat>, kept: set<nat>): nat
    requires IndicesBelow(order, |sents|)
  {
    if order == [] then 0
    else (if order[0] in kept then Tokens(sents[order[0]]) else 0) + Spent(sents, order[1..], kept)
  }

  /** What the choice over the rest of a ranking guarantees, whatever was chosen before. */
  lemma {:induction false} ChooseGuarantees(sents: seq<string>, score: nat -> real, budget: nat, order: seq<nat>, c: Choice)
    requires Distinct(order) && IndicesBelow(order, |sents|) && Elems(order) !! c.kept
    requires Descending(order, score)
    requires forall i: nat :: score(i) <= F32_MAX
    ensures var r := Choose(sents, score, budget, order, c);
            && c.kept <= r.kept <= c.kept + Elems(order) && r.used >= c.used
            && (forall i :: i in Elems(order) && MustStay(score, i) ==> i in r.kept)
            && (forall i :: i in Elems(order) - r.kept ==> i < |sents| && r.used + Tokens(sents[i]) > budget)
            && (r.used <= budget || forall i :: i in Elems(order) * r.kept ==> MustStay(score, i))
            && r.used == c.used + Spent(sents, order, r.kept)
    decreases |order|
  {
    hide Tokens, Distinct, Descending, MustStay;
    if order != [] {
      var i := order[0];
      var next := if MustStay(score, i) || c.used + Tokens(sents[i]) <= budget
                  then Choice(c.kept + {i}, c.used + Tokens(sents[i])) else c;
      DistinctTail(order);
      DescendingTail(order, score);
      assert Elems(order) == {i} + Elems(order[1..]);
      assert IndicesBelow(order[1..], |sents|);
      ChooseGuarantees(sents, score, budget, order[1..], next);
      if !MustStay(score, i) && i in next.kept {
        var r := Choose(sents, score, budget, order[1..], next);
        NoMustBelow(order, score);
        if forall j :: j in Elems(order[1..]) * r.kept ==> MustStay(score, j) {
          assert Elems(order[1..]) * r.kept == {};
          NothingKept(sents, order[1..], r.kept);
        }
      }
    }
  }

  lemma DescendingTail(order: seq<nat>, score: nat -> real)
    requires order != [] && Descending(order, score)
    ensures Descending(order[1..], score)
  {
  }

  lemma NoMustBelow(order: seq<nat>, score: nat -> real)
    requires order != [] && !MustStay(score, order[0])
    requires Descending(order, score)
    requires forall i: nat :: score(i) <= F32_MAX
    ensures forall j :: j in Elems(order[1..]) ==> !MustStay(score, j)
  {
    forall j | j in Elems(order[1..]) ensures !MustStay(score, j) {
      var m :| 0 <= m < |order[1..]| && order[1..][m] == j;
      assert score(order[0]) >= score(order[m + 1]);
    }
  }

  lemma {:induction false} NothingKept(sents: seq<string>, order: seq<nat>, kept: set<nat>)
    requires IndicesBelow(order, |sents|)
    requires Elems(order) * kept == {}
    ensures Spent(sents, order, kept) == 0
  {
    if order != [] {
      assert order[0] in Elems(order) && order[0] !in Elems(order) * kept;
      assert Elems(order[1..]) <= Elems(order);
      NothingKept(sents, order[1..], kept);
    }
  }

  /** For any ranking and any budget: every must-stay sentence is kept; if any other is kept
      the whole selection is within budget; and no dropped sentence would still fit. */
  lemma SelectionIsSound(sents: seq<string>, score: nat -> real, budget: nat, order: seq<nat>)
    requires Ranking(order, sents, score)
    ensures var r := Choose(sents, score, budget, order, Choice({}, 0));
            && (forall i :: i in r.kept ==> i < |sents|)
            && (forall i :: 0 <= i < |sents| && MustStay(score, i) ==> i in r.kept)
            && ((exists i :: i in r.kept && !MustStay(score, i)) ==> r.used <= budget)
            && (forall i :: 0 <= i < |sents| && i !in r.kept ==> r.used + Tokens(sents[i]) > budget)
            && r.used == Spent(sents, order, r.kept)
  {
    ChooseGuarantees(sents, score, budget, order, Choice({}, 0));
    assert forall i: nat :: i < |sents| ==> i in Elems(order);
    forall i | i in Elems(order) ensures i < |sents| {
      var k :| 0 <= k < |order| && order[k] == i;
    }
  }

  /** Best first, one after the other: a sentence is kept iff it must stay or fits in what those
      before it have left of the budget. */
  lemma {:induction false} ChoiceIsGreedy(sents: seq<string>, score: nat -> real, budget: nat, order: seq<nat>, c: Choice)
    returns (used: seq<nat>)
    requires Distinct(order) && IndicesBelow(order, |sents|) && Elems(order) !! c.kept
    ensures var r := Choose(sents, score, budget, order, c);
            && |used| == |order| + 1 && used[0] == c.used && used[|order|] == r.used
            && c.kept <= r.kept <= c.kept + Elems(order)
            && forall k :: 0 <= k < |order| ==>
                 KeptAt(sents[order[k]], score(order[k]), budget, order[k] in r.kept, used[k], used[k + 1])
    decreases |order|
  {
    hide Tokens;
    if order == [] {
      used := [c.used];
    } else {
      var i, rest := order[0], order[1..];
      DistinctTail(order);
      assert Elems(order) == {i} + Elems(rest);
      var next := if MustStay(score, i) || c.used + Tokens(sents[i]) <= budget
                  then Choice(c.kept + {i}, c.used + Tokens(sents[i])) else c;
      var later := ChoiceIsGreedy(sents, score, budget, rest, next);
      used := [c.used] + later;
      var kept := Choose(sents, score, budget, order, c).kept;
      assert i !in Elems(rest) && (i in kept <==> i in next.kept);
      forall k | 0 < k < |order|
        ensures KeptAt(sents[order[k]], score(order[k]), budget, order[k] in kept, used[k], used[k + 1])
      {
        assert rest[k - 1] == order[k];
        assert KeptAt(sents[rest[k - 1]], score(rest[k - 1]), budget, rest[k - 1] in kept, later[k - 1], later[k]);
      }
    }
  }

  ghost predicate KeptAt(sentence: string, score: real, budget: nat, kept: bool, used: nat, after: nat) {
    if score == 340282346638528859811704183484516925440.0 || used + Tokens(sentence) <= budget
    then kept && after == used + Tokens(sentence)
    else !kept && after == used
  }

  // ---- Tidying ----

  const TWO_SPACES: string := "  "

  function ReplaceAll(s: string, pat: string, rep: string): string
    requires pat != ""
    decreases |s|
  {
    match Find(s, pat)
    case None => s
    case Some(i) => s[..i] + rep + ReplaceAll(s[i + |pat|..], pat, rep)
  }

  function NotSpace(): char -> bool {
    c => c != ' '
  }

  /** The text without its spaces. */
  function Ink(s: string): string {
    Filter(s, NotSpace())
  }

  lemma {:induction false} SqueezeShrinks(s: string)
    ensures var r := ReplaceAll(s, TWO_SPACES, " ");
            |r| <= |s| && (Find(s, TWO_SPACES).Some? ==> |r| < |s|)
    decreases |s|
  {
    var f := Find(s, TWO_SPACES);
    if f.Some? {
      SqueezeShrinks(s[f.value + 2..]);
    }
  }

  lemma {:induction false} SqueezeKeepsInk(s: string)
    ensures Ink(ReplaceAll(s, TWO_SPACES, " ")) == Ink(s)
    decreases |s|
  {
    var f := Find(s, TWO_SPACES);
    if f.Some? {
      var i := f.value;
      var tail := s[i + 2..];
      SqueezeKeepsInk(tail);
      Around(s, i, TWO_SPACES);
      FilterAppend(s[..i] + TWO_SPACES, tail, NotSpace());
      FilterAppend(s[..i], TWO_SPACES, NotSpace());
      FilterAppend(s[..i] + " ", ReplaceAll(tail, TWO_SPACES, " "), NotSpace());
      FilterAppend(s[..i], " ", NotSpace());
      assert Ink(TWO_SPACES) == "" && Ink(" ") == "" by {
        assert TWO_SPACES[1..] == " " && " "[1..] == "";
      }
    }
  }

  /** The text with one space for each run of spaces. */
  function Squeezed(s: string): (r: string)
    ensures r == "" <==> s == ""
    ensures s != "" ==> r[0] == s[0]
  {
    if s == "" then ""
    else if s[0] == ' ' && |s| > 1 && s[1] == ' ' then Squeezed(s[1..])
    else [s[0]] + Squeezed(s[1..])
  }

  lemma SqueezedCons(c: char, s: string)
    ensures var r := Squeezed(s);
            Squeezed([c] + s) == if c == ' ' && r != "" && r[0] == ' ' then r else [c] + r
  {
    assert ([c] + s)[1..] == s;
  }

  /** What stands in front does not see the difference. */
  lemma {:induction false} SqueezedBehind(a: string, s: string, t: string)
    requires Squeezed(s) == Squeezed(t)
    ensures Squeezed(a + s) == Squeezed(a + t)
  {
    hide Squeezed;
    if a == "" {
      assert a + s == s && a + t == t;
    } else {
      SqueezedBehind(a[1..], s, t);
      SqueezedCons(a[0], a[1..] + s);
      SqueezedCons(a[0], a[1..] + t);
      assert a + s == [a[0]] + (a[1..] + s) && a + t == [a[0]] + (a[1..] + t);
    }
  }

  lemma {:induction false} SqueezeKeepsRuns(s: string)
    ensures Squeezed(ReplaceAll(s, TWO_SPACES, " ")) == Squeezed(s)
    decreases |s|
  {
    hide Squeezed;
    var f := Find(s, TWO_SPACES);
    if f.Some? {
      var tail := s[f.value + 2..];
      SqueezeKeepsRuns(tail);
      Around(s, f.value, TWO_SPACES);
      OneForTwo(s[..f.value], tail, ReplaceAll(tail, TWO_SPACES, " "));
    }
  }

  /** One space squeezes like two. */
  lemma OneForTwo(a: string, tail: string, rest: string)
    requires Squeezed(tail) == Squeezed(rest)
    ensures Squeezed(a + " " + rest) == Squeezed(a + TWO_SPACES + tail)
  {
    hide Squeezed;
    SqueezedBehind(" ", tail, rest);
    SpacesCollapse(" " + tail);
    SqueezedBehind(a, " " + (" " + tail), " " + rest);
    assert TWO_SPACES == " " + " ";
    assert a + TWO_SPACES + tail == a + (" " + (" " + tail)) && a + " " + rest == a + (" " + rest);
  }

  lemma SpacesCollapse(s: string)
    requires s != "" && s[0] == ' '
    ensures Squeezed(" " + s) == Squeezed(s)
  {
    assert (" " + s)[1..] == s;
  }

  lemma {:induction false} NothingToSqueeze(s: string)
    requires Find(s, TWO_SPACES).None?
    ensures Squeezed(s) == s
  {
    if s != "" {
      forall i: nat ensures !At(s[1..], i, TWO_SPACES) {
        if i + 2 <= |s| - 1 {
          assert s[1..][i..i + 2] == s[i + 1..i + 3];
          assert !At(s, i + 1, TWO_SPACES);
        }
      }
      assert Find(s[1..], TWO_SPACES).None?;
      NothingToSqueeze(s[1..]);
      assert !At(s, 0, TWO_SPACES);
    }
  }

  /** Squeezing double spaces until none is left terminates and leaves one space for each run. */
  method CollapseSpaces(s: string) returns (r: string)
    ensures Find(r, TWO_SPACES).None?
    ensures Ink(r) == Ink(s)
    ensures r == Squeezed(s)
  {
    hide Find, ReplaceAll, Filter, Squeezed;
    r := s;
    while Find(r, TWO_SPACES).Some?
      invariant Ink(r) == Ink(s)
      invariant Squeezed(r) == Squeezed(s)
      decreases |r|
    {
      SqueezeShrinks(r);
      SqueezeKeepsInk(r);
      SqueezeKeepsRuns(r);
      r := ReplaceAll(r, TWO_SPACES, " ");
    }
    NothingToSqueeze(r);
  }
}
