/** The parts of Rust's and JavaScript's string handling that the model depends on. */
module Text {

  /** `char::is_whitespace` of Rust: the Unicode White_Space property. */
  predicate IsSpace(c: char)
  {
    || '\U{0009}' <= c <= '\U{000D}'
    || c == ' '
    || c == '\U{0085}'
    || c == '\U{00A0}'
    || c == '\U{1680}'
    || '\U{2000}' <= c <= '\U{200A}'
    || c == '\U{2028}'
    || c == '\U{2029}'
    || c == '\U{202F}'
    || c == '\U{205F}'
    || c == '\U{3000}'
  }

  /** Its 25 characters, by number. */
  lemma SpaceExactly(c: char)
    ensures IsSpace(c) <==>
            || (c as int) in [9, 10, 11, 12, 13, 32, 133, 160, 5760]
            || (c as int) in [8192, 8193, 8194, 8195, 8196, 8197, 8198, 8199, 8200, 8201, 8202]
            || (c as int) in [8232, 8233, 8239, 8287, 12288]
  {
  }

  function TrimStart(s: string, space: char -> bool): (r: string)
    ensures r != [] ==> !space(r[0])
  {
    if s != [] && space(s[0]) then TrimStart(s[1..], space) else s
  }

  function TrimEnd(s: string, space: char -> bool): (r: string)
    ensures r <= s
    ensures r != [] ==> !space(r[|r| - 1])
  {
    if s != [] && space(s[|s| - 1]) then TrimEnd(s[..|s| - 1], space) else s
  }

  function TrimBy(s: string, space: char -> bool): (r: string)
    ensures r != [] ==> !space(r[0]) && !space(r[|r| - 1])
  {
    TrimEnd(TrimStart(s, space), space)
  }

  function Trim(s: string): string {
    TrimBy(s, IsSpace)
  }

  ghost predicate AllSpace(s: string, space: char -> bool) {
    forall i :: 0 <= i < |s| ==> space(s[i])
  }

  ghost predicate SolidBetween(s: string, before: string, middle: string, after: string, space: char -> bool) {
    && s == before + middle + after && AllSpace(before, space) && AllSpace(after, space)
    && (middle != "" ==> !space(middle[0]) && !space(middle[|middle| - 1]))
  }

  /** Trimming removes space at both ends, all of it, and nothing else. */
  lemma TrimIsExact(s: string, space: char -> bool) returns (before: string, after: string)
    ensures SolidBetween(s, before, TrimBy(s, space), after, space)
  {
    before := TrimmedStart(s, space);
    after := TrimmedEnd(TrimStart(s, space), space);
    Associate(before, TrimBy(s, space), after);
  }

  lemma {:induction false} TrimmedStart(s: string, space: char -> bool) returns (before: string)
    ensures s == before + TrimStart(s, space) && AllSpace(before, space)
  {
    before := "";
    if s != "" && space(s[0]) {
      var more := TrimmedStart(s[1..], space);
      before := [s[0]] + more;
    }
  }

  lemma {:induction false} TrimmedEnd(s: string, space: char -> bool) returns (after: string)
    ensures s == TrimEnd(s, space) + after && AllSpace(after, space)
  {
    after := "";
    if s != "" && space(s[|s| - 1]) {
      var more := TrimmedEnd(s[..|s| - 1], space);
      after := more + [s[|s| - 1]];
    }
  }

  lemma Associate(a: string, b: string, c: string)
    ensures a + (b + c) == a + b + c
  {
  }

  /** There is only one way to do so. */
  lemma TrimIsUnique(s: string, before: string, middle: string, after: string, space: char -> bool)
    requires SolidBetween(s, before, middle, after, space)
    ensures TrimBy(s, space) == middle
  {
    Associate(before, middle, after);
    SkipSpace(before, middle + after, space);
    if middle == "" {
      assert middle + after == after && after + "" == after;
      SkipSpace(after, "", space);
    } else {
      assert (middle + after)[0] == middle[0];
      DropSpace(middle, after, space);
    }
  }

  lemma {:induction false} SkipSpace(before: string, s: string, space: char -> bool)
    requires AllSpace(before, space)
    ensures TrimStart(before + s, space) == TrimStart(s, space)
  {
    if before == "" {
      assert before + s == s;
    } else {
      assert (before + s)[1..] == before[1..] + s;
      SkipSpace(before[1..], s, space);
    }
  }

  lemma {:induction false} DropSpace(s: string, after: string, space: char -> bool)
    requires AllSpace(after, space) && s != "" && !space(s[|s| - 1])
    ensures TrimEnd(s + after, space) == s
  {
    if after == "" {
      assert s + after == s;
    } else {
      assert (s + after)[..|s + after| - 1] == s + after[..|after| - 1];
      DropSpace(s, after[..|after| - 1], space);
    }
  }

  predicate IsBlank(s: string) {
    Trim(s) == ""
  }

  /** Trimming leaves a text with solid ends alone. */
  lemma TrimSolid(s: string)
    requires s != "" && !IsSpace(s[0]) && !IsSpace(s[|s| - 1])
    ensures Trim(s) == s
  {
  }

  lemma TrimIdempotent(s: string)
    ensures Trim(Trim(s)) == Trim(s)
  {
  }

  /** `to_ascii_lowercase`. */
  function Lower(s: string): (r: string)
    ensures |r| == |s|
  {
    seq(|s|, i requires 0 <= i < |s| => LowerChar(s[i]))
  }

  function LowerChar(c: char): char {
    if 'A' <= c <= 'Z' then ((c as int) + 32) as char else c
  }

  /** The ASCII capitals, 65 to 90, become small letters, and nothing else changes. */
  lemma LowerExactly(s: string, i: nat)
    requires i < |s|
    ensures Lower(s)[i] as int == (s[i] as int) + if 65 <= (s[i] as int) <= 90 then 32 else 0
  {
  }

  predicate Contains(s: string, part: string) {
    part <= s || (s != [] && Contains(s[1..], part))
  }

  lemma {:induction false} ContainsExactly(s: string, part: string)
    ensures Contains(s, part) <==> exists before, after :: s == before + part + after
  {
    if part <= s {
      assert s == "" + part + s[|part|..];
    } else if s != "" {
      ContainsExactly(s[1..], part);
      if before, after :| s[1..] == before + part + after {
        assert s == ([s[0]] + before) + part + after;
      }
      if before, after :| s == before + part + after {
        assert before != "";
        assert s[1..] == before[1..] + part + after;
      }
    }
  }

  /** Up to the first `c`, or all of it. */
  function Before(s: string, c: char): (r: string)
    ensures r <= s && c !in r
    ensures c !in s ==> r == s
    ensures c in s ==> |r| < |s| && s[|r|] == c
  {
    if s == [] || s[0] == c then [] else [s[0]] + Before(s[1..], c)
  }
}
