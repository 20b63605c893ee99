/**
  The line-count demo: the number of lines that contain the literal pattern
  "bbb".  re.search is not anchored and the pattern has no metacharacters, so
  a line matches exactly when "bbb" occurs in it as a substring.
 */
module Search {

  const SearchString: string := "bbb"

  /** pat occurs in line starting at position i. */
  predicate OccursAt(line: string, pat: string, i: int) {
    0 <= i && i + |pat| <= |line| && line[i..i + |pat|] == pat
  }

  /** The literal search: try every start position from the left. */
  function Contains(line: string, pat: string): (found: bool)
    ensures found <==> exists i :: OccursAt(line, pat, i)
    decreases |line|
  {
    if |line| < |pat| then false
    else if line[..|pat|] == pat then
      assert OccursAt(line, pat, 0);
      true
    else
      var rest := Contains(line[1..], pat);
      assert forall i :: OccursAt(line[1..], pat, i) <==> OccursAt(line, pat, i + 1) by {
        forall i
          ensures OccursAt(line[1..], pat, i) <==> OccursAt(line, pat, i + 1)
        {
          if 0 <= i && i + |pat| <= |line| - 1 {
            assert line[1..][i..i + |pat|] == line[i + 1..i + 1 + |pat|];
          }
        }
      }
      assert forall i :: OccursAt(line, pat, i) ==> i > 0 || line[..|pat|] == pat;
      assert (exists i :: OccursAt(line, pat, i)) ==> exists i :: OccursAt(line[1..], pat, i) by {
        if exists i :: OccursAt(line, pat, i) {
          var i :| OccursAt(line, pat, i);
          assert OccursAt(line[1..], pat, i - 1);
        }
      }
      rest
  }

  /** matchingLineMap: 1 for a line containing the pattern, 0 otherwise. */
  function MatchingLineMap(line: string): (n: nat)
    ensures n <= 1
    ensures n == 1 <==> exists i :: OccursAt(line, SearchString, i)
  {
    if Contains(line, SearchString) then 1 else 0
  }

  /** sum(map(matchingLineMap, lines)) */
  function MatchingLineCount(lines: seq<string>): (n: nat)
    ensures n <= |lines|
  {
    if lines == [] then 0
    else MatchingLineCount(lines[..|lines| - 1]) + MatchingLineMap(lines[|lines| - 1])
  }

  /** The count over two files' lines is the sum of the counts: each line is
      judged on its own. */
  lemma {:induction false} CountAppend(a: seq<string>, b: seq<string>)
    ensures MatchingLineCount(a + b) == MatchingLineCount(a) + MatchingLineCount(b)
    decreases |b|
  {
    if b == [] {
      assert a + b == a;
    } else {
      var b' := b[..|b| - 1];
      assert (a + b)[..|a + b| - 1] == a + b';
      assert (a + b)[|a + b| - 1] == b[|b| - 1];
      CountAppend(a, b');
      assert MatchingLineCount(a + b) == MatchingLineCount(a + b') + MatchingLineMap(b[|b| - 1]);
      assert MatchingLineCount(b) == MatchingLineCount(b') + MatchingLineMap(b[|b| - 1]);
    }
  }

  /** The positions of the matching lines. */
  function MatchingIndices(lines: seq<string>): set<nat> {
    set i: nat | i < |lines| && Contains(lines[i], SearchString)
  }

  /** The count is the number of lines that contain the pattern. */
  lemma {:induction false} CountIsMatchingLines(lines: seq<string>)
    ensures MatchingLineCount(lines) == |MatchingIndices(lines)|
  {
    if lines != [] {
      var n := |lines| - 1;
      var init := lines[..n];
      CountIsMatchingLines(init);
      var before := MatchingIndices(init);
      assert MatchingIndices(lines) == if Contains(lines[n], SearchString) then before + {n} else before;
      assert n !in before;
    }
  }

  /** No line matches exactly when the count is 0, and every line matches
      exactly when the count is the number of lines. */
  lemma {:induction false} CountExtremes(lines: seq<string>)
    ensures MatchingLineCount(lines) == 0 <==> forall i :: 0 <= i < |lines| ==> !Contains(lines[i], SearchString)
    ensures MatchingLineCount(lines) == |lines| <==> forall i :: 0 <= i < |lines| ==> Contains(lines[i], SearchString)
  {
    if lines != [] {
      var n := |lines| - 1;
      var init := lines[..n];
      CountExtremes(init);
      assert forall i :: 0 <= i < n ==> init[i] == lines[i];
    }
  }

  /** An occurrence that straddles a line break does not count: the two lines
      below hold "bbb" between them but in neither. */
  lemma SplitOccurrenceNotCounted()
    ensures Contains("xbb" + "bx", SearchString)
    ensures MatchingLineCount(["xbb\n", "bx\n"]) == 0
  {
    assert OccursAt("xbbbx", SearchString, 1);
    assert "xbb" + "bx" == "xbbbx";
    var l0: string, l1: string := "xbb\n", "bx\n";
    assert l0[..3][0] != SearchString[0];
    assert l0[1..][..3][2] != SearchString[2];
    assert !Contains(l0[1..][1..], SearchString);
    assert !Contains(l0, SearchString);
    assert l1[..3][1] != SearchString[1];
    assert !Contains(l1[1..], SearchString);
    assert !Contains(l1, SearchString);
    assert [l0, l1][..1] == [l0];
    assert [l0][..0] == [];
  }
}
