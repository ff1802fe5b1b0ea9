/**
 The frontmatter extractor: the block a skill document opens with, found the
 way `re.match(r'^---\s*\n(.*?)\n---\s*\n', content, re.DOTALL)` finds it,
 and the flat key/value map read from the lines inside that block.
 */
module Frontmatter {
  import opened Text

  type Mapping = map<string, string>

  // ---------------------------------------------------------------------
  // The delimited block

  /** `^---\s*\n` matches the start of `s` and ends just before index `o`. */
  predicate OpensAt(s: string, o: int) {
    && 4 <= o <= |s|
    && s[..3] == "---"
    && s[o - 1] == '\n'
    && (forall j :: 3 <= j < o ==> IsSpace(s[j]))
  }

  /** `\s*\n` matches at index `p`: white space up to and including a newline. */
  predicate NewlineAfterSpaces(s: string, p: nat)
    decreases |s| - p
  {
    p < |s| && (s[p] == '\n' || (IsSpace(s[p]) && NewlineAfterSpaces(s, p + 1)))
  }

  /** `\n---\s*\n` matches at index `e`, so the interior may end at `e`. */
  predicate ClosesAt(s: string, e: int) {
    0 <= e && e + 4 <= |s| && s[e..e + 4] == "\n---" && NewlineAfterSpaces(s, e + 4)
  }

  /** The interior ending at `e` is the one the lazy `(.*?)` settles on when
      it starts at `o`: the first place at or after `o` where the block closes. */
  ghost predicate FirstCloseAfter(s: string, o: int, e: int) {
    o <= e && ClosesAt(s, e) && forall j :: o <= j < e ==> !ClosesAt(s, j)
  }

  /** No opening longer than `o` (the greedy `\s*` tries those first) can be
      closed at all. */
  ghost predicate NoLongerOpening(s: string, o: int) {
    forall o', j :: o < o' <= j && OpensAt(s, o') ==> !ClosesAt(s, j)
  }

  /** Some opening is followed by some closing: the expression matches. */
  ghost predicate BlockExists(s: string) {
    exists o, e :: OpensAt(s, o) && o <= e && ClosesAt(s, e)
  }

  /** The smallest `e >= from` where the block can close. */
  function FirstClose(s: string, from: nat): (r: Option<nat>)
    ensures r.Some? ==> FirstCloseAfter(s, from, r.value)
    ensures r.None? ==> forall j :: from <= j ==> !ClosesAt(s, j)
    decreases |s| - from
  {
    if from + 4 > |s| then None
    else if ClosesAt(s, from) then Some(from)
    else FirstClose(s, from + 1)
  }

  /** End of the run of white space that starts at `p`. */
  function SpaceRunEnd(s: string, p: nat): (w: nat)
    requires p <= |s|
    ensures p <= w <= |s|
    ensures forall j :: p <= j < w ==> IsSpace(s[j])
    ensures w == |s| || !IsSpace(s[w])
    decreases |s| - p
  {
    if p < |s| && IsSpace(s[p]) then SpaceRunEnd(s, p + 1) else p
  }

  /** An opening of the block ends right after a newline inside the run of
      white space that follows the leading `---`. */
  lemma OpensAtInRun(s: string, o: int)
    requires |s| >= 3 && s[..3] == "---"
    ensures OpensAt(s, o) <==> 4 <= o <= SpaceRunEnd(s, 3) && s[o - 1] == '\n'
  {
    var w := SpaceRunEnd(s, 3);
    if OpensAt(s, o) {
      assert w < |s| ==> !IsSpace(s[w]);
    }
  }

  /** Tries the openings that end after index `k`, `k - 1`, ... in turn: the
      greedy `\s*` first takes the whole run of white space and then gives
      back one character at a time. For each opening the lazy interior takes
      the first closing. */
  function OpenFrom(s: string, k: int): (r: Option<(nat, nat)>)
    requires |s| >= 3 && s[..3] == "---"
    requires k < SpaceRunEnd(s, 3)
    ensures r.Some? ==>
              && OpensAt(s, r.value.0) && r.value.0 <= k + 1
              && FirstCloseAfter(s, r.value.0, r.value.1)
              && (forall o', j :: r.value.0 < o' <= j && o' <= k + 1 && OpensAt(s, o') ==> !ClosesAt(s, j))
    ensures r.None? ==> forall o', j :: o' <= j && o' <= k + 1 && OpensAt(s, o') ==> !ClosesAt(s, j)
    decreases k
  {
    OpensAtInRun(s, k + 1);
    if k < 3 then None
    else if s[k] == '\n' then
      match FirstClose(s, k + 1)
      case Some(e) => Some((k + 1, e))
      case None => OpenFrom(s, k - 1)
    else OpenFrom(s, k - 1)
  }

  /** The interior `[o, e)` of the block, as the regular expression's
      backtracking search finds it, or `None` when it does not match: the
      longest opening for which any closing exists, and for that opening the
      first closing. */
  function MatchBlock(s: string): (r: Option<(nat, nat)>)
    ensures r.None? <==> !BlockExists(s)
    ensures r.Some? ==>
              && OpensAt(s, r.value.0)
              && FirstCloseAfter(s, r.value.0, r.value.1)
              && NoLongerOpening(s, r.value.0)
    ensures (|s| < 3 || s[..3] != "---") ==> r.None?
  {
    if |s| >= 3 && s[..3] == "---" then
      var w := SpaceRunEnd(s, 3);
      var r := OpenFrom(s, w - 1);
      assert forall o :: OpensAt(s, o) ==> o <= w by {
        forall o | OpensAt(s, o) ensures o <= w {
          OpensAtInRun(s, o);
        }
      }
      r
    else
      None
  }

  // ---------------------------------------------------------------------
  // Key/value lines

  /** The key of a line: the text before the first colon, stripped. */
  function KeyOf(line: string): string
    requires ':' in line
  {
    Strip(line[..IndexOf(line, ':').value])
  }

  /** The value of a line: the text after the first colon, stripped. */
  function ValueOf(line: string): string
    requires ':' in line
  {
    Strip(line[IndexOf(line, ':').value + 1..])
  }

  /** A line splits at its first colon only: the key is the stripped text
      before it, and the value is everything after it, stripped, colons
      included. */
  lemma SplitAtFirstColon(key: string, value: string)
    requires ':' !in key
    ensures KeyOf(key + ":" + value) == Strip(key)
    ensures ValueOf(key + ":" + value) == Strip(value)
  {
    var line := key + ":" + value;
    var k := IndexOf(line, ':').value;
    assert forall j :: 0 <= j < |key| ==> line[j] == key[j];
    assert line[|key|] == ':';
    assert k == |key|;
    assert line[..k] == key;
    assert line[k + 1..] == value;
  }

  /** The line sets `k`. */
  predicate Defines(line: string, k: string) {
    ':' in line && KeyOf(line) == k
  }

  /** Line `i` is the last of `lines` that sets `k`. */
  predicate LastDefines(lines: seq<string>, i: int, k: string) {
    && 0 <= i < |lines|
    && Defines(lines[i], k)
    && forall j :: i < j < |lines| ==> !Defines(lines[j], k)
  }

  /** One step of the loop over the interior lines. */
  function AddLine(fm: Mapping, line: string): Mapping {
    if ':' in line then fm[KeyOf(line) := ValueOf(line)] else fm
  }

  /** The loop over the interior lines, in order. */
  function ParseLines(lines: seq<string>): Mapping
    decreases |lines|
  {
    if |lines| == 0 then map[]
    else AddLine(ParseLines(lines[..|lines| - 1]), lines[|lines| - 1])
  }

  /** A key is in the map exactly when some line sets it: lines without a
      colon are ignored. */
  lemma {:induction false} ParseLinesKeys(lines: seq<string>, k: string)
    ensures k in ParseLines(lines) <==> exists i :: 0 <= i < |lines| && Defines(lines[i], k)
    decreases |lines|
  {
    if |lines| > 0 {
      var n := |lines| - 1;
      var init := lines[..n];
      ParseLinesKeys(init, k);
      if exists i :: 0 <= i < |lines| && Defines(lines[i], k) {
        var i :| 0 <= i < |lines| && Defines(lines[i], k);
        if i < n {
          assert Defines(init[i], k);
        }
      }
      if exists i :: 0 <= i < n && Defines(init[i], k) {
        var i :| 0 <= i < n && Defines(init[i], k);
        assert Defines(lines[i], k);
      }
    }
  }

  /** A key holds the value of the last line that sets it: later duplicates
      override earlier ones. */
  lemma {:induction false} ParseLinesLastWins(lines: seq<string>, k: string, i: int)
    requires LastDefines(lines, i, k)
    ensures k in ParseLines(lines) && ParseLines(lines)[k] == ValueOf(lines[i])
    decreases |lines|
  {
    var n := |lines| - 1;
    var init := lines[..n];
    if i < n {
      assert !Defines(lines[n], k);
      assert LastDefines(init, i, k) by {
        forall j | i < j < n ensures !Defines(init[j], k) {
          assert init[j] == lines[j];
        }
      }
      ParseLinesLastWins(init, k, i);
    }
  }

  /** The lines of the block's interior, split on newlines; none when the
      document has no block. */
  function BlockLines(content: string): seq<string> {
    match MatchBlock(content)
    case None => []
    case Some((o, e)) => Split(content[o..e], '\n')
  }

  /** `parse_frontmatter`: the map read from the block's interior lines;
      empty when the document has no block. */
  function ParseFrontmatter(content: string): (fm: Mapping)
    ensures MatchBlock(content).None? ==> fm == map[]
  {
    if MatchBlock(content).None? then map[] else ParseLines(BlockLines(content))
  }

  /** When some line sets `k`, one of them is the last to do so. */
  lemma {:induction false} LastDefinerExists(lines: seq<string>, k: string, i: int)
    requires 0 <= i < |lines| && Defines(lines[i], k)
    ensures exists l :: LastDefines(lines, l, k)
    decreases |lines| - i
  {
    if !LastDefines(lines, i, k) {
      var j :| i < j < |lines| && Defines(lines[j], k);
      LastDefinerExists(lines, k, j);
    }
  }

  /** Every key of the parsed map comes from a line of the block's interior
      that has a colon, and carries the value of the last such line. */
  lemma FrontmatterKeys(content: string, k: string)
    requires k in ParseFrontmatter(content)
    ensures MatchBlock(content).Some?
    ensures exists i :: LastDefines(BlockLines(content), i, k)
                        && ParseFrontmatter(content)[k] == ValueOf(BlockLines(content)[i])
  {
    var lines := BlockLines(content);
    ParseLinesKeys(lines, k);
    var i :| 0 <= i < |lines| && Defines(lines[i], k);
    LastDefinerExists(lines, k, i);
    var l :| LastDefines(lines, l, k);
    ParseLinesLastWins(lines, k, l);
  }
}
