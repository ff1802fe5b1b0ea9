/**
 The six independent checks of the skill quality checker. Each returns a
 partial score and the issues that explain the points it did not award.
 Scores are kept exactly, in hundredths of a point: every weight and
 penalty of the checker is a multiple of 0.05.
 */
module Checks {
  import opened Text

  /** A partial score in hundredths of a point, and the issues found. */
  datatype CheckResult = CheckResult(score: nat, issues: seq<string>)

  // The maximum weight of each check, in hundredths.
  const DescriptionMax: nat := 200
  const NameMax: nat := 50
  const ConcisenessMax: nat := 150
  const ExamplesMax: nat := 100
  const StructureMax: nat := 100
  const AntiPatternsMax: nat := 100

  function Bit(b: bool): nat {
    if b then 1 else 0
  }

  function Min(a: int, b: int): int {
    if a <= b then a else b
  }

  /** `dict.get(key, '')`. */
  function Lookup(fm: map<string, string>, key: string): string {
    if key in fm then fm[key] else ""
  }

  /** One sub-check that adds `points` when it passes and reports `issue`
      when it fails. */
  function Award(acc: CheckResult, pass: bool, points: nat, issue: string): CheckResult {
    if pass then CheckResult(acc.score + points, acc.issues)
    else CheckResult(acc.score, acc.issues + [issue])
  }

  /** The issue a sub-check reports: none when it passes. */
  function Unless(pass: bool, issue: string): seq<string> {
    if pass then [] else [issue]
  }

  /** With distinct messages, the issues of four sub-checks in a row hold
      each message exactly when its sub-check fails, and nothing else. */
  lemma FourUnless(p1: bool, i1: string, p2: bool, i2: string, p3: bool, i3: string,
                   p4: bool, i4: string, other: string)
    requires i1 != i2 && i1 != i3 && i1 != i4 && i2 != i3 && i2 != i4 && i3 != i4
    requires other != i1 && other != i2 && other != i3 && other != i4
    ensures var l := Unless(p1, i1) + Unless(p2, i2) + Unless(p3, i3) + Unless(p4, i4);
      && |l| == Bit(!p1) + Bit(!p2) + Bit(!p3) + Bit(!p4)
      && (i1 in l <==> !p1) && (i2 in l <==> !p2) && (i3 in l <==> !p3) && (i4 in l <==> !p4)
      && other !in l
  {
    var l := Unless(p1, i1) + Unless(p2, i2) + Unless(p3, i3) + Unless(p4, i4);
    assert forall x :: x in l <==> (x == i1 && !p1) || (x == i2 && !p2) || (x == i3 && !p3) || (x == i4 && !p4);
  }

  /** Python's `any(word in s for word in words)`. */
  predicate ContainsAny(s: string, words: seq<string>) {
    exists w | w in words :: Contains(s, w)
  }

  /** The message is `prefix`, then a run of decimal digits without a
      leading zero that reads as `n`, then `suffix`: an f-string
      interpolating `n` between the two. */
  predicate Quotes(msg: string, prefix: string, n: nat, suffix: string) {
    && |prefix| + |suffix| < |msg|
    && msg[..|prefix|] == prefix
    && msg[|msg| - |suffix|..] == suffix
    && var digits := msg[|prefix|..|msg| - |suffix|];
      && (forall i :: 0 <= i < |digits| ==> IsDigit(digits[i]))
      && (|digits| > 1 ==> digits[0] != '0')
      && DecimalValue(digits) == n
  }

  /** Interpolating a count quotes it. */
  lemma QuotesCount(prefix: string, n: nat, suffix: string)
    ensures Quotes(prefix + NatToString(n) + suffix, prefix, n, suffix)
  {
    var digits := NatToString(n);
    var msg := prefix + digits + suffix;
    assert msg[..|prefix|] == prefix;
    assert msg[|msg| - |suffix|..] == suffix;
    assert msg[|prefix|..|msg| - |suffix|] == digits;
    NatToStringRoundTrip(n);
  }

  // ---------------------------------------------------------------------
  // Description (2.0 points)

  const VaguePhrases: seq<string> := ["helps with", "tool for", "useful", "handles"]
  const PersonalWords: seq<string> := ["you", "your", "i ", "i'm"]

  const MissingDescription := "Missing description"
  const DescriptionTooShort := "Description too short (< 50 chars)"
  const DescriptionVague := "Description contains vague phrases"
  const DescriptionNoWhen := "Description missing 'when to use' guidance"
  const DescriptionNotThirdPerson := "Description should be third person"

  predicate LongEnough(d: string) {
    |d| >= 50
  }

  predicate Specific(d: string) {
    !ContainsAny(Lower(d), VaguePhrases)
  }

  predicate SaysWhenToUse(d: string) {
    Contains(Lower(d), "when ") || Contains(Lower(d), "use when")
  }

  predicate ThirdPerson(d: string) {
    !ContainsAny(Lower(d), PersonalWords)
  }

  /** How many of the four description sub-checks pass. */
  function DescriptionPasses(d: string): nat {
    Bit(LongEnough(d)) + Bit(Specific(d)) + Bit(SaysWhenToUse(d)) + Bit(ThirdPerson(d))
  }

  /** `check_description`: a missing or empty description scores nothing and
      is the only issue; otherwise every passing sub-check is worth 0.5 and
      every failing one reports exactly its own issue, in the order the
      sub-checks run. */
  function CheckDescription(fm: map<string, string>): (r: CheckResult)
    ensures r.score <= DescriptionMax
    ensures Lookup(fm, "description") == "" ==> r == CheckResult(0, [MissingDescription])
    ensures var d := Lookup(fm, "description");
      d != "" ==>
        && r.score == 50 * DescriptionPasses(d)
        && DescriptionPasses(d) + |r.issues| == 4
        && MissingDescription !in r.issues
        && (DescriptionTooShort in r.issues <==> !LongEnough(d))
        && (DescriptionVague in r.issues <==> !Specific(d))
        && (DescriptionNoWhen in r.issues <==> !SaysWhenToUse(d))
        && (DescriptionNotThirdPerson in r.issues <==> !ThirdPerson(d))
        && r.issues == Unless(LongEnough(d), DescriptionTooShort) + Unless(Specific(d), DescriptionVague)
                       + Unless(SaysWhenToUse(d), DescriptionNoWhen) + Unless(ThirdPerson(d), DescriptionNotThirdPerson)
  {
    var d := Lookup(fm, "description");
    if d == "" then CheckResult(0, [MissingDescription])
    else
      var a1 := Award(CheckResult(0, []), LongEnough(d), 50, DescriptionTooShort);
      var a2 := Award(a1, Specific(d), 50, DescriptionVague);
      var a3 := Award(a2, SaysWhenToUse(d), 50, DescriptionNoWhen);
      var a4 := Award(a3, ThirdPerson(d), 50, DescriptionNotThirdPerson);
      assert a4.issues == Unless(LongEnough(d), DescriptionTooShort) + Unless(Specific(d), DescriptionVague)
                          + Unless(SaysWhenToUse(d), DescriptionNoWhen) + Unless(ThirdPerson(d), DescriptionNotThirdPerson);
      FourUnless(LongEnough(d), DescriptionTooShort, Specific(d), DescriptionVague,
                 SaysWhenToUse(d), DescriptionNoWhen, ThirdPerson(d), DescriptionNotThirdPerson, MissingDescription);
      CheckResult(Min(a4.score, DescriptionMax), a4.issues)
  }

  /** "your" can never decide the third-person sub-check on its own: every
      text containing it also contains "you". */
  lemma ThirdPersonIgnoresYour(d: string)
    ensures ThirdPerson(d) <==> !(Contains(Lower(d), "you") || Contains(Lower(d), "i ") || Contains(Lower(d), "i'm"))
  {
    var l := Lower(d);
    if Contains(l, "your") {
      var i :| 0 <= i <= |l| - 4 && MatchesAt(l, "your", i);
      assert l[i..i + 3] == l[i..i + 4][..3];
      assert MatchesAt(l, "you", i);
    }
  }

  // ---------------------------------------------------------------------
  // Name (0.5 points)

  const GenericNames: seq<string> := ["helper", "utils", "tool", "skill"]

  const MissingName := "Missing name"
  const NameNotKebab := "Name should be lowercase-with-hyphens"
  const NameTooGeneric := "Name too generic"

  /** `name == name.lower() and '-' in name`. */
  predicate Conventional(n: string) {
    n == Lower(n) && Contains(n, "-")
  }

  predicate NotGeneric(n: string) {
    n !in GenericNames
  }

  function NamePasses(n: string): nat {
    Bit(Conventional(n)) + Bit(NotGeneric(n))
  }

  /** `check_name`: a missing or empty name scores nothing and is the only
      issue; otherwise each passing sub-check is worth 0.25 and each failing
      one reports exactly its own issue, convention before genericity. */
  function CheckName(fm: map<string, string>): (r: CheckResult)
    ensures r.score <= NameMax
    ensures Lookup(fm, "name") == "" ==> r == CheckResult(0, [MissingName])
    ensures var n := Lookup(fm, "name");
      n != "" ==>
        && r.score == 25 * NamePasses(n)
        && NamePasses(n) + |r.issues| == 2
        && MissingName !in r.issues
        && (NameNotKebab in r.issues <==> !Conventional(n))
        && (NameTooGeneric in r.issues <==> !NotGeneric(n))
        && r.issues == Unless(Conventional(n), NameNotKebab) + Unless(NotGeneric(n), NameTooGeneric)
  {
    var n := Lookup(fm, "name");
    if n == "" then CheckResult(0, [MissingName])
    else
      var a1 := Award(CheckResult(0, []), Conventional(n), 25, NameNotKebab);
      var a2 := Award(a1, NotGeneric(n), 25, NameTooGeneric);
      CheckResult(Min(a2.score, NameMax), a2.issues)
  }

  /** The naming convention holds exactly when the name has no upper-case
      letter and has a hyphen. */
  lemma ConventionalIff(n: string)
    ensures Conventional(n) <==> (forall i :: 0 <= i < |n| ==> !IsUpper(n[i])) && '-' in n
  {
    LowerFixedPoint(n);
    ContainsChar(n, '-');
  }

  // ---------------------------------------------------------------------
  // Conciseness (1.5 points)

  /** `content.count('\n')`, the checker's notion of a line count. */
  function LineCount(content: string): nat {
    Count(content, "\n")
  }

  /** `check_conciseness`: a step function of the line count with its
      boundaries at 300, 500 and 800; only 500 lines or more is an issue,
      and the issue quotes the count. */
  function CheckConciseness(content: string): (r: CheckResult)
    ensures r.score <= ConcisenessMax
    ensures var n := LineCount(content);
      && (n < 300 <==> r.score == 150)
      && (300 <= n < 500 <==> r.score == 100)
      && (500 <= n < 800 <==> r.score == 50)
      && (800 <= n <==> r.score == 0)
      && |r.issues| == Bit(n >= 500)
      && (500 <= n < 800 ==> Quotes(r.issues[0], "SKILL.md is ", n, " lines (recommend <500)"))
      && (800 <= n ==> Quotes(r.issues[0], "SKILL.md is ", n, " lines (way over 500 limit)"))
  {
    var lines := LineCount(content);
    if lines < 300 then CheckResult(150, [])
    else if lines < 500 then CheckResult(100, [])
    else if lines < 800 then
      QuotesCount("SKILL.md is ", lines, " lines (recommend <500)");
      CheckResult(50, ["SKILL.md is " + NatToString(lines) + " lines (recommend <500)"])
    else
      QuotesCount("SKILL.md is ", lines, " lines (way over 500 limit)");
      CheckResult(0, ["SKILL.md is " + NatToString(lines) + " lines (way over 500 limit)"])
  }

  /** The line count is the number of newline characters. */
  lemma LineCountIsNewlines(content: string)
    ensures LineCount(content) == multiset(content)['\n']
  {
    CountCharIsMultiplicity(content, '\n');
  }

  /** A longer document never scores better on conciseness. */
  lemma ConcisenessMonotone(a: string, b: string)
    requires LineCount(a) <= LineCount(b)
    ensures CheckConciseness(b).score <= CheckConciseness(a).score
  {
  }

  // ---------------------------------------------------------------------
  // Examples (1.0 points)

  /** End of the run of `\w` characters that starts at `p`. */
  function WordRunEnd(s: string, p: nat): (w: nat)
    requires p <= |s|
    ensures p <= w <= |s|
    ensures forall j :: p <= j < w ==> IsWordChar(s[j])
    ensures w == |s| || !IsWordChar(s[w])
    decreases |s| - p
  {
    if p < |s| && IsWordChar(s[p]) then WordRunEnd(s, p + 1) else p
  }

  /** "```", then `\w` characters, then a newline occupy `s[i..end]`. */
  predicate FenceSpan(s: string, i: int, end: int) {
    && 0 <= i && i + 4 <= end <= |s|
    && s[i..i + 3] == "```"
    && s[end - 1] == '\n'
    && forall j :: i + 3 <= j < end - 1 ==> IsWordChar(s[j])
  }

  /** Where the pattern ```` ```[\w]*\n ```` matches at index `i`, the end
      of that match. The greedy `[\w]*` never needs to give anything back,
      because a newline is not a word character. */
  function FenceAt(s: string, i: nat): (r: Option<nat>)
    ensures r.Some? ==> FenceSpan(s, i, r.value)
    ensures r.None? ==> forall end :: !FenceSpan(s, i, end)
  {
    FenceSpanEnds(s, i);
    if i + 3 <= |s| && s[i..i + 3] == "```" then
      var w := WordRunEnd(s, i + 3);
      if w < |s| && s[w] == '\n' then Some(w + 1) else None
    else None
  }

  /** A match at `i` ends just after the run of word characters that follows
      the three backticks. */
  lemma FenceSpanEnd(s: string, i: int, end: int)
    requires FenceSpan(s, i, end)
    ensures end == WordRunEnd(s, i + 3) + 1
  {
    var w := WordRunEnd(s, i + 3);
    assert !IsWordChar(s[end - 1]);
    assert w < |s| ==> !IsWordChar(s[w]);
  }

  lemma FenceSpanEnds(s: string, i: int)
    ensures forall end :: FenceSpan(s, i, end) ==> i + 3 <= |s| && end == WordRunEnd(s, i + 3) + 1
  {
    forall end | FenceSpan(s, i, end)
      ensures i + 3 <= |s| && end == WordRunEnd(s, i + 3) + 1
    {
      FenceSpanEnd(s, i, end);
    }
  }

  /** `re.findall` from index `i`: a match resumes the scan at its end,
      a miss moves on by one character. Every match is at least four
      characters long. */
  function FenceCountFrom(s: string, i: nat): (k: nat)
    requires i <= |s|
    ensures 4 * k <= |s| - i
    decreases |s| - i
  {
    if i == |s| then 0
    else
      match FenceAt(s, i)
      case Some(end) => 1 + FenceCountFrom(s, end)
      case None => FenceCountFrom(s, i + 1)
  }

  /** `len(re.findall(r'```[\w]*\n', content))`. */
  function FenceCount(s: string): nat {
    FenceCountFrom(s, 0)
  }

  /** No match anywhere in `s` from index `i` on. */
  ghost predicate NoFenceFrom(s: string, i: int) {
    forall j, end :: i <= j ==> !FenceSpan(s, j, end)
  }

  lemma {:induction false} FenceCountFromZero(s: string, i: nat)
    requires i <= |s|
    ensures FenceCountFrom(s, i) == 0 <==> NoFenceFrom(s, i)
    decreases |s| - i
  {
    if i < |s| {
      match FenceAt(s, i)
      case Some(end) =>
      case None =>
        FenceCountFromZero(s, i + 1);
    } else {
      forall j, end | i <= j
        ensures !FenceSpan(s, j, end)
      {
      }
    }
  }

  /** The count is zero exactly when the pattern matches nowhere. */
  lemma FenceCountZeroIff(s: string)
    ensures FenceCount(s) == 0 <==> NoFenceFrom(s, 0)
  {
    FenceCountFromZero(s, 0);
  }

  /** Stretches of the text where the pattern does not match add nothing. */
  lemma {:induction false} FenceCountSkip(s: string, i: nat, m: nat)
    requires i <= m <= |s|
    requires forall j :: i <= j < m ==> FenceAt(s, j).None?
    ensures FenceCountFrom(s, i) == FenceCountFrom(s, m)
    decreases m - i
  {
    if i < m {
      FenceCountSkip(s, i + 1, m);
    }
  }

  /** A single fenced block followed by a newline is two matches: the bare
      closing fence matches the pattern as well as the opening one. */
  lemma OneBlockCountsTwice()
    ensures FenceCount("```py\nx\n```\n") == 2
  {
    var s := "```py\nx\n```\n";
    assert !IsWordChar(s[5]);
    assert FenceAt(s, 0) == Some(6);
    assert FenceAt(s, 6).None? && FenceAt(s, 7).None?;
    FenceCountSkip(s, 6, 8);
    assert FenceAt(s, 8) == Some(12);
  }

  const NoExamples := "No code examples found"

  /** `check_examples`: no match scores nothing, one or two matches score
      0.5 with an issue quoting the count, three or more score in full. */
  function CheckExamples(content: string): (r: CheckResult)
    ensures r.score <= ExamplesMax
    ensures var k := FenceCount(content);
      && (k == 0 ==> r == CheckResult(0, [NoExamples]))
      && (1 <= k <= 2 ==> r.score == 50 && |r.issues| == 1 && Quotes(r.issues[0], "Only ", k, " code examples (recommend 5+)"))
      && (k >= 3 ==> r == CheckResult(100, []))
  {
    var blocks := FenceCount(content);
    if blocks == 0 then CheckResult(0, [NoExamples])
    else if blocks < 3 then
      QuotesCount("Only ", blocks, " code examples (recommend 5+)");
      CheckResult(50, ["Only " + NatToString(blocks) + " code examples (recommend 5+)"])
    else CheckResult(100, [])
  }

  // ---------------------------------------------------------------------
  // Subtractive checks

  /** A running score that penalties lower, possibly below zero. */
  datatype Tally = Tally(points: int, issues: seq<string>)

  /** One penalty that subtracts `points` and reports `issue` when it fires. */
  function Penalize(t: Tally, fires: bool, points: nat, issue: string): Tally {
    if fires then Tally(t.points - points, t.issues + [issue]) else t
  }

  /** `max(score, 0.0)`. */
  function Floor(t: Tally): (r: CheckResult)
    ensures r.issues == t.issues
    ensures t.points >= 0 ==> r.score == t.points
    ensures t.points < 0 ==> r.score == 0
  {
    CheckResult(if t.points < 0 then 0 else t.points, t.issues)
  }

  // ---------------------------------------------------------------------
  // Structure (1.0 points)

  const MissingOverview := "Missing overview section"
  const MissingUsage := "Missing usage section"
  const WindowsPaths := "Contains Windows-style paths (use Unix /)"

  predicate HasOverview(c: string) {
    Contains(c, "## Overview") || Contains(c, "## What")
  }

  predicate HasUsage(c: string) {
    Contains(c, "## Usage") || Contains(c, "## How")
  }

  predicate HasWindowsPath(c: string) {
    '\\' in c && Contains(c, "C:\\")
  }

  /** The sum of the structure penalties that fire. */
  function StructurePenalty(c: string): nat {
    30 * Bit(!HasOverview(c)) + 30 * Bit(!HasUsage(c)) + 40 * Bit(HasWindowsPath(c))
  }

  /** `check_structure`: 1.0 minus every penalty that fires, floored at 0,
      with exactly one issue per penalty, in the order overview, usage,
      Windows paths. */
  function CheckStructure(c: string): (r: CheckResult)
    ensures r.score <= StructureMax
    ensures r.score == if StructurePenalty(c) >= 100 then 0 else 100 - StructurePenalty(c)
    ensures |r.issues| == Bit(!HasOverview(c)) + Bit(!HasUsage(c)) + Bit(HasWindowsPath(c))
    ensures MissingOverview in r.issues <==> !HasOverview(c)
    ensures MissingUsage in r.issues <==> !HasUsage(c)
    ensures WindowsPaths in r.issues <==> HasWindowsPath(c)
    ensures r.issues == Unless(HasOverview(c), MissingOverview) + Unless(HasUsage(c), MissingUsage)
                      + Unless(!HasWindowsPath(c), WindowsPaths)
  {
    var t0 := Tally(100, []);
    var t1 := Penalize(t0, !HasOverview(c), 30, MissingOverview);
    var t2 := Penalize(t1, !HasUsage(c), 30, MissingUsage);
    var t3 := Penalize(t2, HasWindowsPath(c), 40, WindowsPaths);
    Floor(t3)
  }

  /** The backslash test adds nothing: "C:\" already contains one. */
  lemma WindowsPathIsDrivePrefix(c: string)
    ensures HasWindowsPath(c) <==> Contains(c, "C:\\")
  {
    if Contains(c, "C:\\") {
      var i :| 0 <= i <= |c| - 3 && MatchesAt(c, "C:\\", i);
      assert c[i + 2] == c[i..i + 3][2];
    }
  }

  // ---------------------------------------------------------------------
  // Anti-patterns (1.0 points)

  /** The time-sensitive patterns, in the order they are tried. */
  datatype TimePattern = IsoDate | LastUpdated | AsOfYear

  const TimePatterns: seq<TimePattern> := [IsoDate, LastUpdated, AsOfYear]

  /** `re.IGNORECASE` equivalence of an input character with a lower-case
      pattern character: the character itself, its ASCII upper case, and
      for `s` also U+017F LATIN SMALL LETTER LONG S. */
  predicate FoldsTo(c: char, p: char) {
    || c == p
    || ('a' <= p <= 'z' && c as int == p as int - 32)
    || (p == 's' && c as int == 0x17F)
  }

  /** The lower-case pattern `pat` matches `s` at `i`, ignoring case. */
  predicate MatchesAtIgnoreCase(s: string, pat: string, i: int) {
    0 <= i && i + |pat| <= |s| && forall j :: 0 <= j < |pat| ==> FoldsTo(s[i + j], pat[j])
  }

  /** `n` consecutive `\d` characters start at `i`. */
  predicate DigitsAt(s: string, i: int, n: nat) {
    0 <= i && i + n <= |s| && forall j :: i <= j < i + n ==> IsDigit(s[j])
  }

  /** The pattern `p` matches `s` at index `i`. */
  predicate PatternAt(p: TimePattern, s: string, i: int) {
    match p
    case IsoDate =>
      DigitsAt(s, i, 4) && DigitsAt(s, i + 5, 2) && DigitsAt(s, i + 8, 2) && s[i + 4] == '-' && s[i + 7] == '-'
    case LastUpdated => MatchesAtIgnoreCase(s, "last updated", i)
    case AsOfYear => MatchesAtIgnoreCase(s, "as of ", i) && DigitsAt(s, i + 6, 4)
  }

  /** `re.search(p, s, re.IGNORECASE)` succeeds. */
  predicate Found(p: TimePattern, s: string) {
    exists i | 0 <= i <= |s| :: PatternAt(p, s, i)
  }

  /** The loop over the time patterns, which stops at the first one found. */
  function FirstFound(pats: seq<TimePattern>, s: string): (r: Option<TimePattern>)
    ensures r.None? <==> forall p :: p in pats ==> !Found(p, s)
    ensures r.Some? ==> r.value in pats && Found(r.value, s)
  {
    if |pats| == 0 then None
    else if Found(pats[0], s) then Some(pats[0])
    else FirstFound(pats[1..], s)
  }

  predicate TimeSensitive(c: string) {
    Found(IsoDate, c) || Found(LastUpdated, c) || Found(AsOfYear, c)
  }

  /** `content.count('skill') + content.count('Skill') > 0`. */
  predicate MentionsSkill(c: string) {
    Count(c, "skill") + Count(c, "Skill") > 0
  }

  /** `content.count('plugin') + content.count('Plugin') > 0`. */
  predicate MentionsPlugin(c: string) {
    Count(c, "plugin") + Count(c, "Plugin") > 0
  }

  const TimeIssue := "Contains time-sensitive information"
  const TermIssue := "Inconsistent terminology (skill vs plugin)"

  /** `check_antipatterns`: the time-sensitivity penalty fires at most once
      however many patterns match, the terminology penalty fires on its own,
      and the two stack down to 0. */
  function CheckAntiPatterns(c: string): (r: CheckResult)
    ensures r.score <= AntiPatternsMax
    ensures r.score == 100 - 50 * Bit(TimeSensitive(c)) - 50 * Bit(MentionsSkill(c) && MentionsPlugin(c))
    ensures r.issues == (if TimeSensitive(c) then [TimeIssue] else [])
                      + (if MentionsSkill(c) && MentionsPlugin(c) then [TermIssue] else [])
  {
    var t0 := Tally(100, []);
    var t1 := Penalize(t0, FirstFound(TimePatterns, c).Some?, 50, TimeIssue);
    var t2 := Penalize(t1, MentionsSkill(c) && MentionsPlugin(c), 50, TermIssue);
    Floor(t2)
  }

  /** The terminology test is a plain co-occurrence test of the four words. */
  lemma TerminologyIff(c: string)
    ensures MentionsSkill(c) && MentionsPlugin(c)
        <==> (Contains(c, "skill") || Contains(c, "Skill")) && (Contains(c, "plugin") || Contains(c, "Plugin"))
  {
    CountPositiveIffContains(c, "skill");
    CountPositiveIffContains(c, "Skill");
    CountPositiveIffContains(c, "plugin");
    CountPositiveIffContains(c, "Plugin");
  }
}
