/**
 The aggregation of `score_skill`: the frontmatter is parsed once, the six
 checks run in a fixed order, their scores are summed with a fixed bonus of
 3.0, and their issues are labelled with the check's name and concatenated.
 Totals are exact, in hundredths of a point.
 */
module Scoring {
  import opened Text
  import opened Frontmatter
  import opened Checks

  /** The six checks, in the order they run. */
  datatype Check = Description | Name | Conciseness | Examples | Structure | AntiPatterns

  const CheckOrder: seq<Check> := [Description, Name, Conciseness, Examples, Structure, AntiPatterns]

  /** The title that prefixes the check's issues. */
  function Label(c: Check): string {
    match c
    case Description => "Description"
    case Name => "Name"
    case Conciseness => "Conciseness"
    case Examples => "Examples"
    case Structure => "Structure"
    case AntiPatterns => "Anti-patterns"
  }

  function MaxWeight(c: Check): nat {
    match c
    case Description => DescriptionMax
    case Name => NameMax
    case Conciseness => ConcisenessMax
    case Examples => ExamplesMax
    case Structure => StructureMax
    case AntiPatterns => AntiPatternsMax
  }

  /** Runs one check on its input: the frontmatter for Description and Name,
      the raw text for the others. */
  function Run(c: Check, fm: Mapping, content: string): (r: CheckResult)
    ensures r.score <= MaxWeight(c)
  {
    match c
    case Description => CheckDescription(fm)
    case Name => CheckName(fm)
    case Conciseness => CheckConciseness(content)
    case Examples => CheckExamples(content)
    case Structure => CheckStructure(content)
    case AntiPatterns => CheckAntiPatterns(content)
  }

  // The fixed credit for criteria the checker does not inspect, in hundredths.
  const ProgressiveDisclosure: nat := 100
  const DegreeOfFreedom: nat := 50
  const Dependencies: nat := 50
  const ErrorHandling: nat := 50
  const Testing: nat := 50
  const FixedBonus: nat := ProgressiveDisclosure + DegreeOfFreedom + Dependencies + ErrorHandling + Testing

  /** The unrounded total in hundredths and the labelled issues. */
  datatype Report = Report(total: nat, issues: seq<string>)

  /** `[f"{name}: {issue}" for issue in issues]`. */
  function Prefixed(title: string, issues: seq<string>): (r: seq<string>)
    ensures |r| == |issues|
    ensures forall i :: 0 <= i < |issues| ==> r[i] == title + ": " + issues[i]
  {
    if |issues| == 0 then [] else [title + ": " + issues[0]] + Prefixed(title, issues[1..])
  }

  /** The loop over the checks, given what each check returns: each score
      added to the running total, each check's labelled issues appended after
      those of the checks before it. */
  function Collect(checks: seq<Check>, result: Check -> CheckResult): Report
    decreases |checks|
  {
    if |checks| == 0 then Report(0, [])
    else
      var acc := Collect(checks[..|checks| - 1], result);
      var c := checks[|checks| - 1];
      Report(acc.total + result(c).score, acc.issues + Prefixed(Label(c), result(c).issues))
  }

  /** The sum of the maximum weights of `checks`. */
  function MaxTotal(checks: seq<Check>): nat {
    if |checks| == 0 then 0 else MaxTotal(checks[..|checks| - 1]) + MaxWeight(checks[|checks| - 1])
  }

  /** When every check stays within its weight, so does their sum. */
  lemma {:induction false} CollectBounded(checks: seq<Check>, result: Check -> CheckResult)
    requires forall c :: result(c).score <= MaxWeight(c)
    ensures Collect(checks, result).total <= MaxTotal(checks)
    decreases |checks|
  {
    if |checks| > 0 {
      CollectBounded(checks[..|checks| - 1], result);
    }
  }

  /** One more turn of the loop. */
  lemma CollectSnoc(checks: seq<Check>, c: Check, result: Check -> CheckResult)
    ensures Collect(checks + [c], result)
         == Report(Collect(checks, result).total + result(c).score,
                   Collect(checks, result).issues + Prefixed(Label(c), result(c).issues))
  {
    assert (checks + [c])[..|checks|] == checks;
  }

  lemma MaxTotalSnoc(checks: seq<Check>, c: Check)
    ensures MaxTotal(checks + [c]) == MaxTotal(checks) + MaxWeight(c)
  {
    assert (checks + [c])[..|checks|] == checks;
  }

  /** The six weights and the fixed bonus add up to ten points. */
  lemma WeightsSumToTen()
    ensures MaxTotal(CheckOrder) + FixedBonus == 1000
  {
    var o0: seq<Check> := [];
    MaxTotalSnoc(o0, Description);
    MaxTotalSnoc(o0 + [Description], Name);
    MaxTotalSnoc(o0 + [Description, Name], Conciseness);
    MaxTotalSnoc(o0 + [Description, Name, Conciseness], Examples);
    MaxTotalSnoc(o0 + [Description, Name, Conciseness, Examples], Structure);
    MaxTotalSnoc(o0 + [Description, Name, Conciseness, Examples, Structure], AntiPatterns);
    assert o0 + [Description] + [Name] == o0 + [Description, Name];
    assert o0 + [Description, Name] + [Conciseness] == o0 + [Description, Name, Conciseness];
    assert o0 + [Description, Name, Conciseness] + [Examples] == o0 + [Description, Name, Conciseness, Examples];
    assert o0 + [Description, Name, Conciseness, Examples] + [Structure]
        == o0 + [Description, Name, Conciseness, Examples, Structure];
    assert o0 + [Description, Name, Conciseness, Examples, Structure] + [AntiPatterns] == CheckOrder;
  }

  /** The loop over the fixed order is the six checks one after the other. */
  lemma CollectInOrder(result: Check -> CheckResult)
    ensures var r := Collect(CheckOrder, result);
      var d := result(Description);
      var n := result(Name);
      var c := result(Conciseness);
      var e := result(Examples);
      var s := result(Structure);
      var a := result(AntiPatterns);
      && r.total == d.score + n.score + c.score + e.score + s.score + a.score
      && r.issues == Prefixed("Description", d.issues) + Prefixed("Name", n.issues)
                     + Prefixed("Conciseness", c.issues) + Prefixed("Examples", e.issues)
                     + Prefixed("Structure", s.issues) + Prefixed("Anti-patterns", a.issues)
  {
    var o0: seq<Check> := [];
    var o1 := o0 + [Description];
    var o2 := o1 + [Name];
    var o3 := o2 + [Conciseness];
    var o4 := o3 + [Examples];
    var o5 := o4 + [Structure];
    assert o5 + [AntiPatterns] == CheckOrder;
    CollectSnoc(o0, Description, result);
    CollectSnoc(o1, Name, result);
    CollectSnoc(o2, Conciseness, result);
    CollectSnoc(o3, Examples, result);
    CollectSnoc(o4, Structure, result);
    CollectSnoc(o5, AntiPatterns, result);
    assert Collect(o1, result).issues == Prefixed("Description", result(Description).issues);
  }

  /** What every check returns for this frontmatter and text. */
  function Results(fm: Mapping, content: string): Check -> CheckResult {
    c => Run(c, fm, content)
  }

  /** The loop of `score_skill` and the fixed 3.0, for a given frontmatter:
      never less than the bonus, never more than ten points. */
  function ScoreWith(fm: Mapping, content: string): (r: Report)
    ensures 300 <= r.total <= 1000
  {
    var checked := Collect(CheckOrder, Results(fm, content));
    CollectBounded(CheckOrder, Results(fm, content));
    WeightsSumToTen();
    Report(checked.total + ProgressiveDisclosure + DegreeOfFreedom + Dependencies + ErrorHandling + Testing,
           checked.issues)
  }

  /** The total is the sum of the six check scores plus the bonus, and the
      issues are every check's issues labelled with its name, in check order. */
  lemma ScoreWithParts(fm: Mapping, content: string)
    ensures var r := ScoreWith(fm, content);
      var d := CheckDescription(fm);
      var n := CheckName(fm);
      var c := CheckConciseness(content);
      var e := CheckExamples(content);
      var s := CheckStructure(content);
      var a := CheckAntiPatterns(content);
      && r.total == d.score + n.score + c.score + e.score + s.score + a.score + 300
      && r.issues == Prefixed("Description", d.issues) + Prefixed("Name", n.issues)
                     + Prefixed("Conciseness", c.issues) + Prefixed("Examples", e.issues)
                     + Prefixed("Structure", s.issues) + Prefixed("Anti-patterns", a.issues)
      && |r.issues| == |d.issues| + |n.issues| + |c.issues| + |e.issues| + |s.issues| + |a.issues|
  {
    CollectInOrder(Results(fm, content));
    FrontmatterResults(fm, content);
    TextResults(fm, content);
  }

  /** The loop's view of each check is the check itself. */
  lemma FrontmatterResults(fm: Mapping, content: string)
    ensures Results(fm, content)(Description) == CheckDescription(fm)
    ensures Results(fm, content)(Name) == CheckName(fm)
  {
  }

  lemma TextResults(fm: Mapping, content: string)
    ensures Results(fm, content)(Conciseness) == CheckConciseness(content)
    ensures Results(fm, content)(Examples) == CheckExamples(content)
    ensures Results(fm, content)(Structure) == CheckStructure(content)
    ensures Results(fm, content)(AntiPatterns) == CheckAntiPatterns(content)
  {
  }

  /** `score_skill` without its file access and before rounding: the
      frontmatter is parsed once and shared by the Description and Name
      checks. */
  function ScoreContent(content: string): (r: Report)
    ensures 300 <= r.total <= 1000
  {
    ScoreWith(ParseFrontmatter(content), content)
  }

  /** The issue reads `"<title>: ..."`. */
  predicate Labelled(issue: string, title: string) {
    |title| + 2 <= |issue| && issue[..|title| + 2] == title + ": "
  }

  /** Every issue carries the title of one of `checks`. */
  ghost predicate AllLabelled(issues: seq<string>, checks: seq<Check>) {
    forall i :: 0 <= i < |issues| ==> exists c :: c in checks && Labelled(issues[i], Label(c))
  }

  lemma LabelledPrefixed(title: string, issues: seq<string>, i: int)
    requires 0 <= i < |issues|
    ensures Labelled(Prefixed(title, issues)[i], title)
  {
    var s := Prefixed(title, issues)[i];
    assert s == (title + ": ") + issues[i];
  }

  /** Every issue the loop collects carries the title of one of the checks
      it ran. */
  lemma {:induction false} CollectLabelled(checks: seq<Check>, result: Check -> CheckResult)
    ensures AllLabelled(Collect(checks, result).issues, checks)
    decreases |checks|
  {
    if |checks| > 0 {
      var n := |checks| - 1;
      var init := checks[..n];
      var acc := Collect(init, result).issues;
      var c := checks[n];
      var tail := Prefixed(Label(c), result(c).issues);
      var issues := Collect(checks, result).issues;
      CollectLabelled(init, result);
      assert issues == acc + tail;
      forall i | 0 <= i < |issues|
        ensures exists c' :: c' in checks && Labelled(issues[i], Label(c'))
      {
        if i < |acc| {
          assert issues[i] == acc[i];
          var c' :| c' in init && Labelled(acc[i], Label(c'));
          assert c' in checks;
        } else {
          LabelledPrefixed(Label(c), result(c).issues, i - |acc|);
          assert issues[i] == tail[i - |acc|];
        }
      }
    }
  }

  /** Every issue of the report names the check that raised it. */
  lemma IssuesAreLabelled(content: string)
    ensures AllLabelled(ScoreContent(content).issues, CheckOrder)
  {
    CollectLabelled(CheckOrder, Results(ParseFrontmatter(content), content));
  }

  // ---------------------------------------------------------------------
  // Rounding and the pass gate

  /** `round(total, 1)` on the exact total: the nearest tenth, a tie going
      to the even tenth. The result is in tenths of a point. */
  function RoundToTenths(h: nat): (t: nat)
    ensures -5 <= h - 10 * t <= 5
    ensures h - 10 * t == 5 || h - 10 * t == -5 ==> t % 2 == 0
  {
    var q := h / 10;
    var rem := h % 10;
    if rem < 5 then q
    else if rem > 5 then q + 1
    else if q % 2 == 0 then q
    else q + 1
  }

  /** The rounding contract determines the rounded value: any tenth within
      half a tenth of the total, even on a tie, is the one computed. */
  lemma RoundingIsUnique(h: nat, t: nat)
    requires -5 <= h - 10 * t <= 5
    requires h - 10 * t == 5 || h - 10 * t == -5 ==> t % 2 == 0
    ensures t == RoundToTenths(h)
  {
  }

  /** The score `score_skill` returns, in tenths of a point. */
  function Score(content: string): (t: nat)
    ensures 30 <= t <= 100
  {
    RoundToTenths(ScoreContent(content).total)
  }

  /** The exit-code gate `score >= 8.0`. */
  predicate Passes(content: string) {
    Score(content) >= 80
  }

  /** A document passes exactly when its exact total reaches 7.95. */
  lemma PassesIff(content: string)
    ensures Passes(content) <==> ScoreContent(content).total >= 795
  {
    var h := ScoreContent(content).total;
    assert Score(content) == RoundToTenths(h);
    RoundPassIff(h);
  }

  /** A total rounds to 8.0 or more exactly when it is at least 7.95. */
  lemma RoundPassIff(h: nat)
    ensures RoundToTenths(h) >= 80 <==> h >= 795
  {
  }

  /** Without a frontmatter block the description and name earn nothing, so
      the total is at most 7.5 and the document cannot pass. */
  lemma NoFrontmatterNeverPasses(content: string)
    requires MatchBlock(content).None?
    ensures ScoreContent(content).total <= 750
    ensures !Passes(content)
  {
    ScoreWithParts(map[], content);
    PassesIff(content);
  }

  /** What each check says about the empty document. */
  lemma EmptyChecks()
    ensures ParseFrontmatter("") == map[]
    ensures CheckDescription(map[]) == CheckResult(0, [MissingDescription])
    ensures CheckName(map[]) == CheckResult(0, [MissingName])
    ensures CheckConciseness("") == CheckResult(150, [])
    ensures CheckExamples("") == CheckResult(0, [NoExamples])
    ensures CheckStructure("") == CheckResult(40, [MissingOverview, MissingUsage])
    ensures CheckAntiPatterns("") == CheckResult(100, [])
  {
    assert LineCount("") == 0;
    assert FenceCount("") == 0;
    assert !HasOverview("") && !HasUsage("") && !HasWindowsPath("");
    assert !TimeSensitive("") && !MentionsSkill("");
  }

  /** Labelling one or two issues. */
  lemma PrefixedPair(title: string, m1: string, m2: string)
    ensures Prefixed(title, [m1]) == [title + ": " + m1]
    ensures Prefixed(title, [m1, m2]) == [title + ": " + m1, title + ": " + m2]
  {
  }

  /** The labelled issues of the empty document. */
  lemma EmptyIssues()
    ensures Prefixed("Description", [MissingDescription]) == ["Description: Missing description"]
    ensures Prefixed("Name", [MissingName]) == ["Name: Missing name"]
    ensures Prefixed("Examples", [NoExamples]) == ["Examples: No code examples found"]
    ensures Prefixed("Structure", [MissingOverview, MissingUsage])
         == ["Structure: Missing overview section", "Structure: Missing usage section"]
  {
    PrefixedPair("Description", MissingDescription, "");
    PrefixedPair("Name", MissingName, "");
    PrefixedPair("Examples", NoExamples, "");
    PrefixedPair("Structure", MissingOverview, MissingUsage);
    DescriptionIssueText();
    NameIssueText();
    ExamplesIssueText();
    OverviewIssueText();
    UsageIssueText();
  }

  // The labelled messages, spelled out, one lemma each.
  lemma DescriptionIssueText() ensures "Description" + ": " + MissingDescription == "Description: Missing description" {}
  lemma NameIssueText() ensures "Name" + ": " + MissingName == "Name: Missing name" {}
  lemma ExamplesIssueText() ensures "Examples" + ": " + NoExamples == "Examples: No code examples found" {}
  lemma OverviewIssueText() ensures "Structure" + ": " + MissingOverview == "Structure: Missing overview section" {}
  lemma UsageIssueText() ensures "Structure" + ": " + MissingUsage == "Structure: Missing usage section" {}

  /** The five labelled issues of the empty document, in order. */
  const EmptyDocumentIssues: seq<string> := [
    "Description: Missing description",
    "Name: Missing name",
    "Examples: No code examples found",
    "Structure: Missing overview section",
    "Structure: Missing usage section"]

  /** The unrounded report of a document with no frontmatter and no text. */
  lemma EmptyReport()
    ensures ScoreWith(map[], "") == Report(590, EmptyDocumentIssues)
  {
    EmptyChecks();
    ScoreWithParts(map[], "");
    var r := ScoreWith(map[], "");
    EmptyReportIssues(r.issues);
  }

  /** The six labelled issue lists of the empty document, joined. */
  lemma EmptyReportIssues(issues: seq<string>)
    requires issues == Prefixed("Description", [MissingDescription]) + Prefixed("Name", [MissingName])
                       + Prefixed("Conciseness", []) + Prefixed("Examples", [NoExamples])
                       + Prefixed("Structure", [MissingOverview, MissingUsage]) + Prefixed("Anti-patterns", [])
    ensures issues == EmptyDocumentIssues
  {
    EmptyIssues();
    assert issues == ["Description: Missing description", "Name: Missing name"] + []
                     + ["Examples: No code examples found"]
                     + ["Structure: Missing overview section", "Structure: Missing usage section"] + [];
  }

  /** The empty document: 0 + 0 + 1.5 + 0 + 0.4 + 1.0 + 3.0 = 5.9, with five
      issues, because both heading penalties of Structure fire. */
  lemma EmptyDocument()
    ensures ScoreContent("") == Report(590, EmptyDocumentIssues)
    ensures Score("") == 59 && !Passes("")
  {
    EmptyChecks();
    EmptyReport();
    RoundPassIff(590);
  }
}
