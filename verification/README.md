# Skill quality scoring, modelled in Dafny

This project models the scoring engine of the skill quality checker
(`skill-factory/skill/scripts/quality-check.py`). The checker reads a
`SKILL.md` document and returns two things:

- a score out of 10;
- an ordered list of issues, each prefixed with the name of the check that raised it.

The model covers the whole pure part of that pipeline:

- `parse_frontmatter`: the leading `---` block and its `key: value` lines
  (`frontmatter.dfy`, module `Frontmatter`).
- The six checks (`checks.dfy`, module `Checks`):
  - description, 2.0 points;
  - name, 0.5;
  - conciseness, 1.5;
  - code examples, 1.0;
  - structure, 1.0;
  - anti-patterns, 1.0.
- The aggregation in `score_skill` (`scoring.dfy`, module `Scoring`):
  - the checks run in a fixed order;
  - their scores are summed, and a fixed 3.0 is added for criteria the checker does not inspect;
  - the issues are labelled with the check's name;
  - the total is rounded to one decimal and compared with 8.0 for the pass gate.
- The Python string built-ins those rely on (`text.dfy`, module `Text`):
  - `str.isspace` / `\s`, `strip`, ASCII `lower`;
  - substring `in` and `str.count`;
  - `split` on one character;
  - the decimal rendering of a count inside an issue message.

Scores are exact integers in hundredths of a point: every partial score in the
checker is a multiple of 0.05. The unrounded total therefore lies in
`[300, 1000]`.

Regular expressions are modelled by hand-written scanners that follow the
matching rules of Python's `re`:

- **The frontmatter delimiter** `^---\s*\n(.*?)\n---\s*\n`, with `DOTALL`, is
  modelled with its backtracking order:
  - the greedy `\s*` after the opening `---` tries the longest run first and
    gives back one character at a time;
  - for each opening, the lazy interior stops at the first closing.
  - `Frontmatter.MatchBlock` states both halves of that priority.
- **The fence pattern** ```` ```[\w]*\n ```` is counted the way `re.findall`
  counts it: non-overlapping matches, scanned from the left. A bare closing
  fence followed by a newline matches as well. A document with one fenced
  block therefore has a count of 2 (`Checks.OneBlockCountsTwice`).
- **The three time-sensitive patterns** are matched case-insensitively:
  - ASCII case folding is used;
  - `s` also matches U+017F, as Python's `re.IGNORECASE` does.

The empty document scores 5.9 and yields five issues:

- "Missing description";
- "Missing name";
- "No code examples found";
- both structure headings, "Missing overview section" and "Missing usage section".

`Scoring.EmptyDocument` states the exact report.

## Model

| member | source | states |
|---|---|---|
| Text.LowerFixedPoint | skill-factory/skill/scripts/quality-check.py:63 | a string equals its lower-case form exactly when it has no upper-case letter; lowering is idempotent |
| Text.ContainsChar | skill-factory/skill/scripts/quality-check.py:63 | substring containment of a one-character string is membership of that character |
| Text.CountPositiveIffContains | skill-factory/skill/scripts/quality-check.py:142-143 | `str.count(pat) > 0` holds exactly when `pat` occurs in the text |
| Text.CountCharIsMultiplicity | skill-factory/skill/scripts/quality-check.py:79 | counting a one-character pattern gives the number of occurrences of that character |
| Text.IndexOf | skill-factory/skill/scripts/quality-check.py:159 | the index `split(':', 1)` cuts at: absent exactly when the character is absent, otherwise its first occurrence |
| Text.SplitJoin | skill-factory/skill/scripts/quality-check.py:157 | splitting on newlines loses nothing (joining the pieces gives the text back) and no piece contains a newline |
| Text.TrimStartSpec | skill-factory/skill/scripts/quality-check.py:160 | left stripping keeps a suffix, drops only white space, and leaves no leading white space |
| Text.TrimEndSpec | skill-factory/skill/scripts/quality-check.py:160 | right stripping keeps a prefix, drops only white space, and leaves no trailing white space |
| Text.StripSpec | skill-factory/skill/scripts/quality-check.py:160 | `strip()` keeps a window of the text, everything outside it is white space, and neither end of the result is white space |
| Text.StripIdempotent | skill-factory/skill/scripts/quality-check.py:160 | stripping a stripped key or value changes nothing |
| Text.NatToString | skill-factory/skill/scripts/quality-check.py:86-88 | the count printed into an issue is a non-empty run of decimal digits with no leading zero |
| Text.NatToStringRoundTrip | skill-factory/skill/scripts/quality-check.py:86-88 | the printed count reads back as the count itself |
| Frontmatter.FirstClose | skill-factory/skill/scripts/quality-check.py:152 | the lazy interior ends at the first place the closing `\n---\s*\n` matches, or nowhere if it never does |
| Frontmatter.OpenFrom | skill-factory/skill/scripts/quality-check.py:152 | trying the openings from the longest down finds the longest one that has any closing, with its first closing |
| Frontmatter.MatchBlock | skill-factory/skill/scripts/quality-check.py:152-154 | no match exactly when no opening is ever closed; a match is an opening, its first closing, and no longer opening has a closing; a text not starting with `---` never matches |
| Frontmatter.ParseFrontmatter | skill-factory/skill/scripts/quality-check.py:153-154 | without a block the map is empty |
| Frontmatter.SplitAtFirstColon | skill-factory/skill/scripts/quality-check.py:158-160 | a line splits at its first colon only: the key is the stripped text before it, the value the stripped rest, colons included |
| Frontmatter.ParseLinesKeys | skill-factory/skill/scripts/quality-check.py:157-160 | a key is in the map exactly when some line with a colon has that key; colon-less lines are ignored |
| Frontmatter.ParseLinesLastWins | skill-factory/skill/scripts/quality-check.py:156-160 | a key maps to the value of the last line that sets it |
| Frontmatter.FrontmatterKeys | skill-factory/skill/scripts/quality-check.py:150-162 | every key of the parsed map implies a block exists and comes from a line of its interior, with that line's value |
| Checks.QuotesCount | skill-factory/skill/scripts/quality-check.py:86-88 | an issue message built by interpolating a count is the fixed prefix, digits without a leading zero that read back as that count, and the fixed suffix |
| Checks.CheckDescription | skill-factory/skill/scripts/quality-check.py:12-48 | missing or empty description gives exactly (0, ["Missing description"]); otherwise the score is 0.5 per passing sub-check, at most 2.0, passes plus issues is 4, each issue appears exactly when its sub-check fails, and the issue list is the failing sub-checks' messages in the order length, vagueness, "when", person |
| Checks.ThirdPersonIgnoresYour | skill-factory/skill/scripts/quality-check.py:43 | the word "your" never decides the third-person test, because any text containing it contains "you" |
| Checks.CheckName | skill-factory/skill/scripts/quality-check.py:51-74 | missing name gives exactly (0, ["Missing name"]); otherwise 0.25 per passing sub-check, at most 0.5, passes plus issues is 2, each issue exactly when its sub-check fails, convention issue before genericity issue |
| Checks.ConventionalIff | skill-factory/skill/scripts/quality-check.py:63 | the naming convention holds exactly when the name has no upper-case letter and contains a hyphen |
| Checks.CheckConciseness | skill-factory/skill/scripts/quality-check.py:77-88 | 1.5 below 300 newlines, 1.0 below 500, 0.5 below 800, 0 otherwise (each an if-and-only-if); an issue appears exactly from 500 on, and its text quotes the count with the "recommend" or "way over" wording by range |
| Checks.LineCountIsNewlines | skill-factory/skill/scripts/quality-check.py:79 | the line count is the number of newline characters in the document |
| Checks.ConcisenessMonotone | skill-factory/skill/scripts/quality-check.py:81-88 | a document with more newlines never scores higher on conciseness |
| Checks.FenceAt | skill-factory/skill/scripts/quality-check.py:93 | the fence pattern matches at an index exactly when a fence span starts there, and the match ends where that span ends |
| Checks.FenceCountFrom | skill-factory/skill/scripts/quality-check.py:93 | the number of non-overlapping matches is at most a quarter of the remaining length |
| Checks.FenceCountZeroIff | skill-factory/skill/scripts/quality-check.py:93-98 | the count is zero exactly when the pattern matches nowhere |
| Checks.FenceCountSkip | skill-factory/skill/scripts/quality-check.py:93 | a stretch with no match adds nothing to the count |
| Checks.OneBlockCountsTwice | skill-factory/skill/scripts/quality-check.py:93 | a single fenced block followed by a newline counts as two matches |
| Checks.CheckExamples | skill-factory/skill/scripts/quality-check.py:91-103 | no match gives (0, ["No code examples found"]); one or two give 0.5 and one issue whose text quotes the count; three or more give (1.0, []) |
| Checks.Floor | skill-factory/skill/scripts/quality-check.py:125 | `max(score, 0.0)` keeps the issues and floors a negative score at 0 |
| Checks.CheckStructure | skill-factory/skill/scripts/quality-check.py:106-125 | the score is 1.0 minus the penalties that fire, floored at 0; one issue per penalty, each present exactly when its condition holds, listed in the order overview, usage, Windows paths |
| Checks.WindowsPathIsDrivePrefix | skill-factory/skill/scripts/quality-check.py:121 | the Windows-path penalty fires exactly when `C:\` occurs; the backslash test is implied |
| Checks.FirstFound | skill-factory/skill/scripts/quality-check.py:134-139 | the loop with `break` finds a pattern exactly when some pattern matches, and what it finds matches |
| Checks.CheckAntiPatterns | skill-factory/skill/scripts/quality-check.py:128-147 | the time penalty fires at most once, the terminology penalty independently, and they stack: score and issue list given exactly by the two conditions |
| Checks.TerminologyIff | skill-factory/skill/scripts/quality-check.py:142-143 | the count-based terminology test is the co-occurrence of "skill"/"Skill" with "plugin"/"Plugin" |
| Scoring.Run | skill-factory/skill/scripts/quality-check.py:180-190 | each check stays within its weight |
| Scoring.Prefixed | skill-factory/skill/scripts/quality-check.py:193 | labelling keeps the number of issues and puts "<name>: " before each, in order |
| Scoring.CollectBounded | skill-factory/skill/scripts/quality-check.py:189-191 | when every check stays within its weight, the loop's sum stays within the sum of the weights |
| Scoring.CollectInOrder | skill-factory/skill/scripts/quality-check.py:180-193 | the loop over the fixed order is the six checks' scores summed and their labelled issues concatenated in the order Description, Name, Conciseness, Examples, Structure, Anti-patterns |
| Scoring.WeightsSumToTen | skill-factory/skill/scripts/quality-check.py:195-200 | the six weights and the fixed bonus sum to 10.0 |
| Scoring.ScoreWith | skill-factory/skill/scripts/quality-check.py:176-200 | the unrounded total lies between 3.0 and 10.0 |
| Scoring.ScoreWithParts | skill-factory/skill/scripts/quality-check.py:176-200 | the total is the six scores plus 3.0; the issues are the six labelled lists in check order; their number is the sum of the per-check counts |
| Scoring.ScoreContent | skill-factory/skill/scripts/quality-check.py:174-200 | the unrounded total of any document lies between 3.0 and 10.0 |
| Scoring.IssuesAreLabelled | skill-factory/skill/scripts/quality-check.py:189-193 | every reported issue starts with the name of one of the six checks |
| Scoring.RoundToTenths | skill-factory/skill/scripts/quality-check.py:202 | the rounded score is within half a tenth of the exact total, and a tie goes to the even tenth |
| Scoring.RoundingIsUnique | skill-factory/skill/scripts/quality-check.py:202 | that rounding property determines the rounded score |
| Scoring.Score | skill-factory/skill/scripts/quality-check.py:202 | the returned score lies between 3.0 and 10.0 |
| Scoring.PassesIff | skill-factory/skill/scripts/quality-check.py:220 | a document passes the `>= 8.0` gate exactly when its exact total is at least 7.95 |
| Scoring.NoFrontmatterNeverPasses | skill-factory/skill/scripts/quality-check.py:153-154 | without a frontmatter block the total is at most 7.5, so the document never passes |
| Scoring.EmptyDocument | skill-factory/skill/scripts/quality-check.py:174-202 | the empty document totals 5.9 with exactly five labelled issues, and fails the gate |

## Left out

- File handling in `score_skill` (lines 167-172) is left out: the existence check, the error exit and reading the file. The model starts from the text that was read.
- Universal-newline translation is left out. Python's text-mode `open` converts `\r\n` and `\r` to `\n` before the text reaches the checks; the model takes the text as already translated.
- The command-line entry point (lines 205-220) is left out: argument check, printing and exit code. Only the `>= 8.0` gate is kept, as `Scoring.Passes`.
- Scoring.RoundToTenths: models exact round-half-even on the exact total, not Python's `round` on a float sum. The two can differ only on totals ending in 5 hundredths, which are exactly the documents whose name check awards 0.25 (every other partial score is a multiple of 0.1). When Structure scores 1.0 or 0.0, every partial score is a multiple of 0.25, the float total is an exact binary tie, and Python rounds it to even as the model does. When Structure scores 0.7, 0.6, 0.4 or 0.3, the float sum is inexact (1.0 - 0.3 - 0.3 is 0.39999999999999997) and may round the other way. At the pass boundary 7.95 every reachable float total rounds to 8.0, so `Scoring.PassesIff` and `Scoring.Passes` agree with the source's gate.
- `\w`, `\d` and `str.lower()` are restricted to ASCII. Python applies them to all of Unicode; non-ASCII letters and digits are treated as neither here.
- The frontmatter values are strings only. The checker never interprets YAML beyond `key: value` lines, and neither does the model.
- `scripts/sync-marketplace.mjs` is not part of this model: it is JSON file reading and writing.
- `scripts/validate-all.mjs` is not part of this model: it is directory listing and spawning processes.
