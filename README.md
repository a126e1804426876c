# Resume parser — keyword scoring core in Dafny

The resume parser turns the lower-cased text of an uploaded PDF into a
result record: the candidate's name and email, the professional domain the
resume most resembles, the five most frequent vocabulary skills, and a score
out of 100 with its breakdown by rubric category. This project models that
core once the text is in hand, together with the upload filter that admits
only `.pdf` files.

- `text.dfy` (module `Text`): the Python string primitives the parser relies
  on. These are ASCII `lower`, substring `in`, `str.count` (non-overlapping,
  left to right), `strip`, `split()` and `splitlines`.
- `tables.dfy` (module `Tables`): `SKILL_KEYWORDS`, `DOMAIN_ROLES` (an
  ordered sequence, in the dictionary's insertion order) and
  `SCORE_DISTRIBUTION_BY_DOMAIN` (one rubric map per domain). Rubric keys are
  the enum `Category`, and `Category.Key()` gives the source's key strings.
- `skills.dfy` (module `SkillMatcher`): the presence list of vocabulary terms
  found in the text, the `Counter` of their counts, and `most_common(5)` as a
  stable descending ranking cut to five.
- `domains.dfy` (module `DomainPredictor`): `predict_role` as a method with
  its loops. It is proved equal to a specification that scores every domain
  and takes the first maximum.
- `scoring.dfy` (module `CategoryScorer`): `score_and_extract_skills`. The
  chain of twelve `if` branches is a fold over the branches in source order.
  Each branch contributes an entry when the rubric lists its category.
- `contact.dfy` (module `Contact`): `extract_name_email`, a method with its
  two search loops, proved against the leftmost-match reading of the email
  pattern and the first-fit reading of the name heuristics.
- `upload.dfy` (module `Upload`): `allowed_file`.
- `pipeline.dfy` (module `Pipeline`): the part of `process_resume` between
  text extraction and saving.

Two facts of the scoring code are worth knowing:

- The floor value 5 applies only to the trigger-phrase categories. With no
  vocabulary match, the count-based categories `skills`, `cad_skills` and
  `legal_skills` score `min(weight, 0)`, which is 0. `circuit_skills` is the
  exception: it also counts `circuit`, a term outside the vocabulary, so the
  text "circuit" alone earns it 5 points under the electrical rubric. A
  Computer Science resume with no evidence therefore scores 35: 0 for
  skills, 5 for each of the three triggers and 20 for formatting
  (`CategoryScorer.NoEvidenceComputerScience`).
- The lawyer rubric lists `internships` (10 points), but no branch handles
  that key. The lawyer breakdown therefore has four categories, and its
  total never exceeds 90 (`CategoryScorer.LawyerCategories`,
  `CategoryScorer.TotalAtMostHundred`).

## Model

| member | source | states |
|---|---|---|
| Text.Lower | ResumeParser.py:239 | `name.lower()`: same length, each upper-case ASCII letter mapped to its lower-case letter and every other character kept |
| Text.LowerHasNoUpper | ResumeParser.py:239 | a lower-cased string has no upper-case ASCII letter |
| Text.Contains | ResumeParser.py:234 | substring `in`, a left-to-right scan; `ContainsIffOccurs` characterises it |
| Text.Count | ResumeParser.py:163 | `str.count`, counting non-overlapping occurrences from the left; `CountPositiveIffContains`, `CountFits` and `CountIsNonOverlapping` characterise it |
| Text.ContainsIffOccurs | ResumeParser.py:234 | substring `in` holds exactly when the pattern occurs at some index |
| Text.EmptyContainsOnlyEmpty | ResumeParser.py:234 | the empty text contains only the empty pattern |
| Text.CountPositiveIffContains | ResumeParser.py:163 | `text.count(p)` is positive exactly when `p in text` |
| Text.NoRoomNoOccurrence | ResumeParser.py:163 | a pattern longer than the text does not occur in it |
| Text.CountFits | ResumeParser.py:163 | non-overlapping occurrences of a non-empty pattern fit in the text: `count * len(p) <= len(text)` |
| Text.CountIsNonOverlapping | ResumeParser.py:163 | `"aaaa".count("aa") == 2` and `"aaa".count("aa") == 1` |
| Text.LeadingSpaces | ResumeParser.py:136 | the number of leading whitespace characters: all of them are spaces and the next one is not |
| Text.TrailingSpaces | ResumeParser.py:136 | the trailing counterpart of `LeadingSpaces` |
| Text.Strip | ResumeParser.py:136 | `line.strip()`: a non-empty result neither starts nor ends with whitespace |
| Contact.StripIsSlice | ResumeParser.py:136 | the stripped line is the slice after the leading whitespace, and only whitespace follows it |
| Text.WordLength | ResumeParser.py:142 | the length of the longest whitespace-free prefix |
| Text.Split | ResumeParser.py:142 | `str.split()`, the maximal whitespace-free runs; `SplitNonEmpty` and `SplitIffGap` characterise it |
| Text.SplitNonEmpty | ResumeParser.py:142 | a line holding a non-space character splits into at least one word |
| Text.SplitGivesGap | ResumeParser.py:142 | more than one word implies non-space, space, non-space in that order |
| Text.GapGivesSplit | ResumeParser.py:142 | non-space, space, non-space in that order implies more than one word |
| Text.SplitIffGap | ResumeParser.py:142 | `len(line.split()) > 1` exactly when two non-space characters are separated by whitespace |
| Text.IndexOf | ResumeParser.py:131 | the first index of a character, or none when it is absent |
| Text.Lines | ResumeParser.py:131 | `splitlines()`: no line holds a line break |
| Text.LinesRoundTrip | ResumeParser.py:131 | joining the lines with line breaks gives back the text, except for a final line break, which `splitlines` drops |
| Tables.DistinctLabels | ResumeParser.py:46-60 | eight domains whose labels are pairwise distinct, as dictionary keys are |
| Tables.EveryLabelHasRubric | ResumeParser.py:62-119 | every domain label has a rubric, and every rubric lists `formatting` |
| Tables.VocabularyNonEmpty | ResumeParser.py:8-43 | no vocabulary term is the empty string |
| Tables.KeysDistinct | ResumeParser.py:62-119 | distinct rubric categories have distinct key strings, so a breakdown listing each category once stands for the string-keyed dictionary |
| SkillMatcher.Presence | ResumeParser.py:234 | the presence list; `PresentIn` and `PresenceOfEmptyText` characterise it |
| SkillMatcher.SkillCounts | ResumeParser.py:163 | the counter in vocabulary order; `SkillCountsPositive` characterises it |
| SkillMatcher.Rank | ResumeParser.py:164 | stable insertion sort by descending count; `RankSorts` characterises it |
| SkillMatcher.TopTallies | ResumeParser.py:164 | `most_common(5)`; `TopTalliesRanked`, `TopTalliesTieBreak` and `TopTalliesDominate` characterise it |
| SkillMatcher.TopSkills | ResumeParser.py:164 | the skill names of `most_common(5)`; `Pipeline.TopSkillsPresent` characterises it |
| SkillMatcher.PresentIn | ResumeParser.py:234 | the kept terms are exactly the vocabulary terms contained in the text, in vocabulary order |
| SkillMatcher.PresenceOfEmptyText | ResumeParser.py:234 | the empty text matches no skill |
| SkillMatcher.SkillCountsPositive | ResumeParser.py:163 | every counter entry is a vocabulary term present in the text, with count at least 1 |
| SkillMatcher.InsertMultiset | ResumeParser.py:164 | inserting into the ranking keeps every entry |
| SkillMatcher.InsertDescending | ResumeParser.py:164 | inserting keeps the ranking in descending count order |
| SkillMatcher.InsertWithCount | ResumeParser.py:164 | an inserted entry goes after the entries with its count (stability) |
| SkillMatcher.RankSorts | ResumeParser.py:164 | the ranking is descending and a permutation, and it keeps the order among equal counts |
| SkillMatcher.RankedCounts | ResumeParser.py:163-164 | the ranked counter is descending, as long as the presence list, and a permutation of the counter that keeps tie order |
| SkillMatcher.TopTalliesRanked | ResumeParser.py:164 | `most_common(5)` has `min(5, matches)` entries, all from the counter, in descending count order |
| SkillMatcher.TopTalliesTieBreak | ResumeParser.py:164 | among skills of equal count, the top five hold a prefix of them in vocabulary order |
| SkillMatcher.TopTalliesDominate | ResumeParser.py:164 | a skill left out of the top five has a count no greater than any kept skill |
| DomainPredictor.BonusHits | ResumeParser.py:154-156 | the number of bonus terms present is at most the number of bonus terms |
| DomainPredictor.DomainScore | ResumeParser.py:151-156 | one domain's `match_count`; `DomainScoreAdd`, `DomainScoreMonotone`, `CivilScoreWithBonus` and `CivilTermWeights` characterise it |
| DomainPredictor.Predicted | ResumeParser.py:147-159 | the label of the first maximum of the domain scores; `PredictedIsFirstBest` and `NoSkillsPredictsFirst` characterise it |
| DomainPredictor.FirstMax | ResumeParser.py:158 | `max(role_scores, key=...)`: an index whose score is at least every score and strictly above every earlier score |
| DomainPredictor.FirstMaxUnique | ResumeParser.py:158 | that index is the only one with these two properties |
| DomainPredictor.ScoreDomain | ResumeParser.py:151-157 | the method computing one `match_count` equals the domain's intersection size plus the civil bonus |
| DomainPredictor.BestIndex | ResumeParser.py:158 | the method scanning the scores returns their first maximum |
| DomainPredictor.PredictRole | ResumeParser.py:147-159 | `predict_role` returns the label of the first domain with the highest score |
| DomainPredictor.PredictedIsFirstBest | ResumeParser.py:147-159 | the prediction is one of the eight labels; its score is at least every other and strictly above every earlier domain's |
| DomainPredictor.NoBonusWithoutSkills | ResumeParser.py:154-156 | with no skills there is no bonus |
| DomainPredictor.AllZeroPicksFirst | ResumeParser.py:158 | when all scores are zero the prediction is `Computer Science` |
| DomainPredictor.NoSkillsPredictsFirst | ResumeParser.py:147-159 | an empty skill list predicts `Computer Science` |
| DomainPredictor.BonusHitsAdd | ResumeParser.py:154-156 | a new skill adds its number of occurrences among the bonus terms |
| DomainPredictor.BonusHitsMonotone | ResumeParser.py:154-156 | more skills never lower the bonus |
| DomainPredictor.DomainScoreMonotone | ResumeParser.py:151-156 | more skills never lower a domain's score |
| DomainPredictor.CivilScoreWithBonus | ResumeParser.py:50-156 | the civil score is its intersection plus twice the bonus terms present, so never below the intersection |
| DomainPredictor.DomainScoreAdd | ResumeParser.py:151-156 | a new skill raises a domain's score by 1 when the domain lists it, plus 2 per bonus occurrence for the civil domain |
| DomainPredictor.CivilTermWeights | ResumeParser.py:50-156 | `staad pro` adds 3 to the civil score, `geotechnical` 2 and `autocad civil` 1 |
| CategoryScorer.Branch | ResumeParser.py:169-206 | the twelve branches, none of which handles `internships` |
| CategoryScorer.Position | ResumeParser.py:169-206 | every other category has a branch, at this position |
| CategoryScorer.BranchesDistinct | ResumeParser.py:169-206 | no category is handled by two branches |
| CategoryScorer.RuleOf | ResumeParser.py:169-206 | each branch's rule (clamped count with its terms and factor, trigger phrases, or full weight); `ComputerScienceRules` and `LawyerCategories` show it on whole rubrics |
| CategoryScorer.Points | ResumeParser.py:169-206 | the points a rule gives for a weight and a text; `PointsBounds`, `TriggerIffPhrase` and `TriggerOnePhrase` characterise it |
| CategoryScorer.Breakdown | ResumeParser.py:166-206 | the `score` dictionary as entries in insertion order; `BreakdownFollowsRubric` characterises it |
| CategoryScorer.Total | ResumeParser.py:208 | `sum(score.values())`; `TotalAppend`, `TotalAtLeastEntry` and `TotalWithinWeights` characterise it |
| CategoryScorer.ScoreAndExtractSkills | ResumeParser.py:162-209 | at most five top skills, a total of at most 100, and only rubric categories in the breakdown |
| CategoryScorer.EntriesUpTo | ResumeParser.py:169-206 | each entry the branches add is a rubric category, scored by that category's rule |
| CategoryScorer.CompleteUpTo | ResumeParser.py:169-206 | every rubric category with a branch gets an entry |
| CategoryScorer.OrderedUpTo | ResumeParser.py:169-206 | the entries follow branch order, so no category appears twice |
| CategoryScorer.BreakdownFollowsRubric | ResumeParser.py:166-206 | the breakdown keys are exactly the rubric keys that have a branch, each once, scored by its rule |
| CategoryScorer.UnknownDomainScoresNothing | ResumeParser.py:166-208 | an unknown domain gives an empty breakdown and a total of 0 |
| CategoryScorer.CategoriesUpTo | ResumeParser.py:169-206 | the breakdown's categories are the rubric's categories in branch order |
| CategoryScorer.LawyerCategories | ResumeParser.py:77-206 | the lawyer breakdown is `legal_experience`, `legal_skills`, `moots_certifications`, `formatting`, with `internships` dropped |
| CategoryScorer.PointsBounds | ResumeParser.py:170-206 | a clamped count lies in [0, weight]; a trigger category scores its weight or 5; formatting scores its weight |
| CategoryScorer.TriggerIffPhrase | ResumeParser.py:180-203 | a trigger category scores its full weight exactly when one of its phrases is in the text |
| CategoryScorer.TriggerOnePhrase | ResumeParser.py:180-203 | a one-phrase trigger scores the weight if the phrase is present, else 5 |
| CategoryScorer.TotalAppend | ResumeParser.py:208 | the sum of the values splits over concatenation |
| CategoryScorer.TotalWithinWeights | ResumeParser.py:169-208 | the total of the entries is at most the weight of the categories with a branch |
| CategoryScorer.WeightOfAllBranches | ResumeParser.py:169-206 | the weight of the categories with a branch is the twelve-term sum |
| CategoryScorer.DoctorWeighs | ResumeParser.py:63-69 | the doctor rubric's branch weights sum to 100, each at least 5 |
| CategoryScorer.ComputerScienceWeighs | ResumeParser.py:70-76 | the computer science rubric's branch weights sum to 100 |
| CategoryScorer.LawyerWeighs | ResumeParser.py:77-83 | the lawyer rubric's branch weights sum to 90 |
| CategoryScorer.MechanicalWeighs | ResumeParser.py:84-90 | the mechanical rubric's branch weights sum to 100 |
| CategoryScorer.CivilWeighs | ResumeParser.py:91-97 | the civil rubric's branch weights sum to 100 |
| CategoryScorer.ElectricalWeighs | ResumeParser.py:98-104 | the electrical rubric's branch weights sum to 100 |
| CategoryScorer.BusinessWeighs | ResumeParser.py:105-111 | the business rubric's branch weights sum to 100 |
| CategoryScorer.BiotechWeighs | ResumeParser.py:112-118 | the biotech rubric's branch weights sum to 100 |
| CategoryScorer.EmptyRubricWeighsNothing | ResumeParser.py:166 | the empty rubric has no weight |
| CategoryScorer.RubricBound | ResumeParser.py:62-166 | every rubric's branch weights sum to at most 100, and to at most 90 for the lawyer |
| CategoryScorer.TotalAtMostHundred | ResumeParser.py:166-208 | the total score is at most 100, and at most 90 for the lawyer |
| CategoryScorer.ComputerScienceCategories | ResumeParser.py:70-206 | the computer science breakdown is skills, projects, certifications, experience, formatting |
| CategoryScorer.ComputerScienceBreakdown | ResumeParser.py:169-206 | the computer science breakdown's values: `min(30, 2 * matches)`, 25 or 5, 15 or 5, 10 or 5, and 20 |
| CategoryScorer.NoEvidenceComputerScience | ResumeParser.py:166-208 | with no skill and no trigger phrase, computer science scores 35 |
| CategoryScorer.CircuitEntry | ResumeParser.py:176-178 | the electrical breakdown has five entries, and its first is `circuit_skills` at `min(25, 5 * (count of circuit + vhdl + simulink))` |
| CategoryScorer.CircuitOutsideVocabulary | ResumeParser.py:176-178 | `circuit` is not a vocabulary term, yet the text "circuit" alone scores 5 for `circuit_skills` under the electrical rubric |
| CategoryScorer.TotalAtLeastEntry | ResumeParser.py:208 | the total is at least each entry |
| CategoryScorer.FormattingTwenty | ResumeParser.py:62-119 | every domain's rubric gives `formatting` 20 |
| CategoryScorer.FormattingAlwaysScored | ResumeParser.py:205-208 | for a known domain, `formatting` scores its full 20, so the total is at least 20 |
| Contact.RunEnd | ResumeParser.py:132 | the end of the greedy `[\w.-]+` run from an index |
| Contact.SearchFrom | ResumeParser.py:132 | `re.search`: the leftmost index where the email pattern matches, or none |
| Contact.SpanShaped | ResumeParser.py:132 | a match is email characters around one `@`, with at least one on each side |
| Contact.EmailOf | ResumeParser.py:132-145 | the leftmost match or `"Not found"`; `EmailFound`, `EmailNotFoundIff` and `EmailMaximal` characterise it |
| Contact.NameOf | ResumeParser.py:134-145 | the two-pass first-fit name or `"Unknown"`; `NameUnknownIff` and `NameIsFirstFit` characterise it |
| Contact.EmailFound | ResumeParser.py:132-145 | when the pattern matches, the email is the leftmost match, occurs in the text and is email-shaped |
| Contact.EmailNotFoundIff | ResumeParser.py:132-145 | the email is `"Not found"` exactly when the pattern matches nowhere |
| Contact.EmailMaximal | ResumeParser.py:132 | the match cannot be extended on either side |
| Contact.FirstWhere | ResumeParser.py:135-144 | the first line that passes a test, or none |
| Contact.Head | ResumeParser.py:135-141 | `lines[:6]`: the first six lines, or all lines when there are fewer |
| Contact.LetterNotSpace | ResumeParser.py:136 | a letter is not whitespace |
| Contact.NameLineIsMultiWord | ResumeParser.py:136-142 | a line that matches the name pattern also has more than one word |
| Contact.MultiWordStrip | ResumeParser.py:142-143 | a multi-word line strips to a non-empty string that holds whitespace |
| Contact.NotUnknown | ResumeParser.py:143-145 | a multi-word line never strips to `""` or `"Unknown"` |
| Contact.NameUnknownIff | ResumeParser.py:130-145 | the name is `"Unknown"` exactly when none of the first six lines has more than one word |
| Contact.NameIsFirstFit | ResumeParser.py:134-145 | a known name is the first name-shaped head line stripped, or, when there is none, the first multi-word head line stripped |
| Contact.FirstHit | ResumeParser.py:135-144 | the loop with `break` returns the first line that passes the test |
| Contact.ExtractNameEmail | ResumeParser.py:130-145 | `extract_name_email` returns the first-fit name and the leftmost email |
| Upload.LastIndexOf | app.py:18 | the last index of a character, which no later character repeats |
| Upload.AllowedFile | app.py:17-18 | the boolean expression of `allowed_file`; `AllowedIffPdfSuffix` characterises it |
| Upload.AllowedEndsInPdf | app.py:14-18 | an accepted name ends in `.pdf`, in any case |
| Upload.PdfSuffixAllowed | app.py:14-18 | a name ending in `.pdf`, in any case, is accepted |
| Upload.AllowedIffPdfSuffix | app.py:14-18 | `allowed_file` holds exactly when the name ends in `.pdf`, ignoring case |
| Upload.AcceptedExamples | app.py:14-18 | `CV.PDF` and `.pdf` are accepted |
| Upload.RejectedExamples | app.py:14-18 | `resume` (no dot), `resume.` and `resume.pdf.exe` are rejected |
| Pipeline.Parsed | ResumeParser.py:233-245 | the result record as a function of the text; `ParsedWellFormed`, `ParsedName` and `ParsedEmail` characterise it |
| Pipeline.ProcessResume | ResumeParser.py:233-245 | the result record holds the lower-cased name, the email, the top skills, the predicted domain, the total and the breakdown |
| Pipeline.ParsedWellFormed | ResumeParser.py:233-245 | the domain is a label; the score is the breakdown's sum, between 20 and 100; at most five top skills, each a vocabulary term in the text |
| Pipeline.TopSkillsPresent | ResumeParser.py:163-236 | every reported skill is a vocabulary term occurring in the text |
| Pipeline.ParsedName | ResumeParser.py:239 | the stored name has the extracted name's length and no upper-case letter |
| Pipeline.ParsedEmail | ResumeParser.py:240 | the stored email is `"Not found"` exactly when the text holds no match |

## Left out

- PDF text extraction (`extract_text_from_pdf`, ResumeParser.py:121-128) is a foreign library. The text is a parameter. The model does not assume it is already lower-case, as extraction makes it.
- `save_as_json`, `save_as_csv` and the final `print` (ResumeParser.py:211-219, 247-257) are file and console output.
- The Flask routes, upload saving, `uuid` and `secure_filename` in app.py are HTTP and file plumbing. `allowed_file` alone is modelled. static/app.js is browser UI code and is not part of this model.
- Character classes are ASCII. `\w` is letters, digits and `_`. Letters are `A`-`Z` and `a`-`z`. Lower-casing maps only `A`-`Z`. Whitespace is ASCII whitespace together with `\x1c`-`\x1f`. Python applies the Unicode definitions of these classes.
- Text.Lines: `splitlines` is modelled as splitting on `\n` only. Python also breaks lines at `\r`, `\v`, `\f`, the ASCII separators `\x1c`, `\x1d` and `\x1e`, `\x85`, `\u2028` and `\u2029`, and it treats `\r\n` as a single break.
- Text.Count: an empty pattern counts `len(text) + 1`, as in Python. Only non-empty terms are ever counted.
- CategoryScorer.ScoreAndExtractSkills: modelled on values. The `score` dictionary is a sequence of (category, points) entries in insertion order, built by a fold over the twelve branches, not by in-place updates.
- Rubric categories are an enum. The dictionary key strings are given by `Category.Key`, and `Tables.KeysDistinct` shows that no two categories share a key.
- DomainPredictor.PredictRole: `role_scores` is a sequence indexed in `DOMAIN_ROLES` order rather than a dictionary keyed by label. Labels are distinct (`Tables.DistinctLabels`), so the two orders agree.
- `Counter.most_common(5)` is modelled by its documented result: a stable sort by descending count, cut to five. The heap algorithm behind it is not modelled.
