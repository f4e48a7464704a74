# Smart Resume Parser & Matching System: a verified model of the scoring core

This project models, in Dafny, the rule-based core of a resume-matching tool:

- skill normalisation: a skill is compared by `strip().lower()`;
- the four component scores of a candidate against a job:
  - required skills, with a halving penalty per missing skill;
  - preferred skills;
  - experience against a minimum and an optional maximum;
  - education keywords found in the candidate's education texts;
- their weighted sum, rounded to two decimals, and the five-band label of that sum;
- the job record's defaults and its text rendering;
- the per-job ranking `JobReport`. It holds one row per added candidate, kept ordered by score, highest first, by a stable sort. The model also covers the guard and file naming of its CSV export;
- the AI settings `AIConfig`: provider, keys and models, and when AI is enabled;
- the AI assistant `HiringAIAssistant`:
  - how it decides whether it is enabled;
  - its model call with up to `max_retries` attempts and exponentially growing sleeps between them;
  - the guards of its three public operations.

The model is organised as follows:

- `wrappers.dfy` defines Python's `Optional`.
- `pystr.dfy` models the Python string operations the code relies on:
  - `strip` with Python's whitespace set;
  - `lower`;
  - `" ".join`;
  - `in` on strings;
  - integer formatting with `,` thousands separators.
- `rounding.dfy` models `round(x, n)`.
- The other files follow the repository's modules:
  - `matcher_utils.dfy`: `src/utils/matcher_utils.py`;
  - `models.dfy`: `src/models/job.py` and `src/models/candidate.py`;
  - `matcher.dfy`: `src/matching/matcher.py`;
  - `reporting.dfy`: `src/reporting/report_generator.py`;
  - `config.dfy`: `src/config.py`;
  - `ai_service.dfy`: `src/ai/ai_service.py`.

Scores are exact reals. `round(x, n)` is rounding to the nearest multiple of `10^-n`, with ties going to the even multiple.

The language-model client is an object holding the outcomes of its successive calls: a reply, or an exception. `time.sleep` appends its duration to a ghost trace of sleeps. Values that the original reads from the environment or the clock become parameters:
- the `.env` settings, including the `AIConfig()` that `HiringAIAssistant()` builds when it is given no configuration;
- the export timestamp;
- whether building the client raises;
- whether the client reports itself available;
- the prompt texts.

Some behaviour of the scorer worth stating plainly:
- It scores a single `required_skills` list, with a fixed halving penalty per missing skill; there is no hard/soft split and there are no skill groups.
- An empty preferred list and missing or empty education keywords give full credit (1.0).
- An education keyword counts when it occurs anywhere in the joined lower-cased texts, as a plain substring.
- The final score is rounded to two decimals.

The `Job` dataclass in `src/models/job.py` has only hard, soft and preferred skill lists. The scorer (`src/matching/matcher.py:60`) and the report (`src/reporting/report_generator.py:26`) both read `job.required_skills`. The model's `Job` therefore carries a `requiredSkills` list, which is what those two places read.

## Model

| member | source | states |
|---|---|---|
| PyStr.Strip | src/utils/matcher_utils.py:4 | the result is no longer than the input and has no whitespace at either end |
| PyStr.StripIsCore | src/utils/matcher_utils.py:4 | the result is a contiguous piece of the input, and what is cut off before and after it is all whitespace |
| PyStr.StripIdempotent | src/utils/matcher_utils.py:4 | stripping twice is stripping once |
| PyStr.StripLowerCommute | src/utils/matcher_utils.py:4 | lower-casing and stripping commute |
| PyStr.StripIgnoresPadding | src/utils/matcher_utils.py:4 | extra whitespace around a string does not change its stripped form |
| PyStr.LowerIdempotent | src/utils/matcher_utils.py:4 | lower-casing twice is lower-casing once |
| PyStr.Lower | src/utils/matcher_utils.py:4 | the result has the input's length |
| PyStr.LowerLeavesNoCapitals | src/utils/matcher_utils.py:4 | each ASCII capital becomes its own small letter, no capital is left, and every other character stays where it was |
| PyStr.JoinStartsWithFirst | src/matching/matcher.py:51-53 | a join of one or more parts starts with the first part |
| PyStr.JoinEndsWithLast | src/matching/matcher.py:51-53 | a join of one or more parts ends with the last part |
| PyStr.IsInfix | src/matching/matcher.py:55 | a string found in another is no longer than it; the empty string and the string itself are always found |
| PyStr.WithThousands | src/models/job.py:30 | with its commas removed, the `{n:,}` text is the plain decimal digits of the magnitude, after a "-" for a negative number; the commas stand exactly before each group of three digits counted from the right, and the leading group has one to three digits |
| PyStr.IntToString | src/models/job.py:33-35 | `str(n)`: decimal digits without leading zeros that read back as n, after a "-" for a negative number |
| PyStr.JoinContainsPart | src/matching/matcher.py:51-53 | every part of a joined string occurs in it |
| PyStr.InfixTransitive | src/matching/matcher.py:55 | a substring of a substring is a substring |
| PyStr.DigitsRoundTrip | src/models/job.py:30-35 | the decimal digits of a natural number read back as that number |
| PyStr.ThousandsRoundTrip | src/models/job.py:30 | a number formatted with `,` separators reads back, separators removed, as the same number |
| Rounding.NearestEven | src/matching/matcher.py:69-75 | the rounded integer is within one half of the value |
| Rounding.RoundTo | src/matching/matcher.py:69-75 | scaled back up by `10^n`, the result is the integer nearest to the scaled value, so it is a whole multiple of `10^-n` |
| Rounding.Round3 | src/matching/matcher.py:22 | a whole multiple of 0.001 within 0.0005 of the value |
| Rounding.Round2 | src/matching/matcher.py:69-75 | a whole multiple of 0.01 within 0.005 of the value |
| Rounding.RoundMonotone | src/matching/matcher.py:69-75 | rounding never reverses the order of two scores |
| Rounding.RoundExact | src/matching/matcher.py:69-75 | a value that already has `n` decimals is left unchanged |
| Rounding.RoundClose | src/matching/matcher.py:69-75 | the rounded value is within half a unit of the last place |
| Rounding.RoundUnitInterval | src/matching/matcher.py:69-75 | a score in [0, 1] stays in [0, 1] after rounding |
| MatcherUtils.NormalizeIdempotent | src/utils/matcher_utils.py:3-4 | normalising a skill twice is normalising it once |
| MatcherUtils.NormalizeIgnoresCaseAndPadding | src/utils/matcher_utils.py:3-4 | spellings that differ only in case and surrounding whitespace normalise alike |
| MatcherUtils.NormalizeShape | src/utils/matcher_utils.py:4 | a normal form is no longer than the item and neither starts nor ends with whitespace |
| MatcherUtils.NormalizeList | src/utils/matcher_utils.py:3-4 | the set is empty exactly when the list is |
| MatcherUtils.NormalizeListMembers | src/utils/matcher_utils.py:3-4 | every item's normal form is in the set, and every element is the normal form of some item |
| MatcherUtils.NormalizeListAppend | src/utils/matcher_utils.py:3-4 | one more item adds exactly its normal form |
| MatcherUtils.NormalizeListSize | src/utils/matcher_utils.py:3-4 | the set is never larger than the list |
| MatcherUtils.NormalizeListIdempotent | src/utils/matcher_utils.py:3-4 | normalising a listing of the result gives the same set |
| MatcherUtils.NormalizeListCollapses | src/utils/matcher_utils.py:3-4 | two spellings of one skill collapse to a single element |
| MatcherUtils.Classify | src/utils/matcher_utils.py:6-24 | the five bands, each as an if-and-only-if on the score; exactly 0.15 is the lowest band |
| MatcherUtils.MatchLevelOf | src/utils/matcher_utils.py:6-24 | the label is one of the five, "Not Recommended" iff score <= 0.15, "Top Talent" iff score >= 0.85 |
| MatcherUtils.LabelsDistinct | src/utils/matcher_utils.py:12-24 | different bands have different labels |
| MatcherUtils.ClassifyMonotone | src/utils/matcher_utils.py:12-24 | a higher score never gets a lower-ranked label |
| MatcherUtils.ClassifyBoundaries | src/utils/matcher_utils.py:12-24 | the band edges at 0.85, 0.70, 0.40 and 0.15, with the exclusive edge at 0.15 |
| Models.NewCandidate | src/models/candidate.py:5-14 | resume link and AI summary default to None; the other fields are as given |
| Models.NewJob | src/models/job.py:5-19 | role type defaults to "IC"; maximum experience, both salaries and education keywords default to None |
| Models.ExperienceRange | src/models/job.py:33-35 | "{min}-{max} years" for a truthy maximum, "{min}+ years" otherwise |
| Models.SalaryLine | src/models/job.py:27-31 | the line is empty iff neither bound is truthy; otherwise both bounds print with separators, a missing one as 0 |
| Models.EducationText | src/models/job.py:37-41 | "None" for no or empty keywords, else the keywords joined by ", " |
| Models.DescriptionPreview | src/models/job.py:47 | the first 100 characters of the description, always followed by "..." |
| Models.Render | src/models/job.py:43-55 | the rendering starts with the title line and ends with the salary line, if any, and the education line |
| Models.RenderZeroIsAbsent | src/models/job.py:27-41 | a zero maximum, zero salary bound or empty keyword list renders exactly like an absent one |
| Models.RenderWithoutSalary | src/models/job.py:27-31 | without truthy salary bounds there is no salary line |
| Models.SalaryFiguresReadBack | src/models/job.py:30 | both printed salary figures read back as the bounds, 0 for a missing one |
| Matcher.HalfPow | src/matching/matcher.py:19-20 | the penalty factor `0.5 ** n` is in (0, 1] |
| Matcher.HalfPowAntitone | src/matching/matcher.py:19-20 | more missing skills never give a larger penalty factor |
| Matcher.RawRequiredScore | src/matching/matcher.py:14-22 | the unrounded required score is in [0, 1] |
| Matcher.RequiredSkillsScore | src/matching/matcher.py:7-22 | 1 for no required skills; otherwise the rounded raw score, in [0, 1]; 1 when all are held, 0 when none is |
| Matcher.RequiredScoreMonotone | src/matching/matcher.py:14-22 | holding more skills never lowers the required score |
| Matcher.RequiredScoreIgnoresOthers | src/matching/matcher.py:14-22 | skills outside the required set do not change the required score |
| Matcher.PreferredSkillScore | src/matching/matcher.py:24-29 | 1 for no preferred skills, else the held fraction of them, in [0, 1] |
| Matcher.PreferredScoreMonotone | src/matching/matcher.py:24-29 | holding more skills never lowers it; holding all gives 1 |
| Matcher.ExperienceScore | src/matching/matcher.py:31-45 | 0.5 exactly one year short, 0 for more; 1 within range or with a falsy maximum; `max(0.7, 1 - 0.05 * over)` above it; always in {0, 0.5} or [0.7, 1]; the final fall-through return is unreachable |
| Matcher.ExperienceThreshold | src/matching/matcher.py:31-43 | meeting the minimum earns at least 0.7; falling short earns at most 0.5 |
| Matcher.ExperienceZeroMaxIsOpen | src/matching/matcher.py:37 | a maximum of 0 behaves exactly like no maximum |
| Matcher.ExperienceOverMaxAntitone | src/matching/matcher.py:40-43 | past the maximum more years never score higher, and six or more years over give the 0.7 floor |
| Matcher.RawText | src/matching/matcher.py:52 | the "raw" value of the entry, or "" when the key is missing |
| Matcher.EducationCorpus | src/matching/matcher.py:51-53 | every entry's lower-cased raw text occurs in the joined text |
| Matcher.LoweredTexts | src/matching/matcher.py:51-53 | one lower-cased "raw" text per entry, "" when the key is missing |
| Matcher.KeywordHits | src/matching/matcher.py:55 | the keyword count never exceeds the number of keywords |
| Matcher.KeywordHitsCountsPositions | src/matching/matcher.py:55 | the generator sum equals the number of keyword positions found in the text |
| Matcher.KeywordHitsExtremes | src/matching/matcher.py:55 | all keywords found gives the full count, none found gives 0 |
| Matcher.EducationScore | src/matching/matcher.py:47-56 | 1 for no or empty keywords, else the found fraction, in [0, 1] |
| Matcher.HitFraction | src/matching/matcher.py:55-56 | the fraction times the keyword count is the number of keywords found, and it lies in [0, 1] |
| Matcher.KeywordInEntryIsFound | src/matching/matcher.py:51-55 | a keyword occurring in one entry's lower-cased raw text is found |
| Matcher.EducationScoreExtremes | src/matching/matcher.py:47-56 | all keywords found gives 1, none found gives 0 |
| Matcher.Scores | src/matching/matcher.py:58-67 | the four components, computed over normalised skills, each lie in [0, 1] |
| Matcher.Weighted | src/matching/matcher.py:69-75 | the 0.60/0.15/0.15/0.10 weighted sum lies in [0, 1] and is 1 for full marks |
| Matcher.FinalMatchScore | src/matching/matcher.py:58-75 | the rounded final score lies in [0, 1] |
| Matcher.MatchLabel | src/matching/matcher.py:77-80 | the label is one of five; "Top Talent" iff the final score >= 0.85; "Not Recommended" iff <= 0.15 |
| Matcher.ScoreSeesNormalFormsOnly | src/matching/matcher.py:59-61 | respelling skills without changing their normal forms changes nothing |
| Matcher.AddingSkillNeverHurts | src/matching/matcher.py:58-80 | adding a skill to a resume never lowers the final score or the rank of its label |
| Matcher.PerfectComponents | src/matching/matcher.py:58-67 | a candidate meeting every criterion gets 1 in every component |
| Matcher.FullMarksRoundToOne | src/matching/matcher.py:69-75 | full marks give a final score of exactly 1 |
| Matcher.FullComponentsScoreOne | src/matching/matcher.py:58-75 | full components give a final score of exactly 1 |
| Matcher.PerfectCandidate | src/matching/matcher.py:58-80 | a candidate meeting every criterion scores 1 and is "Top Talent" |
| Matcher.EmptyJobScoresFull | src/matching/matcher.py:58-75 | a job asking for no skills or keywords scores every candidate at the minimum experience 1 |
| Reporting.MissingRequired | src/reporting/report_generator.py:25-27 | the missing skills are normalised required skills, disjoint from the candidate's, and with the matched ones make up all required skills |
| Reporting.MissingAgreesWithRequiredScore | src/reporting/report_generator.py:25-27 | the missing count is the unmatched count of the required score; nothing is missing iff all required skills are held, which gives a required score of 1 |
| Reporting.Record | src/reporting/report_generator.py:29-37 | the row carries the candidate's name and experience, the scorer's score and level, and the missing skills |
| Reporting.Insert | src/reporting/report_generator.py:39 | placing one row lengthens the ranking by one |
| Reporting.SortByScore | src/reporting/report_generator.py:39 | the sort keeps the length |
| Reporting.InsertSorted | src/reporting/report_generator.py:39 | placing a row into an ordered ranking keeps it ordered |
| Reporting.InsertMultiset | src/reporting/report_generator.py:39 | placing a row adds exactly that row |
| Reporting.InsertStable | src/reporting/report_generator.py:39 | the new row goes after every earlier row of equal score |
| Reporting.SortByScoreSortsAndPermutes | src/reporting/report_generator.py:39 | the sort orders by score, highest first, and is a permutation |
| Reporting.SortByScoreStable | src/reporting/report_generator.py:39 | rows of equal score keep their arrival order |
| Reporting.SortByScoreOfSorted | src/reporting/report_generator.py:39 | an ordered ranking is left as it is |
| Reporting.WithScoreConcat | src/reporting/report_generator.py:39 | selecting rows of one score distributes over concatenation |
| Reporting.CsvFileName | src/reporting/report_generator.py:56-59 | the name ends in "_{timestamp}.csv"; its length drops by four when the given name ends in ".csv" |
| PyStr.EndsWithSplits | src/reporting/report_generator.py:56 | `endswith` holds exactly when the text is some prefix followed by the suffix, and always for a text with the suffix appended |
| Reporting.CsvFileNameStripsOnce | src/reporting/report_generator.py:56-59 | a trailing ".csv" is removed once, never doubled; other names are kept whole |
| Reporting.CsvPath | src/reporting/report_generator.py:61 | the path starts with the base directory, then "/", and ends with the file name, with nothing else between them |
| Reporting.JobReport.constructor | src/reporting/report_generator.py:12-16 | a new report has no rows and files under "src/storage" |
| Reporting.JobReport.AddCandidate | src/reporting/report_generator.py:18-39 | the ranking stays the stable sort of the arrivals; it grows by exactly the new row, stays ordered by score, and rows of equal score keep their order |
| Reporting.JobReport.ToCsvAsWritten | src/reporting/report_generator.py:49-61 | "No data to export." iff there are no rows; any row makes the export raise |
| Reporting.JobReport.ToCsv | src/reporting/report_generator.py:49-75 | "No data to export." without rows; otherwise it raises when the directory cannot be made, or reports the saved path or the write failure |
| Reporting.ExportAfterOneCandidate | src/reporting/report_generator.py:49-75 | for a non-empty report the export as written raises, while the corrected one returns a message other than the no-data one |
| Config.CoerceProvider | src/config.py:55-57 | the provider afterwards is "gemini" or "groq"; those two are kept and anything else becomes "gemini" |
| Config.AIConfig.constructor | src/config.py:16-57 | the fields as given, the provider coerced |
| Config.AIConfig.Defaults | src/config.py:21-34 | Gemini, no keys, "gemini-flash-latest", "llama-3.2-3b-preview", 2000 tokens, temperature 0.7, timeout 10, not enabled |
| Config.AIConfig.Model | src/config.py:36-43 | the Groq model for "groq", the Gemini model for any other provider |
| Config.AIConfig.ActiveKey | src/config.py:45-51 | the Groq key for "groq", the Gemini key otherwise |
| Config.AIConfig.IsEnabled | src/config.py:45-51 | for each provider, enabled iff its own key is non-empty and not "your-api-key-here"; never for an unknown provider |
| Config.EnabledIffActiveKey | src/config.py:37-51 | with a known provider, enabled iff the provider's key is configured |
| Config.PlaceholderNeverEnables | src/config.py:47-50 | a blank or placeholder key never enables |
| AiService.LLMClient.constructor | src/ai/ai_service.py:46-56 | the client holds the key, model and timeout it is built with and has made no calls |
| AiService.LLMClient.GenerateContent | src/ai/ai_service.py:95-99 | each call produces the next outcome and counts one call |
| AiService.Doubling | src/ai/ai_service.py:90-106 | `n` delays |
| AiService.DoublingAt | src/ai/ai_service.py:90-106 | the i-th sleep lasts `2^i` times the initial delay |
| AiService.DoublingNeverShorter | src/ai/ai_service.py:90-106 | no sleep is shorter than the initial delay, and each lasts twice the one before |
| AiService.RetryFrom | src/ai/ai_service.py:93-110 | one sleep between consecutive calls and none after the last; a reply is what the last call returned; None only after every attempt was spent |
| AiService.RetryCallsBound | src/ai/ai_service.py:93-110 | at least one and at most `max_retries` calls when an attempt is allowed, none otherwise; always fewer sleeps than calls |
| AiService.RetryFirstReply | src/ai/ai_service.py:93-106 | after k failures the first reply is returned unchanged, after k + 1 calls and k doubling sleeps |
| AiService.RetryAllFail | src/ai/ai_service.py:93-110 | when every attempt fails, None after `max_retries` calls and `max_retries - 1` doubling sleeps |
| AiService.DefaultScheduleAllFail | src/ai/ai_service.py:72-110 | with the defaults, three failures sleep 1 s then 2 s and give None |
| AiService.HiringAIAssistant.constructor | src/ai/ai_service.py:36-69 | the configuration given, or else the environment's `AIConfig()`; a client exactly when the configuration is enabled and building it does not raise, kept even when it reports itself unavailable, with its provider's key and model; enabled iff the configuration is enabled, the client was built and it is available |
| AiService.HiringAIAssistant.CallAiWithRetry | src/ai/ai_service.py:71-110 | None without a call when disabled or without a client; otherwise the response, the calls made and the sleeps are those of the retry run |
| AiService.HiringAIAssistant.SummarizeCandidate | src/ai/ai_service.py:112-133 | None without a call when disabled, and None without a call or a sleep when no client was built; otherwise the retry run with 3 attempts and a 1 s first delay |
| AiService.HiringAIAssistant.ExplainMatch | src/ai/ai_service.py:135-176 | None without a call when disabled, and None without a call or a sleep when no client was built; otherwise the retry run with 3 attempts and a 1 s first delay |
| AiService.HiringAIAssistant.SuggestRefinements | src/ai/ai_service.py:178-207 | None when disabled; "No feedback provided for analysis." without a call for an empty batch; None without a sleep when no client was built; otherwise the retry run |

## Left out

- Rounding.RoundTo: Python rounds the binary floating-point value of the score. The model rounds the exact rational value half-to-even. Scores whose float representation falls on the other side of a tie may therefore round differently.
- PyStr.Lower: `str.lower()` is modelled for the ASCII letters 'A'..'Z' only. Every other character, including non-ASCII capitals, is kept as it is; Unicode case mapping is not modelled.
- MatcherUtils.Normalize: inherits the ASCII-only `lower()` of `PyStr.Lower`.
- Reporting.CsvPath: pathlib's `/` is modelled as joining with a single "/". Path also discards the base when the file name is absolute (`Path("src/storage") / "/tmp/r_T.csv"` is "/tmp/r_T.csv") and collapses repeated "/" and "." segments; for such file names the model's path keeps the base directory as its prefix where Path would not.
- AiService.HiringAIAssistant.CallAiWithRetry: a negative `initial_delay` makes `time.sleep` raise `ValueError` in the source after the first failed attempt, and that exception reaches the caller. The model records the negative sleep and goes on retrying. Every caller in the source passes the default 1.0.
- `RuleBasedCandidateMatcher`, `SKILL_GROUPS`, hard/soft-split scoring and `MatchConfig` are imported, but their definitions are not part of this model. `JobReport.add_candidate` takes the matcher's score and level as a parameter.
- Reporting.JobReport.AddCandidate: Python's `list.sort` is modelled by its result, a stable descending sort by score. Its algorithm and its in-place update are not modelled. The missing-skills list, which Python builds in set order, is modelled as a set.
- `JobReport.save_json`, the CSV write itself, `mkdir`, and the `datetime.now()` timestamp are I/O. Directory and write failures and the timestamp are parameters of `ToCsv`.
- Loading `.env`, `os.getenv`, and every `print` in `src/config.py` and `src/ai/ai_service.py` are left out. The settings are parameters of `AIConfig`'s constructor, and `HiringAIAssistant`'s constructor receives the configuration `AIConfig()` would build from the environment as a parameter.
- `src/ai/gemini_client.py`, `src/ai/groq_client.py` and the network are not part of this model. A client is a list of call outcomes plus an availability flag.
- AiService.HiringAIAssistant.constructor: an exception from `is_available()` after the client was built is treated like a failure to build the client, which leaves the client unset.
- `src/ai/prompts.py` is not part of this model. `SummarizeCandidate`, `ExplainMatch` and `SuggestRefinements` receive the prompt text, so the exception paths around prompt building are not modelled.
- `time.sleep` only records its duration in a ghost trace; real time is not modelled.
- `Job.to_dict` and `Candidate.__str__` are left out because they depend on Python's `asdict` and on container repr formatting.
- Models.Render: the contract fixes the first line and the closing salary and education lines. The lines in between are given by the definition of `Middle`.

## Findings

| source | as written | input that shows it | evidently intended | confidence | as-written member | corrected member |
|---|---|---|---|---|---|---|
| src/reporting/report_generator.py:61 | the CSV path is built from `self.base_dir`, which `JobReport` never sets (its constructor sets `base_path`), so the export raises `AttributeError` | a report with one added candidate, then `to_csv("job_report")` | write to `base_path` ("src/storage"), as the method's docstring says | high; not executed | Reporting.JobReport.ToCsvAsWritten | Reporting.JobReport.ToCsv |
