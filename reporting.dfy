/**
 * The per-job ranking (`JobReport`): one record per candidate added, kept in
 * non-increasing score order by a stable sort, and the guard and file naming
 * of its CSV export.
 */
module Reporting {
  import opened Wrappers
  import opened PyStr
  import opened MatcherUtils
  import opened Models
  import opened Matcher

  /** One row of the ranking. */
  datatype RankedResult = RankedResult(
    candidateName: string,
    score: real,
    matchLevel: string,
    missingRequiredSkills: set<string>,
    yearsExp: int)

  /** What the job's scorer reports for one candidate: a score and its label. */
  datatype MatchOutcome = MatchOutcome(score: real, level: string)

  // ---------------------------------------------------------------------------
  // Missing required skills

  /** The normalised required skills the candidate does not hold (normalised). */
  function MissingRequired(c: Candidate, j: Job): (m: set<string>)
    ensures m <= NormalizeList(j.requiredSkills)
    ensures m !! NormalizeList(c.skills)
    ensures m + NormalizeList(j.requiredSkills) * NormalizeList(c.skills) == NormalizeList(j.requiredSkills)
  {
    NormalizeList(j.requiredSkills) - NormalizeList(c.skills)
  }

  /**
   * The missing list agrees with the required-skill score: it counts exactly the
   * unmatched required skills, and it is empty exactly when the score is full
   * because every required skill is held.
   */
  lemma MissingAgreesWithRequiredScore(c: Candidate, j: Job)
    ensures |MissingRequired(c, j)|
      == |NormalizeList(j.requiredSkills)| - |NormalizeList(j.requiredSkills) * NormalizeList(c.skills)|
    ensures MissingRequired(c, j) == {} <==> NormalizeList(j.requiredSkills) <= NormalizeList(c.skills)
    ensures MissingRequired(c, j) == {} ==>
      RequiredSkillsScore(NormalizeList(c.skills), NormalizeList(j.requiredSkills)) == 1.0
  {
    var req, cand := NormalizeList(j.requiredSkills), NormalizeList(c.skills);
    assert req == (req - cand) + req * cand;
    assert (req - cand) !! req * cand;
    if req - cand == {} {
      assert req <= cand;
    }
  }

  /** The row recorded for a candidate, given the scorer's outcome. */
  function Record(c: Candidate, j: Job, outcome: MatchOutcome): (r: RankedResult)
    ensures r.candidateName == c.name && r.yearsExp == c.experience
    ensures r.score == outcome.score && r.matchLevel == outcome.level
    ensures r.missingRequiredSkills == MissingRequired(c, j)
  {
    RankedResult(c.name, outcome.score, outcome.level, MissingRequired(c, j), c.experience)
  }

  // ---------------------------------------------------------------------------
  // The stable sort by score, highest first

  /** Ordered by score, highest first. */
  predicate NonIncreasing(s: seq<RankedResult>) {
    forall i, k :: 0 <= i < k < |s| ==> s[i].score >= s[k].score
  }

  /** The rows of `s` with score `v`, in their order in `s`. */
  function WithScore(s: seq<RankedResult>, v: real): (t: seq<RankedResult>)
    ensures |t| <= |s|
  {
    if s == [] then []
    else WithScore(s[..|s| - 1], v) + (if s[|s| - 1].score == v then [s[|s| - 1]] else [])
  }

  lemma {:induction false} WithScoreConcat(a: seq<RankedResult>, b: seq<RankedResult>, v: real)
    ensures WithScore(a + b, v) == WithScore(a, v) + WithScore(b, v)
    decreases |b|
  {
    if b == [] {
      assert a + b == a;
    } else {
      var n := |b| - 1;
      assert (a + b)[..|a + b| - 1] == a + b[..n];
      assert (a + b)[|a + b| - 1] == b[n];
      WithScoreConcat(a, b[..n], v);
    }
  }

  /**
   * `x` placed after every row whose score is at least its own, counting from
   * the back: where a stable descending sort puts a newly appended row.
   */
  function Insert(t: seq<RankedResult>, x: RankedResult): (r: seq<RankedResult>)
    ensures |r| == |t| + 1
  {
    if t == [] || t[|t| - 1].score >= x.score then t + [x]
    else Insert(t[..|t| - 1], x) + [t[|t| - 1]]
  }

  /** `sorted(s, key=score, reverse=True)`: insertion of each row, in arrival order. */
  function SortByScore(s: seq<RankedResult>): (r: seq<RankedResult>)
    ensures |r| == |s|
  {
    if s == [] then [] else Insert(SortByScore(s[..|s| - 1]), s[|s| - 1])
  }

  lemma {:induction false} InsertSorted(t: seq<RankedResult>, x: RankedResult)
    requires NonIncreasing(t)
    ensures NonIncreasing(Insert(t, x))
  {
    if !(t == [] || t[|t| - 1].score >= x.score) {
      var n := |t| - 1;
      var front := t[..n];
      InsertSorted(front, x);
      InsertKeepsBound(front, x, t[n].score);
      assert Insert(t, x) == Insert(front, x) + [t[n]];
    }
  }

  /** When every row and the new one score at least `b`, so does every row after insertion. */
  lemma InsertKeepsBound(front: seq<RankedResult>, x: RankedResult, b: real)
    requires forall k :: 0 <= k < |front| ==> front[k].score >= b
    requires x.score >= b
    ensures forall i :: 0 <= i < |Insert(front, x)| ==> Insert(front, x)[i].score >= b
  {
    var r := Insert(front, x);
    InsertMultiset(front, x);
    forall i | 0 <= i < |r| ensures r[i].score >= b {
      assert r[i] in multiset(r);
      if r[i] != x {
        assert r[i] in multiset(front);
        var k :| 0 <= k < |front| && front[k] == r[i];
      }
    }
  }

  lemma {:induction false} InsertMultiset(t: seq<RankedResult>, x: RankedResult)
    ensures multiset(Insert(t, x)) == multiset(t) + multiset{x}
  {
    if !(t == [] || t[|t| - 1].score >= x.score) {
      var n := |t| - 1;
      InsertMultiset(t[..n], x);
      assert t == t[..n] + [t[n]];
    }
  }

  lemma {:induction false} InsertStable(t: seq<RankedResult>, x: RankedResult, v: real)
    ensures WithScore(Insert(t, x), v) == WithScore(t, v) + (if x.score == v then [x] else [])
  {
    if t == [] || t[|t| - 1].score >= x.score {
      WithScoreConcat(t, [x], v);
    } else {
      var n := |t| - 1;
      InsertStable(t[..n], x, v);
      WithScoreConcat(Insert(t[..n], x), [t[n]], v);
      WithScoreConcat(t[..n], [t[n]], v);
      assert t == t[..n] + [t[n]];
    }
  }

  /** The sort orders by score and is a permutation. */
  lemma {:induction false} SortByScoreSortsAndPermutes(s: seq<RankedResult>)
    ensures NonIncreasing(SortByScore(s))
    ensures multiset(SortByScore(s)) == multiset(s)
  {
    if s != [] {
      var n := |s| - 1;
      SortByScoreSortsAndPermutes(s[..n]);
      InsertSorted(SortByScore(s[..n]), s[n]);
      InsertMultiset(SortByScore(s[..n]), s[n]);
      assert s == s[..n] + [s[n]];
    }
  }

  /** The sort is stable: rows of equal score keep their arrival order. */
  lemma {:induction false} SortByScoreStable(s: seq<RankedResult>, v: real)
    ensures WithScore(SortByScore(s), v) == WithScore(s, v)
  {
    if s != [] {
      var n := |s| - 1;
      SortByScoreStable(s[..n], v);
      InsertStable(SortByScore(s[..n]), s[n], v);
    }
  }

  /** Sorting rows already in order leaves them as they are. */
  lemma {:induction false} SortByScoreOfSorted(s: seq<RankedResult>)
    requires NonIncreasing(s)
    ensures SortByScore(s) == s
  {
    if s != [] {
      var n := |s| - 1;
      SortByScoreOfSorted(s[..n]);
      assert s == s[..n] + [s[n]];
      assert n == 0 || s[..n][n - 1].score >= s[n].score;
    }
  }

  // ---------------------------------------------------------------------------
  // CSV export

  /** `to_csv`'s result: a message returned, or an exception raised. */
  datatype CsvOutcome = Returned(message: string) | Raised(error: string)

  const NoDataMessage := "No data to export."
  const MissingBaseDirError := "AttributeError: 'JobReport' object has no attribute 'base_dir'"

  /** The file name: a trailing ".csv" removed once, then "_", the timestamp and ".csv". */
  function CsvFileName(filename: string, timestamp: string): (r: string)
    ensures EndsWith(r, "_" + timestamp + ".csv")
    ensures |r| == |filename| - (if EndsWith(filename, ".csv") then 4 else 0) + |timestamp| + 5
  {
    var stem := if EndsWith(filename, ".csv") then filename[..|filename| - 4] else filename;
    assert (stem + "_" + timestamp + ".csv")[|stem|..] == "_" + timestamp + ".csv";
    stem + "_" + timestamp + ".csv"
  }

  /** The file's path: the file name inside `base`. */
  function CsvPath(base: string, filename: string, timestamp: string): (p: string)
    ensures |base| < |p| && p[..|base|] == base && p[|base|] == '/'
    ensures EndsWith(p, "/" + CsvFileName(filename, timestamp))
    ensures |p| == |base| + 1 + |CsvFileName(filename, timestamp)|
  {
    var name := "/" + CsvFileName(filename, timestamp);
    assert (base + name)[|base|..] == name;
    base + name
  }

  /** An extension the caller wrote is not doubled, and only one is removed. */
  lemma CsvFileNameStripsOnce(stem: string, timestamp: string)
    ensures CsvFileName(stem + ".csv", timestamp) == stem + "_" + timestamp + ".csv"
    ensures !EndsWith(stem, ".csv") ==> CsvFileName(stem, timestamp) == stem + "_" + timestamp + ".csv"
  {
    var f := stem + ".csv";
    assert f[|f| - 4..] == ".csv";
    assert f[..|f| - 4] == stem;
  }

  // ---------------------------------------------------------------------------
  // The report

  class JobReport {
    const job: Job
    const basePath: string
    var results: seq<RankedResult>
    /** The rows in the order they were added. */
    ghost var arrivals: seq<RankedResult>

    /** The ranking is the stable sort, by score, of the rows added so far. */
    ghost predicate Valid()
      reads this
    {
      results == SortByScore(arrivals)
    }

    /** `JobReport(job)`: no rows yet, files under "src/storage". */
    constructor(job: Job)
      ensures Valid()
      ensures this.job == job && basePath == "src/storage"
      ensures results == [] && arrivals == []
    {
      this.job := job;
      basePath := "src/storage";
      results := [];
      arrivals := [];
    }

    /**
     * `add_candidate`: append the candidate's row, then re-sort by score,
     * highest first, keeping arrival order among equal scores.
     */
    method AddCandidate(c: Candidate, outcome: MatchOutcome)
      requires Valid()
      modifies this
      ensures Valid()
      ensures arrivals == old(arrivals) + [Record(c, job, outcome)]
      ensures results == Insert(old(results), Record(c, job, outcome))
      ensures |results| == |old(results)| + 1
      ensures multiset(results) == multiset(old(results)) + multiset{Record(c, job, outcome)}
      ensures NonIncreasing(results)
      ensures forall v :: (WithScore(results, v)
        == WithScore(old(results), v) + (if outcome.score == v then [Record(c, job, outcome)] else []))
    {
      var row := Record(c, job, outcome);
      SortByScoreSortsAndPermutes(arrivals);
      SortByScoreOfSorted(results);
      var appended := results + [row];
      assert appended[..|appended| - 1] == results;
      InsertMultiset(results, row);
      InsertSorted(results, row);
      forall v ensures WithScore(Insert(results, row), v)
        == WithScore(results, v) + (if outcome.score == v then [row] else []) {
        InsertStable(results, row, v);
      }
      arrivals := arrivals + [row];
      assert arrivals[..|arrivals| - 1] == old(arrivals);
      results := SortByScore(appended);
    }

    /**
     * `to_csv` as written: nothing to export gives the message; otherwise the
     * path is built from an attribute the report never sets, which raises.
     */
    function ToCsvAsWritten(filename: string, timestamp: string): (o: CsvOutcome)
      reads this
      ensures results == [] <==> o == Returned(NoDataMessage)
      ensures results != [] ==> o.Raised?
    {
      if results == [] then Returned(NoDataMessage)
      else Raised(MissingBaseDirError)
    }

    /**
     * `to_csv` writing under `basePath`: nothing to export gives the message; a
     * failure to create the directory raises; a failure while writing is
     * reported in the returned message; otherwise the saved path is reported.
     */
    function ToCsv(filename: string, timestamp: string, mkdirError: Option<string>, writeError: Option<string>): (o: CsvOutcome)
      reads this
      ensures results == [] ==> o == Returned(NoDataMessage)
      ensures results != [] && mkdirError.Some? ==> o == Raised(mkdirError.value)
      ensures results != [] && mkdirError.None? && writeError.None? ==>
        o == Returned("Report successfully saved to " + CsvPath(basePath, filename, timestamp))
      ensures results != [] && mkdirError.None? && writeError.Some? ==>
        o == Returned("Failed to save report: " + writeError.value)
    {
      if results == [] then Returned(NoDataMessage)
      else
        var path := CsvPath(basePath, filename, timestamp);
        match mkdirError
        case Some(e) => Raised(e)
        case None =>
          match writeError
          case None => Returned("Report successfully saved to " + path)
          case Some(e) => Returned("Failed to save report: " + e)
    }
  }

  /**
   * Every non-empty report makes the export as written raise, while the
   * corrected one, when neither making the directory nor writing fails,
   * returns the success message rather than the no-data one.
   */
  lemma ExportAfterOneCandidate(report: JobReport, filename: string, timestamp: string)
    requires report.results != []
    ensures report.ToCsvAsWritten(filename, timestamp).Raised?
    ensures report.ToCsv(filename, timestamp, None, None).Returned?
    ensures report.ToCsv(filename, timestamp, None, None).message != NoDataMessage
  {
    var m := report.ToCsv(filename, timestamp, None, None).message;
    assert m[..5] == "Repor";
  }
}
