/**
 * Skill normalisation and the match-level classifier
 * (`normalize_list` and `match_level`).
 */
module MatcherUtils {
  import opened PyStr

  // ---------------------------------------------------------------------------
  // normalize_list

  /** `item.strip().lower()`: the form under which two skills are the same skill. */
  function Normalize(item: string): string {
    Lower(Strip(item))
  }

  /** A normal form is no longer than the item and neither starts nor ends with whitespace. */
  lemma NormalizeShape(item: string)
    ensures |Normalize(item)| <= |item|
    ensures Normalize(item) == [] || (!IsSpace(Normalize(item)[0]) && !IsSpace(Normalize(item)[|Normalize(item)| - 1]))
  {
    LowerEndsKeepSpaces(Strip(item));
  }

  /** Normalising twice is normalising once. */
  lemma NormalizeIdempotent(item: string)
    ensures Normalize(Normalize(item)) == Normalize(item)
  {
    var t := Strip(item);
    StripLowerCommute(t);
    StripIdempotent(item);
    LowerIdempotent(t);
  }

  /**
   * Two items that differ only in letter case and in the whitespace around them
   * have the same normal form.
   */
  lemma NormalizeIgnoresCaseAndPadding(a: string, b: string, pre: string, post: string)
    requires Lower(a) == Lower(b) && AllSpace(pre) && AllSpace(post)
    ensures Normalize(pre + a + post) == Normalize(b)
  {
    StripIgnoresPadding(pre, a, post);
    StripLowerCommute(a);
    StripLowerCommute(b);
  }

  /** `normalize_list(items)`: the set of the items' normal forms. */
  function NormalizeList(items: seq<string>): (r: set<string>)
    ensures r == {} <==> items == []
  {
    var forms := set x | x in items :: Normalize(x);
    assert items != [] ==> items[0] in items && Normalize(items[0]) in forms;
    forms
  }

  /** Every item's normal form is in the set, and every element is some item's normal form. */
  lemma NormalizeListMembers(items: seq<string>)
    ensures forall x :: x in items ==> Normalize(x) in NormalizeList(items)
    ensures forall y :: y in NormalizeList(items) ==> exists x :: x in items && y == Normalize(x)
  {
  }

  /** One more item adds exactly its normal form. */
  lemma NormalizeListAppend(items: seq<string>, x: string)
    ensures NormalizeList(items + [x]) == NormalizeList(items) + {Normalize(x)}
  {
    assert items + [x] == items + [x];
    assert forall z :: z in items + [x] <==> z in items || z == x;
  }

  /** Normalising never yields more skills than there were items. */
  lemma {:induction false} NormalizeListSize(items: seq<string>)
    ensures |NormalizeList(items)| <= |items|
  {
    if items != [] {
      var n := |items| - 1;
      assert items == items[..n] + [items[n]];
      NormalizeListAppend(items[..n], items[n]);
      NormalizeListSize(items[..n]);
      AddOneCard(NormalizeList(items[..n]), Normalize(items[n]));
    }
  }

  lemma AddOneCard<T>(a: set<T>, y: T)
    ensures |a + {y}| <= |a| + 1
  {
    if y in a {
      assert a + {y} == a;
    }
  }

  /**
   * The result is already normalised: listing it and normalising again
   * (`normalize_list(list(result))`) gives the same set.
   */
  lemma NormalizeListIdempotent(items: seq<string>, listed: seq<string>)
    requires forall y :: y in listed <==> y in NormalizeList(items)
    ensures NormalizeList(listed) == NormalizeList(items)
  {
    forall y | y in listed ensures Normalize(y) == y {
      var x :| x in items && y == Normalize(x);
      NormalizeIdempotent(x);
    }
    forall y | y in NormalizeList(items) ensures y in NormalizeList(listed) {
      assert Normalize(y) == y;
    }
  }

  /** Two spellings of one skill that differ only in case and padding collapse to one element. */
  lemma NormalizeListCollapses(a: string, b: string, pre: string, post: string)
    requires Lower(a) == Lower(b) && AllSpace(pre) && AllSpace(post)
    ensures NormalizeList([pre + a + post, b]) == {Normalize(b)}
  {
    NormalizeIgnoresCaseAndPadding(a, b, pre, post);
  }

  // ---------------------------------------------------------------------------
  // match_level

  /** The five labels, from the lowest band to the highest. */
  datatype MatchLevel = NotRecommended | LowRelevance | PotentialFit | StrongMatch | TopTalent {

    function Label(): string {
      match this
      case TopTalent => "Top Talent"
      case StrongMatch => "Strong Match"
      case PotentialFit => "Potential Fit"
      case LowRelevance => "Low Relevance"
      case NotRecommended => "Not Recommended"
    }

    /** Position in the ranking of labels: 0 for the lowest band, 4 for the highest. */
    function Rank(): nat {
      match this
      case NotRecommended => 0
      case LowRelevance => 1
      case PotentialFit => 2
      case StrongMatch => 3
      case TopTalent => 4
    }
  }

  /** The band of a score. Every band but the lowest is closed below; 0.15 itself is not recommended. */
  function Classify(score: real): (level: MatchLevel)
    ensures level == TopTalent <==> 0.85 <= score
    ensures level == StrongMatch <==> 0.70 <= score < 0.85
    ensures level == PotentialFit <==> 0.40 <= score < 0.70
    ensures level == LowRelevance <==> 0.15 < score < 0.40
    ensures level == NotRecommended <==> score <= 0.15
  {
    if score >= 0.85 then TopTalent
    else if score >= 0.70 then StrongMatch
    else if score >= 0.40 then PotentialFit
    else if score > 0.15 then LowRelevance
    else NotRecommended
  }

  /** `match_level(score)`: one of exactly five labels. */
  function MatchLevelOf(score: real): (name: string)
    ensures name in {"Top Talent", "Strong Match", "Potential Fit", "Low Relevance", "Not Recommended"}
    ensures name == "Not Recommended" <==> score <= 0.15
    ensures name == "Top Talent" <==> score >= 0.85
  {
    Classify(score).Label()
  }

  /** Different bands have different labels, so a label identifies its band. */
  lemma LabelsDistinct(l1: MatchLevel, l2: MatchLevel)
    ensures l1.Label() == l2.Label() <==> l1 == l2
  {
  }

  /** A higher score never receives a lower-ranked label. */
  lemma ClassifyMonotone(s1: real, s2: real)
    requires s1 <= s2
    ensures Classify(s1).Rank() <= Classify(s2).Rank()
  {
  }

  /** The edges of the bands, including the asymmetric one at 0.15. */
  lemma ClassifyBoundaries()
    ensures Classify(0.85) == TopTalent && Classify(0.8499) == StrongMatch
    ensures Classify(0.70) == StrongMatch && Classify(0.40) == PotentialFit
    ensures Classify(0.15) == NotRecommended && Classify(0.1501) == LowRelevance
  {
  }
}
