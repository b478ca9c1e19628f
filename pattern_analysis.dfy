/** The pattern-analysis panel: the colour band of a reliability score and
    the panel's view state (`loading`, `analysis`) around a call to the
    analysis service, which is given as a function. */
module PatternAnalysis {
  import opened Types

  const EMERALD: string := "text-emerald-600"
  const AMBER: string := "text-amber-600"
  const ROSE: string := "text-rose-600"

  /** The colour class of a reliability score: always one of the three
      band classes. */
  function ScoreColor(score: real): (r: string)
    ensures r == EMERALD || r == AMBER || r == ROSE
  {
    if score >= 80.0 then EMERALD
    else if score >= 50.0 then AMBER
    else ROSE
  }

  /** The position of a colour class in the banding: rose below amber below
      emerald. */
  function BandRank(color: string): nat
  {
    if color == EMERALD then 2 else if color == AMBER then 1 else 0
  }

  /** Every score gets exactly one of the three classes: emerald from 80,
      amber from 50 up to 80, rose below 50. */
  lemma ScoreColorBands(score: real)
    ensures ScoreColor(score) == EMERALD <==> score >= 80.0
    ensures ScoreColor(score) == AMBER <==> 50.0 <= score < 80.0
    ensures ScoreColor(score) == ROSE <==> score < 50.0
  {
    // The sixth character tells the three class strings apart.
    assert EMERALD[5] == 'e' && AMBER[5] == 'a' && ROSE[5] == 'r';
  }

  /** A higher score never gets a lower band. */
  lemma ScoreColorMonotone(low: real, high: real)
    requires low <= high
    ensures BandRank(ScoreColor(low)) <= BandRank(ScoreColor(high))
  {
    ScoreColorBands(low);
    ScoreColorBands(high);
  }

  /** What the analysis service answers when its call or the parsing of the
      answer fails. */
  const FALLBACK_ANALYSIS: AnalysisResult := AnalysisResult(
    0.0,
    "Analysis unavailable. Please ensure your ledger has active data.",
    ["Error retrieving patterns."],
    "Review the ledger manually or check API connectivity.")

  /** The fallback's score of 0 is shown in the rose band. */
  lemma FallbackIsRose()
    ensures ScoreColor(FALLBACK_ANALYSIS.reliabilityScore) == ROSE
    ensures BandRank(ScoreColor(FALLBACK_ANALYSIS.reliabilityScore)) == 0
  {
    ScoreColorBands(FALLBACK_ANALYSIS.reliabilityScore);
  }

  /** The view state of the panel. */
  class AnalysisPanel {
    var loading: bool
    var analysis: Option<AnalysisResult>

    /** The panel starts idle with no analysis. */
    constructor ()
      ensures !loading && analysis == None
      ensures ShowsGenerate()
    {
      loading := false;
      analysis := None;
    }

    /** Whether the "Generate" button is shown. */
    predicate ShowsGenerate()
      reads this
      ensures ShowsGenerate() ==> !loading && !ShowsResult()
    {
      analysis == None && !loading
    }

    /** Whether the result view (score, summary, patterns, advice and the
        reset button) is shown. */
    predicate ShowsResult()
      reads this
      ensures ShowsResult() ==> analysis != None
    {
      analysis.Some?
    }

    /** The first half of the handler, up to the awaited call: the panel
        shows its loading placeholder. */
    method StartAnalyze()
      modifies this`loading
      ensures loading && !ShowsGenerate()
    {
      loading := true;
    }

    /** The second half, once the call has answered `result`: the result is
        stored and loading ends. */
    method FinishAnalyze(result: AnalysisResult)
      modifies this
      ensures analysis == Some(result) && !loading
      ensures ShowsResult() && !ShowsGenerate()
    {
      analysis := Some(result);
      loading := false;
    }

    /** The whole handler: loading on, call the service on the current
        ledger, store its answer, loading off. */
    method HandleAnalyze(commitments: seq<Commitment>, analyze: seq<Commitment> -> AnalysisResult)
      modifies this
      ensures analysis == Some(analyze(commitments)) && !loading
      ensures ShowsResult() && !ShowsGenerate()
    {
      StartAnalyze();
      var result := analyze(commitments);
      FinishAnalyze(result);
    }

    /** The reset button: the analysis is dropped, so an idle panel shows
        the "Generate" button again. */
    method Reset()
      modifies this`analysis
      ensures analysis == None && loading == old(loading)
      ensures !ShowsResult()
      ensures ShowsGenerate() <==> !loading
    {
      analysis := None;
    }
  }
}
