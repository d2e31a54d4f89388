/**
 * `main`: fetch, preprocess, summarise, print; the first stage whose result
 * is falsy (`None` or `""`) stops the run with that stage's failure message.
 * Fetching, JSON decoding and the summariser are parameters.
 */
module Pipeline {
  import opened Wrappers
  import opened Strings
  import opened Cleaning
  import opened Transcript
  import opened Summary

  /** What a run prints last: one of the three failure messages, or the
      summary. */
  datatype Outcome = FetchFailed | PreprocessFailed | SummaryFailed | Printed(summary: string)

  /** `main(video_id)`, where `fetch` stands for `fetch_transcript`. The run
      stops at the fetch stage exactly when the fetch gives `None` or `""`;
      when it prints, it prints the non-empty summary of the preprocessed
      text. */
  function Run(videoId: string, fetch: string -> Option<string>, decode: string -> Option<Json>,
               summarize: (string, SummarizerOptions) -> string): (r: Outcome)
    ensures r == FetchFailed <==> fetch(videoId) in {None, Some("")}
    ensures r.Printed? ==>
      && fetch(videoId).Some?
      && Preprocess(JString(fetch(videoId).value), decode).Some?
      && r.summary == SummaryOf(Preprocess(JString(fetch(videoId).value), decode).value, summarize)
      && r.summary != ""
  {
    var transcript := fetch(videoId);
    if transcript.None? || transcript.value == "" then FetchFailed
    else
      var processed := Preprocess(JString(transcript.value), decode);
      if processed.None? || processed.value == "" then PreprocessFailed
      else
        var summary := SummaryOf(processed.value, summarize);
        if summary == "" then SummaryFailed
        else Printed(summary)
  }

  /** When the fetch stage fails, neither decoding nor the summariser has
      any say in the outcome. */
  lemma RunFetchFailed(videoId: string, fetch: string -> Option<string>,
                       decode: string -> Option<Json>, summarize: (string, SummarizerOptions) -> string,
                       decode': string -> Option<Json>, summarize': (string, SummarizerOptions) -> string)
    ensures fetch(videoId) in {None, Some("")} ==>
      Run(videoId, fetch, decode, summarize) == Run(videoId, fetch, decode', summarize')
  {
  }

  /** Preprocessing fails exactly when the fetched text is non-empty but
      preprocesses to `None` or `""`; the summariser then has no say. */
  lemma RunPreprocessFailed(videoId: string, fetch: string -> Option<string>,
                            decode: string -> Option<Json>, summarize: (string, SummarizerOptions) -> string,
                            summarize': (string, SummarizerOptions) -> string)
    ensures Run(videoId, fetch, decode, summarize) == PreprocessFailed <==>
      exists raw :: fetch(videoId) == Some(raw) && raw != "" && Preprocess(JString(raw), decode) in {None, Some("")}
    ensures Run(videoId, fetch, decode, summarize) == PreprocessFailed ==>
      Run(videoId, fetch, decode, summarize') == PreprocessFailed
  {
    var f := fetch(videoId);
    if f.Some? && f.value != "" {
      assert fetch(videoId) == Some(f.value);
    }
  }

  /** The summary stage fails exactly when both earlier stages give
      non-empty text and the summary of the preprocessed text is `""`. */
  lemma RunSummaryFailed(videoId: string, fetch: string -> Option<string>,
                         decode: string -> Option<Json>, summarize: (string, SummarizerOptions) -> string)
    ensures Run(videoId, fetch, decode, summarize) == SummaryFailed <==>
      exists raw, text :: fetch(videoId) == Some(raw) && raw != "" &&
        Preprocess(JString(raw), decode) == Some(text) && text != "" && SummaryOf(text, summarize) == ""
  {
    var f := fetch(videoId);
    if f.Some? && f.value != "" {
      var p := Preprocess(JString(f.value), decode);
      if p.Some? && p.value != "" {
        assert fetch(videoId) == Some(f.value) && Preprocess(JString(f.value), decode) == Some(p.value);
      }
    }
  }

  /** A summary is printed exactly when every stage gives non-empty text,
      and what is printed is the summary of the preprocessed text. */
  lemma RunPrinted(videoId: string, fetch: string -> Option<string>,
                   decode: string -> Option<Json>, summarize: (string, SummarizerOptions) -> string,
                   raw: string, text: string)
    requires fetch(videoId) == Some(raw) && Preprocess(JString(raw), decode) == Some(text)
    ensures Run(videoId, fetch, decode, summarize).Printed? <==>
      raw != "" && text != "" && SummaryOf(text, summarize) != ""
    ensures Run(videoId, fetch, decode, summarize).Printed? ==>
      Run(videoId, fetch, decode, summarize).summary == SummaryOf(text, summarize)
  {
  }

  /** End to end: a transcript of two entries shaped like
      `"[00:01] Hello world"` and `"(00:05) Goodbye   now"` is cleaned to
      the four words, which fit in one chunk, so the summariser is called
      once on them and its non-empty answer is printed unchanged. */
  lemma RunTwoStampedEntries(videoId: string, fetch: string -> Option<string>,
                             decode: string -> Option<Json>, summarize: (string, SummarizerOptions) -> string,
                             raw: string, e1: Json, e2: Json,
                             t1: string, w1: string, g1: string, w2: string,
                             t2: string, w3: string, g2: string, w4: string)
    requires fetch(videoId) == Some(raw) && raw != ""
    requires decode(raw) == Some(JArray([e1, e2]))
    requires HasText(e1) && TextOf(e1) == t1 + (" " + w1 + g1 + w2)
    requires HasText(e2) && TextOf(e2) == t2 + (" " + w3 + g2 + w4)
    requires IsTimestamp(t1) && IsTimestamp(t2)
    requires IsWord(w1) && IsWord(w2) && IsWord(w3) && IsWord(w4)
    requires NoOpener(w1) && NoOpener(w2) && NoOpener(w3) && NoOpener(w4)
    requires g1 != [] && AllSpace(g1) && g2 != [] && AllSpace(g2)
    requires |w1| + |w2| + |w3| + |w4| + 3 <= MaxChunkSize
    requires summarize(w1 + " " + w2 + " " + w3 + " " + w4, Greedy) != ""
    ensures Run(videoId, fetch, decode, summarize) == Printed(summarize(w1 + " " + w2 + " " + w3 + " " + w4, Greedy))
  {
    var text := w1 + " " + w2 + " " + w3 + " " + w4;
    PreprocessStampedEntries(JString(raw), decode, e1, e2, t1, w1, g1, w2, t2, w3, g2, w4);
  }
}
