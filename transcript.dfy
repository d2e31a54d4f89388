/**
 * `preprocess_transcript`: turn the fetched payload into one cleaned text.
 * A string payload is decoded as JSON first; the value must be a list whose
 * entries all carry a string under `"text"`; each text is cleaned and the
 * results are joined by single spaces, in entry order. Every failure gives
 * `None` and no partial text.
 */
module Transcript {
  import opened Wrappers
  import opened Strings
  import opened Cleaning

  /** A decoded JSON value. */
  datatype Json =
    | JNull
    | JBool(b: bool)
    | JNumber(n: int)
    | JString(s: string)
    | JArray(items: seq<Json>)
    | JObject(fields: map<string, Json>)

  /** `entry["text"]` succeeds and yields a string that `clean_text` accepts:
      the entry is a mapping with a string under the key `"text"`. */
  predicate HasText(entry: Json) {
    entry.JObject? && "text" in entry.fields && entry.fields["text"].JString?
  }

  function TextOf(entry: Json): string
    requires HasText(entry)
  {
    entry.fields["text"].s
  }

  /** Every entry of the list has a string `"text"`. */
  predicate AllHaveText(entries: seq<Json>) {
    forall i :: 0 <= i < |entries| ==> HasText(entries[i])
  }

  /** The payload once a string has gone through `json.loads` (`decode`
      answers `None` where `json.loads` raises); any other value is used as
      given. */
  function Decoded(data: Json, decode: string -> Option<Json>): Option<Json> {
    if data.JString? then decode(data.s) else Some(data)
  }

  /** `[clean_text(entry["text"]) for entry in entries]`. */
  function CleanedTexts(entries: seq<Json>): (r: seq<string>)
    requires AllHaveText(entries)
    ensures |r| == |entries|
  {
    if entries == [] then [] else [CleanText(TextOf(entries[0]))] + CleanedTexts(entries[1..])
  }

  /** `preprocess_transcript`: a text exactly when the payload is, or
      decodes to, a list whose entries all have a string `"text"`, and then
      no word is lost, invented or reordered: splitting the text gives the
      words of every entry's text with its timestamps removed, entry after
      entry. */
  function Preprocess(data: Json, decode: string -> Option<Json>): (r: Option<string>)
    ensures r.Some? <==>
      Decoded(data, decode).Some? && Decoded(data, decode).value.JArray? &&
      AllHaveText(Decoded(data, decode).value.items)
    ensures r.Some? ==> Words(r.value) == TranscriptWords(Decoded(data, decode).value.items)
  {
    match Decoded(data, decode)
    case None => None
    case Some(v) =>
      if !v.JArray? then None
      else if !AllHaveText(v.items) then None
      else
        WordsOfJoinAll(CleanedTexts(v.items));
        FlatCleanedWords(v.items);
        Some(JoinWith(CleanedTexts(v.items), " "))
  }

  /** A string payload that does not decode gives `None`. */
  lemma PreprocessRejectsUndecodable(raw: string, decode: string -> Option<Json>)
    requires decode(raw).None?
    ensures Preprocess(JString(raw), decode).None?
  {
  }

  /** A payload that is, or decodes to, anything but a list gives `None`. */
  lemma PreprocessRejectsNonList(data: Json, decode: string -> Option<Json>)
    requires Decoded(data, decode).Some? && !Decoded(data, decode).value.JArray?
    ensures Preprocess(data, decode).None?
  {
  }

  /** One entry without a string `"text"` anywhere in the list gives `None`,
      whatever the other entries hold. */
  lemma PreprocessRejectsBadEntry(data: Json, decode: string -> Option<Json>, entries: seq<Json>, k: nat)
    requires Decoded(data, decode) == Some(JArray(entries))
    requires k < |entries| && !HasText(entries[k])
    ensures Preprocess(data, decode).None?
  {
  }

  /** The success condition of `Preprocess`, stated with the entries named:
      there is a list, given or decoded, whose every entry has a string
      `"text"`. */
  lemma PreprocessSucceeds(data: Json, decode: string -> Option<Json>)
    ensures Preprocess(data, decode).Some? <==>
      exists entries :: Decoded(data, decode) == Some(JArray(entries)) && AllHaveText(entries)
  {
    if Preprocess(data, decode).Some? {
      var entries := Decoded(data, decode).value.items;
      assert Decoded(data, decode) == Some(JArray(entries));
    }
  }

  /** A list whose entries all have text gives `" ".join([clean_text(e["text"])
      for e in entries])`: entry `i`'s cleaned text in slot `i`. */
  lemma PreprocessList(data: Json, decode: string -> Option<Json>, entries: seq<Json>)
    requires Decoded(data, decode) == Some(JArray(entries)) && AllHaveText(entries)
    ensures Preprocess(data, decode) ==
      Some(JoinWith(seq(|entries|, i requires 0 <= i < |entries| && HasText(entries[i]) => CleanText(TextOf(entries[i]))), " "))
  {
    var cleaned := seq(|entries|, i requires 0 <= i < |entries| && HasText(entries[i]) => CleanText(TextOf(entries[i])));
    forall i | 0 <= i < |entries|
      ensures cleaned[i] == CleanedTexts(entries)[i]
    {
      CleanedTextsAt(entries, i);
    }
    assert cleaned == CleanedTexts(entries);
  }

  /** The `i`-th cleaned text is the `i`-th entry's text, cleaned. */
  lemma {:induction false} CleanedTextsAt(entries: seq<Json>, i: nat)
    requires AllHaveText(entries) && i < |entries|
    ensures CleanedTexts(entries)[i] == CleanText(TextOf(entries[i]))
  {
    if i > 0 {
      CleanedTextsAt(entries[1..], i - 1);
    }
  }

  lemma CleanedTextsTwo(e1: Json, e2: Json)
    requires HasText(e1) && HasText(e2)
    ensures AllHaveText([e1, e2])
    ensures CleanedTexts([e1, e2]) == [CleanText(TextOf(e1)), CleanText(TextOf(e2))]
  {
    assert [e1, e2][1..] == [e2];
    assert [e2][1..] == [];
  }

  lemma CleanedTextsThree(e1: Json, e2: Json, e3: Json)
    requires HasText(e1) && HasText(e2) && HasText(e3)
    ensures AllHaveText([e1, e2, e3])
    ensures CleanedTexts([e1, e2, e3]) == [CleanText(TextOf(e1)), CleanText(TextOf(e2)), CleanText(TextOf(e3))]
  {
    assert [e1, e2, e3][1..] == [e2, e3];
    CleanedTextsTwo(e2, e3);
  }

  /** Two-entry order: the first entry's cleaned text, one space, the
      second's. */
  lemma PreprocessTwoEntries(data: Json, decode: string -> Option<Json>, e1: Json, e2: Json)
    requires Decoded(data, decode) == Some(JArray([e1, e2]))
    requires HasText(e1) && HasText(e2)
    ensures Preprocess(data, decode) == Some(CleanText(TextOf(e1)) + " " + CleanText(TextOf(e2)))
  {
    CleanedTextsTwo(e1, e2);
    JoinWithTwo(CleanText(TextOf(e1)), CleanText(TextOf(e2)), " ");
  }

  /** Three-entry order: the cleaned texts in entry order, one space between
      each. */
  lemma PreprocessThreeEntries(data: Json, decode: string -> Option<Json>, e1: Json, e2: Json, e3: Json)
    requires Decoded(data, decode) == Some(JArray([e1, e2, e3]))
    requires HasText(e1) && HasText(e2) && HasText(e3)
    ensures Preprocess(data, decode) ==
      Some(CleanText(TextOf(e1)) + " " + CleanText(TextOf(e2)) + " " + CleanText(TextOf(e3)))
  {
    CleanedTextsThree(e1, e2, e3);
    JoinWithThree(CleanText(TextOf(e1)), CleanText(TextOf(e2)), CleanText(TextOf(e3)), " ");
  }

  /** The words of the text with timestamps removed, entry by entry. */
  function TranscriptWords(entries: seq<Json>): (r: seq<string>)
    requires AllHaveText(entries)
  {
    if entries == [] then []
    else Words(RemoveTimestamps(TextOf(entries[0]))) + TranscriptWords(entries[1..])
  }

  lemma {:induction false} FlatCleanedWords(entries: seq<Json>)
    requires AllHaveText(entries)
    ensures FlatWords(CleanedTexts(entries)) == TranscriptWords(entries)
  {
    if entries != [] {
      CleanTextWords(TextOf(entries[0]));
      FlatCleanedWords(entries[1..]);
    }
  }

  /** When no entry cleans to `""`, the preprocessed text is single-spaced:
      no whitespace at either end, none but `' '`, never two in a row. */
  lemma PreprocessSingleSpaced(data: Json, decode: string -> Option<Json>, entries: seq<Json>)
    requires Decoded(data, decode) == Some(JArray(entries)) && AllHaveText(entries)
    requires forall i :: 0 <= i < |entries| ==> CleanText(TextOf(entries[i])) != ""
    ensures Preprocess(data, decode).Some?
    ensures SingleSpaced(Preprocess(data, decode).value)
  {
    var r := CleanedTexts(entries);
    forall i | 0 <= i < |r|
      ensures r[i] != [] && SingleSpaced(r[i])
    {
      CleanedTextsAt(entries, i);
    }
    JoinSingleSpaced(r);
  }

  /** An entry that cleans to `""` still takes its place in the join: a
      timestamp-only first entry and a plain word give `" " + word`, which
      starts with a space. */
  lemma PreprocessLeadingSpace(data: Json, decode: string -> Option<Json>, e1: Json, e2: Json)
    requires Decoded(data, decode) == Some(JArray([e1, e2]))
    requires HasText(e1) && IsTimestamp(TextOf(e1))
    requires HasText(e2) && IsWord(TextOf(e2)) && NoOpener(TextOf(e2))
    ensures Preprocess(data, decode) == Some(" " + TextOf(e2))
    ensures !SingleSpaced(Preprocess(data, decode).value)
  {
    PreprocessTwoEntries(data, decode, e1, e2);
    CleanTextOfStamp(TextOf(e1));
    CleanTextOfPlainWord(TextOf(e2));
    assert [] + " " + TextOf(e2) == " " + TextOf(e2);
    assert (" " + TextOf(e2))[0] == ' ';
  }

  /** Two entries shaped like `"[00:01] Hello world"` and
      `"(00:05) Goodbye   now"` preprocess to their four words, one space
      between each, as in `"Hello world Goodbye now"`. */
  lemma PreprocessStampedEntries(data: Json, decode: string -> Option<Json>, e1: Json, e2: Json,
                                 t1: string, w1: string, g1: string, w2: string,
                                 t2: string, w3: string, g2: string, w4: string)
    requires Decoded(data, decode) == Some(JArray([e1, e2]))
    requires HasText(e1) && TextOf(e1) == t1 + (" " + w1 + g1 + w2)
    requires HasText(e2) && TextOf(e2) == t2 + (" " + w3 + g2 + w4)
    requires IsTimestamp(t1) && IsTimestamp(t2)
    requires IsWord(w1) && IsWord(w2) && IsWord(w3) && IsWord(w4)
    requires NoOpener(w1) && NoOpener(w2) && NoOpener(w3) && NoOpener(w4)
    requires g1 != [] && AllSpace(g1) && g2 != [] && AllSpace(g2)
    ensures Preprocess(data, decode) == Some(w1 + " " + w2 + " " + w3 + " " + w4)
  {
    CleanTextStampAndTwoWords(t1, w1, g1, w2);
    CleanTextStampAndTwoWords(t2, w3, g2, w4);
    PreprocessTwoPairs(data, decode, e1, e2, w1, w2, w3, w4);
  }

  /** Two entries that clean to two words each give the four words in order. */
  lemma PreprocessTwoPairs(data: Json, decode: string -> Option<Json>, e1: Json, e2: Json,
                           w1: string, w2: string, w3: string, w4: string)
    requires Decoded(data, decode) == Some(JArray([e1, e2]))
    requires HasText(e1) && CleanText(TextOf(e1)) == w1 + " " + w2
    requires HasText(e2) && CleanText(TextOf(e2)) == w3 + " " + w4
    ensures Preprocess(data, decode) == Some(w1 + " " + w2 + " " + w3 + " " + w4)
  {
    PreprocessTwoEntries(data, decode, e1, e2);
    assert (w1 + " " + w2) + " " + (w3 + " " + w4) == w1 + " " + w2 + " " + w3 + " " + w4;
  }
}
