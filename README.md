# YouTube transcript summariser: text path

This project models the text path of `src/main.py`, a command-line tool
that fetches a video's transcript, normalises it and summarises it with a
pretrained model.

- `clean_text` (`cleaning.dfy`) is modelled as three functions in a row:
  - `RemoveTimestamps` is a left-to-right scan that deletes each `[d+:d+]`
    or `(d+:d+)` match. It is the first `re.sub`.
  - `Collapse` turns every run of whitespace into one space. It is the
    second `re.sub`.
  - `Trim` is `strip()`.

  The reference definition is Python's `" ".join(t.split())`, built from
  `Words` and `JoinWith` in `strings.dfy`. The contract of `CleanText`
  states that cleaning equals this join of words and is single-spaced, and
  lemmas cover its words and when it is empty.
- `preprocess_transcript` (`transcript.dfy`) works on a small JSON value
  type. A string payload goes through a decoding function parameter, which
  stands for `json.loads`. The value must then be a list, and every entry
  must be a mapping with a string `"text"`. The cleaned texts are joined by
  spaces in entry order, and any failure gives `None`.
- Chunking and `generate_summary` (`summary.dfy`):
  - `Chunks` is the comprehension `text[i:i+1000] for i in range(0, len(text), 1000)`.
  - The summary loop is the method `GenerateSummary`. It appends one
    summariser result per chunk, and it is proved equal to the function
    `SummaryOf`.
  - The summariser is a function parameter that receives the fixed options
    `Greedy`, that is `max_length=150, min_length=50, do_sample=False`.
- `main` (`pipeline.dfy`) is the function `Run`. It stops at the first stage
  whose result is falsy and returns the message it ends on, as an `Outcome`.
  `fetch_transcript` is a parameter.

Whitespace is Python's ASCII whitespace: space, `\t` to `\r`, and `\x1c` to
`\x1f`. Digits are `'0'` to `'9'`.

Some behaviour that a reader might expect of this code does not hold. The
model follows the code, and lemmas prove the cases that break.

- Cleaning is not idempotent, and it can leave a timestamp behind. Deleting
  the inner `[2:3]` of `[1[2:3]:4]` closes up `[1:4]`, and a second pass
  deletes that too (`Cleaning.CleanTextNotIdempotent`).
- The joined output of `preprocess_transcript` is single-spaced when no
  entry cleans to `""` (`Transcript.PreprocessSingleSpaced`), but not
  always otherwise. An entry that is only a timestamp still takes its slot
  in the join, so next to another entry it leaves a stray space. For
  example, entries `"[00:01]"` and `"hi"` give `" hi"`
  (`Transcript.PreprocessLeadingSpace`).

## Model

| member | source | states |
|---|---|---|
| Cleaning.MatchLen | src/main.py:49 | The length of the timestamp match at the scan position is 0 (no match) or at least 5, and never longer than the text. |
| Cleaning.MatchLenSound | src/main.py:49 | A non-zero match length marks a prefix that matches `\[\d+:\d+\]` or `\(\d+:\d+\)` as a whole. |
| Cleaning.MatchLenComplete | src/main.py:49 | Every prefix that matches the pattern is the one the scan finds, so the match at a position is unique and nothing is missed. |
| Cleaning.RemoveTimestamps | src/main.py:49 | The substitution never lengthens the text. |
| Cleaning.RemoveTimestampsDropsMatch | src/main.py:49 | A timestamp at the scan position is deleted whole, and the scan resumes right after it. |
| Cleaning.RemoveTimestampsKeepsChar | src/main.py:49 | Where no timestamp starts, the character is kept in place and the scan moves on by one. |
| Cleaning.RemoveTimestampsNoOpenerPrefix | src/main.py:49 | Text with no `[` or `(` is copied through unchanged, whatever follows it. |
| Cleaning.RemoveTimestampsNoColon | src/main.py:49 | Text with no colon, such as `[Music]`, is left unchanged. |
| Cleaning.RemoveTimestampsNested | src/main.py:49 | In `[a[b:c]:d]` only the inner `[b:c]` is deleted, leaving `[a:d]`. |
| Cleaning.Collapse | src/main.py:50 | Collapsing is empty exactly when its input is. It starts with whitespace exactly when its input does. Its only whitespace is `' '`, and it never has two whitespace characters in a row. |
| Cleaning.TrimCollapse | src/main.py:50 | Collapsing whitespace and then stripping equals `" ".join(t.split())`. |
| Cleaning.CleanText | src/main.py:47-51 | `clean_text(s)` is the words of `s`, with its timestamps removed, joined by single spaces. The result has no whitespace at either end, its only whitespace is `' '`, and never two in a row. |
| Cleaning.CleanTextWords | src/main.py:49-50 | Splitting the cleaned text gives exactly the words of the timestamp-free text, in order. |
| Cleaning.CleanTextEmpty | src/main.py:47-51 | The cleaned text is `""` exactly when nothing but whitespace is left after timestamp removal. |
| Cleaning.CleanTextNoColon | src/main.py:47-51 | Text with no colon keeps every word; only its whitespace is normalised. |
| Cleaning.CleanTextDropsLeadingStamp | src/main.py:49 | A leading timestamp makes no difference to the cleaned text. |
| Cleaning.CleanTextOfStamp | src/main.py:47-51 | A lone timestamp cleans to `""`. |
| Cleaning.CleanTextOfPlainWord | src/main.py:47-51 | A word with no bracket cleans to itself. |
| Cleaning.CleanTextStampAndTwoWords | src/main.py:47-51 | A timestamp, a space, a word, a whitespace run and a word clean to the two words with one space between: `"(00:05) Goodbye   now"` gives `"Goodbye now"`. |
| Cleaning.CleanTextStampsAndSpaces | src/main.py:49-51 | Text made only of timestamps and whitespace cleans to `""`. |
| Cleaning.CleanTextKeepsTwoColons | src/main.py:49 | `[a:b:c]` is not a timestamp and survives cleaning unchanged. |
| Cleaning.CleanTextNotIdempotent | src/main.py:47-51 | `[a[b:c]:d]` cleans to `[a:d]`, which is itself a timestamp and cleans to `""`. Cleaning twice differs from cleaning once. |
| Strings.Trim | src/main.py:50 | `strip()` never lengthens the text, leaves no whitespace at either end, and gives `""` exactly when the text is all whitespace. |
| Strings.TrimStartSuffix | src/main.py:50 | The left strip is a suffix of its input that does not start with whitespace, and it drops only whitespace. |
| Strings.TrimEndPrefix | src/main.py:50 | The right strip is a prefix of its input that does not end with whitespace, and it drops only whitespace. |
| Strings.Words | src/main.py:50 | The maximal runs between `\s+` matches, as `split()` gives them: every element is a non-empty run with no whitespace. |
| Strings.JoinWith | src/main.py:77 | A `" ".join` is `""` exactly when there are no parts, or one empty part. |
| Strings.JoinSingleSpaced | src/main.py:77 | Joining non-empty single-spaced parts with `" "` gives single-spaced text. |
| Strings.WordsOfJoinAll | src/main.py:77 | Splitting a `" ".join` gives every part's words in turn: the join neither loses nor invents a word, even with empty parts. |
| Strings.JoinWithThree | src/main.py:77 | A join of three parts is the parts in order with one separator between each. |
| Transcript.Preprocess | src/main.py:54-81 | The result is a text exactly when the payload is, or decodes to, a list whose entries all have a string `"text"`. Splitting that text gives each entry's words, with timestamps removed, entry after entry: no word is lost, invented or reordered. |
| Transcript.PreprocessRejectsUndecodable | src/main.py:59-66 | A string payload that does not decode gives `None`. |
| Transcript.PreprocessRejectsNonList | src/main.py:68-73 | A payload that is, or decodes to, anything but a list gives `None`. |
| Transcript.PreprocessRejectsBadEntry | src/main.py:75-81 | Any one entry that is not a mapping with a string `"text"` gives `None` for the whole list. |
| Transcript.PreprocessList | src/main.py:75-77 | For such a list, the result is the `" "`-join of the list comprehension whose slot `i` is `clean_text` of entry `i`'s text. |
| Transcript.CleanedTexts | src/main.py:75 | There is one cleaned text per entry. |
| Transcript.CleanedTextsAt | src/main.py:75 | The `i`-th cleaned text is `clean_text` of the `i`-th entry's text. |
| Transcript.PreprocessTwoEntries | src/main.py:75-77 | Two entries give the first cleaned text, a space, then the second. |
| Transcript.PreprocessThreeEntries | src/main.py:75-77 | Three entries give their cleaned texts in entry order, one space between each. |
| Transcript.PreprocessSingleSpaced | src/main.py:75-77 | When no entry cleans to `""`, the result is single-spaced. |
| Transcript.PreprocessLeadingSpace | src/main.py:75-77 | A timestamp-only entry followed by a word gives `" " + word`, which is not single-spaced. |
| Transcript.PreprocessStampedEntries | src/main.py:54-81 | Entries shaped like `"[00:01] Hello world"` and `"(00:05) Goodbye   now"` give their four words, one space between each. |
| Summary.Chunk | src/main.py:89 | Chunk `j` is the piece of the text that starts at `j*size`; it is never empty, holds at most `size` characters, and exactly `size` unless it is the last. |
| Summary.Chunks | src/main.py:89 | There are `ceil(len(text) / size)` chunks. |
| Summary.NumChunksBounds | src/main.py:89 | The chunk starts cover the text, and the last one lies inside it. |
| Summary.ChunksCount | src/main.py:89 | The chunk count is the least whose chunks cover the text, and empty text gives no chunks. |
| Summary.ChunkLengths | src/main.py:89 | Every chunk holds 1 to `size` characters, and every chunk but the last holds exactly `size`. |
| Summary.ConcatChunksPrefix | src/main.py:89 | The first `m` chunks, concatenated, are the first `m*size` characters of the text. |
| Summary.ChunksConcat | src/main.py:88-89 | Concatenating all the chunks in order gives back the text exactly. |
| Summary.SummaryOf | src/main.py:84-96 | Text of 1 to 1000 characters gives the summariser's answer for it unchanged. The summary is `""` exactly when the text is empty, or fits one chunk that the summariser maps to `""`. |
| Summary.GenerateSummary | src/main.py:84-96 | The loop calls the summariser once per chunk, in chunk order, with the greedy options, and returns the results joined by `" "`. |
| Summary.SingleChunk | src/main.py:88-89 | Text of 1 to 1000 characters is a single chunk: itself. |
| Summary.SummaryThreeChunks | src/main.py:88-96 | 2500 characters give chunks of 1000, 1000 and 500, and their summaries are joined in order. |
| Pipeline.Run | src/main.py:8-31 | The run stops at the fetch stage exactly when the fetch gives `None` or `""`. When it prints, it prints the summary of the preprocessed text, and that summary is never empty. |
| Pipeline.RunFetchFailed | src/main.py:10-14 | When the fetch gives `None` or `""`, decoding and the summariser play no part in the outcome. |
| Pipeline.RunPreprocessFailed | src/main.py:16-21 | The run stops at preprocessing exactly when the fetched text is non-empty but preprocesses to `None` or `""`, and the summariser then plays no part. |
| Pipeline.RunSummaryFailed | src/main.py:23-28 | The run stops at the summary stage exactly when both earlier stages give non-empty text and the summary is `""`. |
| Pipeline.RunPrinted | src/main.py:8-31 | A summary is printed exactly when every stage gives non-empty text, and it is the summary of the preprocessed text. |
| Pipeline.RunTwoStampedEntries | src/main.py:8-31 | End to end, two entries shaped like the example transcript become one chunk of four words, and the summariser's non-empty answer for it is printed unchanged. |

## Left out

- `fetch_transcript` (src/main.py:34-44) is network I/O through a third-party API and a JSON formatter. Its result is the parameter `fetch`, a function from the video id to an optional string.
- `json.loads` (src/main.py:63) is a library parser. It is the parameter `decode`, and JSON syntax is not modelled. JSON numbers are integers here, because their values never matter: any non-string `"text"` fails the same way.
- The summarisation model (src/main.py:86, 93) is foreign and non-deterministic, so it is a function parameter. Its list-of-dicts result, `summary[0]["summary_text"]`, is modelled as the text itself. Loading the model once per run is not modelled.
- Exceptions raised by the summariser are uncaught and end the process, so they are not modelled.
- Diagnostic `print` lines and the `sys.argv` usage check (src/main.py:99-104) are output and command-line handling. `Outcome` records only which final message a run ends on.
- Unicode classes for `\s` and `\d` are not modelled: whitespace and digits are ASCII only.
- `Cleaning.RemoveTimestamps` states in its own contract only that it never lengthens the text. Its full behaviour is in `RemoveTimestampsDropsMatch`, `RemoveTimestampsKeepsChar`, `MatchLenSound` and `MatchLenComplete`.
- `Cleaning.CleanTextNotIdempotent`, `Cleaning.CleanTextKeepsTwoColons` and `Cleaning.RemoveTimestampsNested` use single-digit groups. The other examples take arbitrary words, whitespace runs and timestamps as parameters instead of fixed literals.
