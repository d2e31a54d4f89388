/**
 * `generate_summary`: cut the text into consecutive fixed-width chunks, call
 * the summariser on each chunk in order with fixed decoding options, and
 * join the per-chunk summaries with single spaces. The summariser is a
 * parameter.
 */
module Summary {
  import opened Strings

  /** `max_chunk_size`. */
  const MaxChunkSize: nat := 1000

  /** The decoding options passed with every chunk. */
  datatype SummarizerOptions = SummarizerOptions(maxLength: nat, minLength: nat, doSample: bool)

  /** `max_length=150, min_length=50, do_sample=False`: greedy decoding. */
  const Greedy := SummarizerOptions(150, 50, false)

  function Min(a: int, b: int): int {
    if a <= b then a else b
  }

  /** `len(range(0, n, size))`: the number of chunk starts. */
  function NumChunks(n: nat, size: nat): nat
    requires size > 0
  {
    (n + size - 1) / size
  }

  /** Every chunk start lies inside the text, and the chunk starts cover it. */
  lemma NumChunksBounds(n: nat, size: nat)
    requires size > 0
    ensures NumChunks(n, size) * size >= n
    ensures n > 0 ==> (NumChunks(n, size) - 1) * size < n
    ensures n == 0 ==> NumChunks(n, size) == 0
  {
    var q := NumChunks(n, size);
    var r := (n + size - 1) % size;
    assert n + size - 1 == q * size + r;
  }

  lemma ChunkStart(n: nat, size: nat, j: nat)
    requires size > 0 && j < NumChunks(n, size)
    ensures j * size < n
  {
    NumChunksBounds(n, size);
    assert j * size <= (NumChunks(n, size) - 1) * size;
  }

  /** The next chunk starts inside the text too. */
  lemma ChunkNext(n: nat, size: nat, j: nat)
    requires size > 0
    ensures j + 1 < NumChunks(n, size) ==> j * size + size < n
  {
    if j + 1 < NumChunks(n, size) {
      ChunkStart(n, size, j + 1);
      assert (j + 1) * size == j * size + size;
    }
  }

  /** `text[j * size : j * size + size]`, cut short at the end of the text:
      the piece of the text that starts at `j * size`, never empty, at most
      `size` long, and exactly `size` long unless it is the last. */
  function Chunk(text: string, size: nat, j: nat): (r: string)
    requires size > 0 && j < NumChunks(|text|, size)
    ensures 0 < |r| <= size
    ensures j < NumChunks(|text|, size) - 1 ==> |r| == size
    ensures j * size + |r| <= |text| && r == text[j * size .. j * size + |r|]
  {
    ChunkStart(|text|, size, j);
    ChunkNext(|text|, size, j);
    text[j * size .. Min(j * size + size, |text|)]
  }

  /** `[text[i : i + size] for i in range(0, len(text), size)]`. */
  function Chunks(text: string, size: nat): (r: seq<string>)
    requires size > 0
    ensures |r| == NumChunks(|text|, size)
  {
    seq(NumChunks(|text|, size), j requires 0 <= j < NumChunks(|text|, size) => Chunk(text, size, j))
  }

  /** There are `ceil(|text| / size)` chunks: enough to cover the text, and
      not one more than needed. */
  lemma ChunksCount(text: string, size: nat)
    requires size > 0
    ensures |Chunks(text, size)| * size >= |text|
    ensures |text| > 0 ==> (|Chunks(text, size)| - 1) * size < |text|
    ensures text == [] <==> Chunks(text, size) == []
  {
    NumChunksBounds(|text|, size);
    if text != [] {
      assert |Chunks(text, size)| > 0;
    }
  }

  /** Every chunk holds between 1 and `size` characters, and all but the
      last hold exactly `size`. */
  lemma ChunkLengths(text: string, size: nat)
    requires size > 0
    ensures forall j :: 0 <= j < |Chunks(text, size)| ==> 0 < |Chunks(text, size)[j]| <= size
    ensures forall j :: 0 <= j < |Chunks(text, size)| - 1 ==> |Chunks(text, size)[j]| == size
  {
    var cs := Chunks(text, size);
    forall j | 0 <= j < |cs|
      ensures 0 < |cs[j]| <= size
      ensures j < |cs| - 1 ==> |cs[j]| == size
    {
      ChunkStart(|text|, size, j);
      if j < |cs| - 1 {
        ChunkStart(|text|, size, j + 1);
        assert (j + 1) * size == j * size + size;
      }
    }
  }

  /** Chunk `j` starts at `j * size` and runs `size` characters or to the
      end of the text. */
  lemma ChunkAt(text: string, size: nat, j: nat)
    requires size > 0 && j < NumChunks(|text|, size)
    ensures j * size < |text|
    ensures Chunks(text, size)[j] == text[j * size .. Min(j * size + size, |text|)]
  {
    ChunkStart(|text|, size, j);
  }

  lemma ConcatSnoc(parts: seq<string>, m: nat)
    requires 0 < m <= |parts|
    ensures Concat(parts[..m]) == Concat(parts[..m - 1]) + parts[m - 1]
  {
    assert parts[..m][..m - 1] == parts[..m - 1];
  }

  lemma SliceSplit(text: string, lo: nat, hi: nat)
    requires lo <= hi <= |text|
    ensures text[..hi] == text[..lo] + text[lo..hi]
  {
  }

  /** The chunks in order, concatenated, give back a prefix of the text. */
  lemma {:induction false} ConcatChunksPrefix(text: string, size: nat, m: nat)
    requires size > 0 && m <= NumChunks(|text|, size)
    ensures Concat(Chunks(text, size)[..m]) == text[..Min(m * size, |text|)]
  {
    if m == 0 {
      assert Chunks(text, size)[..0] == [];
    } else {
      var lo := (m - 1) * size;
      ConcatChunksPrefix(text, size, m - 1);
      ChunkStart(|text|, size, m - 1);
      ConcatChunksStep(text, size, m, lo);
      assert m * size == lo + size;
    }
  }

  /** One more chunk extends the covered prefix by that chunk. */
  lemma ConcatChunksStep(text: string, size: nat, m: nat, lo: nat)
    requires size > 0 && 0 < m <= NumChunks(|text|, size) && lo == (m - 1) * size
    requires Concat(Chunks(text, size)[..m - 1]) == text[..lo]
    ensures Concat(Chunks(text, size)[..m]) == text[..Min(lo + size, |text|)]
  {
    ChunkAt(text, size, m - 1);
    ConcatSnoc(Chunks(text, size), m);
    SliceSplit(text, lo, Min(lo + size, |text|));
  }

  /** Concatenating the chunks in order gives back the text exactly. */
  lemma ChunksConcat(text: string, size: nat)
    requires size > 0
    ensures Concat(Chunks(text, size)) == text
  {
    var cs := Chunks(text, size);
    ConcatChunksPrefix(text, size, |cs|);
    NumChunksBounds(|text|, size);
    assert cs[..|cs|] == cs;
  }

  /** The summary of every chunk, in chunk order. */
  function ChunkSummaries(chunks: seq<string>, summarize: (string, SummarizerOptions) -> string): (r: seq<string>)
    ensures |r| == |chunks|
  {
    seq(|chunks|, j requires 0 <= j < |chunks| => summarize(chunks[j], Greedy))
  }

  /** What `generate_summary` returns for `text`. Text that fits in one
      chunk gives the summariser's answer for it unchanged; the summary is
      empty exactly when the text is, or when the text fits in one chunk and
      the summariser returns `""` for it. */
  function SummaryOf(text: string, summarize: (string, SummarizerOptions) -> string): (r: string)
    ensures 0 < |text| <= MaxChunkSize ==> r == summarize(text, Greedy)
    ensures r == "" <==> text == "" || (|text| <= MaxChunkSize && summarize(text, Greedy) == "")
  {
    var summaries := ChunkSummaries(Chunks(text, MaxChunkSize), summarize);
    ChunksCount(text, MaxChunkSize);
    SingleChunk(text);
    assert 0 < |text| <= MaxChunkSize ==> summaries == [summarize(text, Greedy)];
    JoinWith(summaries, " ")
  }

  /** `generate_summary`: one summariser call per chunk, in chunk order,
      each result appended to `summaries`, then the join. */
  method GenerateSummary(text: string, summarize: (string, SummarizerOptions) -> string) returns (summary: string)
    ensures summary == SummaryOf(text, summarize)
  {
    var chunks := Chunks(text, MaxChunkSize);
    var summaries: seq<string> := [];
    for i := 0 to |chunks|
      invariant |summaries| == i
      invariant forall j :: 0 <= j < i ==> summaries[j] == summarize(chunks[j], Greedy)
    {
      summaries := summaries + [summarize(chunks[i], Greedy)];
    }
    assert summaries == ChunkSummaries(chunks, summarize);
    summary := JoinWith(summaries, " ");
  }

  /** Text that fits in one chunk is that one chunk. */
  lemma SingleChunk(text: string)
    ensures 0 < |text| <= MaxChunkSize ==> Chunks(text, MaxChunkSize) == [text]
  {
    if 0 < |text| <= MaxChunkSize {
      var cs := Chunks(text, MaxChunkSize);
      assert NumChunks(|text|, MaxChunkSize) == 1;
      assert cs[0] == text[0 .. |text|] == text;
      assert cs == [text];
    }
  }

  /** 2500 characters make three chunks of 1000, 1000 and 500, and the
      summary is their three summaries in order, space-joined. */
  lemma SummaryThreeChunks(text: string, summarize: (string, SummarizerOptions) -> string)
    requires |text| == 2500
    ensures Chunks(text, MaxChunkSize) == [text[..1000], text[1000..2000], text[2000..]]
    ensures SummaryOf(text, summarize) ==
      summarize(text[..1000], Greedy) + " " + summarize(text[1000..2000], Greedy) + " " + summarize(text[2000..], Greedy)
  {
    var cs := Chunks(text, MaxChunkSize);
    assert NumChunks(2500, 1000) == 3;
    assert cs[0] == text[..1000];
    assert cs[1] == text[1000..2000];
    assert cs[2] == text[2000..];
    var ss := ChunkSummaries(cs, summarize);
    assert ss == [summarize(text[..1000], Greedy), summarize(text[1000..2000], Greedy), summarize(text[2000..], Greedy)];
    JoinWithThree(ss[0], ss[1], ss[2], " ");
  }
}
