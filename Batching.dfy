/**
 * The chunking loop of import_urls_from_file: every line read from the URL
 * file is right-stripped and appended to a chunk, and a chunk that reaches
 * 1000 lines is handed to fetch_images and started afresh. The sequence of
 * chunks handed over is the observable result; fetch_images itself is not
 * part of this module.
 */
module Batching {
  /** The chunk size at which fetch_images is called. */
  const BatchSize := 1000

  /** Python's str.isspace for one character: the characters rstrip() removes. */
  predicate IsSpace(c: char) {
    || c == '\t' || c == '\n' || c == '\U{000B}' || c == '\U{000C}' || c == '\r'
    || '\U{001C}' <= c <= '\U{001F}' || c == ' ' || c == '\U{0085}' || c == '\U{00A0}'
    || c == '\U{1680}' || '\U{2000}' <= c <= '\U{200A}' || c == '\U{2028}' || c == '\U{2029}'
    || c == '\U{202F}' || c == '\U{205F}' || c == '\U{3000}'
  }

  /**
   * str.rstrip() with no argument: the longest prefix that does not end in
   * whitespace; everything removed is whitespace.
   */
  function RStrip(s: string): (r: string)
    ensures r <= s
    ensures forall i :: |r| <= i < |s| ==> IsSpace(s[i])
    ensures |r| == 0 || !IsSpace(r[|r| - 1])
  {
    if |s| == 0 || !IsSpace(s[|s| - 1]) then s else RStrip(s[..|s| - 1])
  }

  /** The three properties of RStrip's contract pin its result down. */
  lemma RStripUnique(s: string, t: string)
    requires t <= s
    requires forall i :: |t| <= i < |s| ==> IsSpace(s[i])
    requires |t| == 0 || !IsSpace(t[|t| - 1])
    ensures t == RStrip(s)
  {
    var r := RStrip(s);
    if |t| > 0 {
      assert t[|t| - 1] == s[|t| - 1];
    }
    if |r| > 0 {
      assert r[|r| - 1] == s[|r| - 1];
    }
  }

  /** Stripping twice is stripping once. */
  lemma RStripIdempotent(s: string)
    ensures RStrip(RStrip(s)) == RStrip(s)
  {
    var r := RStrip(s);
    RStripUnique(r, r);
  }

  /** A line read with its newline gives the same URL as the line without it. */
  lemma RStripNewline(s: string)
    ensures RStrip(s + "\n") == RStrip(s)
  {
    var r := RStrip(s);
    assert r <= s + "\n";
    RStripUnique(s + "\n", r);
  }

  /** Every line right-stripped, in order. */
  function StripAll(lines: seq<string>): (r: seq<string>)
    ensures |r| == |lines|
  {
    seq(|lines|, i requires 0 <= i < |lines| => RStrip(lines[i]))
  }

  /** The first `n` full chunks of stripped lines. */
  function Chunks(lines: seq<string>, n: nat): (r: seq<seq<string>>)
    requires n * BatchSize <= |lines|
    ensures |r| == n
  {
    seq(n, j requires 0 <= j < n => StripAll(lines[j * BatchSize..j * BatchSize + BatchSize]))
  }

  /** What the loop as written hands to fetch_images: the full chunks only. */
  function FullBatches(lines: seq<string>): seq<seq<string>> {
    Chunks(lines, |lines| / BatchSize)
  }

  /** The chunks with the final partial chunk flushed as well. */
  function Batches(lines: seq<string>): seq<seq<string>> {
    FullBatches(lines) + Tail(lines)
  }

  /** The partial chunk left over after the last full one, if any. */
  function Tail(lines: seq<string>): seq<seq<string>> {
    if |lines| % BatchSize == 0 then [] else [StripAll(lines[|lines| / BatchSize * BatchSize..])]
  }

  /** The chunks concatenated back into one list. */
  function Flatten(chunks: seq<seq<string>>): seq<string> {
    if |chunks| == 0 then [] else Flatten(chunks[..|chunks| - 1]) + chunks[|chunks| - 1]
  }

  /**
   * The loop of import_urls_from_file. `dispatched` records, in order, each
   * chunk passed to fetch_images; `leftover` is the chunk still held when the
   * lines run out, which the source never passes on.
   */
  method ImportUrls(lines: seq<string>) returns (dispatched: seq<seq<string>>, leftover: seq<string>)
    ensures dispatched == FullBatches(lines)
    ensures leftover == StripAll(lines[|lines| / BatchSize * BatchSize..])
  {
    dispatched := [];
    var chunk: seq<string> := [];
    for i := 0 to |lines|
      invariant i == |dispatched| * BatchSize + |chunk| && |chunk| < BatchSize
      invariant dispatched == Chunks(lines, |dispatched|)
      invariant chunk == StripAll(lines[|dispatched| * BatchSize..i])
    {
      chunk := chunk + [RStrip(lines[i])];
      assert chunk == StripAll(lines[|dispatched| * BatchSize..i + 1]);
      if |chunk| >= BatchSize {
        dispatched := dispatched + [chunk];
        chunk := [];
      }
    }
    leftover := chunk;
  }

  /** The loop followed by the flush the source leaves out. */
  method ImportUrlsFlushed(lines: seq<string>) returns (dispatched: seq<seq<string>>)
    ensures dispatched == Batches(lines)
  {
    var leftover;
    dispatched, leftover := ImportUrls(lines);
    if |leftover| > 0 {
      dispatched := dispatched + [leftover];
    }
  }

  /** The full chunks, concatenated, are the stripped lines they cover, in order. */
  lemma {:induction false} FlattenChunks(lines: seq<string>, n: nat)
    requires n * BatchSize <= |lines|
    ensures Flatten(Chunks(lines, n)) == StripAll(lines[..n * BatchSize])
  {
    if n > 0 {
      var c := Chunks(lines, n);
      assert c[..n - 1] == Chunks(lines, n - 1);
      FlattenChunks(lines, n - 1);
      var lo, hi := (n - 1) * BatchSize, n * BatchSize;
      assert StripAll(lines[..hi]) == StripAll(lines[..lo]) + StripAll(lines[lo..hi]);
    }
  }

  /**
   * What the source hands to fetch_images: chunks of exactly 1000 stripped
   * lines, which together are the stripped input up to the last full chunk,
   * so the last |lines| mod 1000 lines are never handed over.
   */
  lemma FullBatchesShape(lines: seq<string>)
    ensures |FullBatches(lines)| == |lines| / BatchSize
    ensures forall j :: 0 <= j < |FullBatches(lines)| ==> |FullBatches(lines)[j]| == BatchSize
    ensures Flatten(FullBatches(lines)) == StripAll(lines[..|lines| - |lines| % BatchSize])
    ensures |lines| - |Flatten(FullBatches(lines))| == |lines| % BatchSize
  {
    FlattenChunks(lines, |lines| / BatchSize);
  }

  /**
   * With the flush, nothing is lost: the chunks together are all the
   * stripped lines, every chunk is non-empty and at most 1000 long, and only
   * the last may be short.
   */
  lemma BatchesShape(lines: seq<string>)
    ensures Flatten(Batches(lines)) == StripAll(lines)
    ensures |Batches(lines)| == (|lines| + BatchSize - 1) / BatchSize
    ensures forall j :: 0 <= j < |Batches(lines)| ==> 0 < |Batches(lines)[j]| <= BatchSize
    ensures forall j :: 0 <= j < |Batches(lines)| - 1 ==> |Batches(lines)[j]| == BatchSize
  {
    BatchesCover(lines);
  }

  lemma BatchesCover(lines: seq<string>)
    ensures Flatten(Batches(lines)) == StripAll(lines)
  {
    var k := |lines| / BatchSize * BatchSize;
    FlattenChunks(lines, |lines| / BatchSize);
    var b := Batches(lines);
    if |lines| % BatchSize != 0 {
      assert b[..|b| - 1] == FullBatches(lines);
      assert StripAll(lines) == StripAll(lines[..k]) + StripAll(lines[k..]);
    } else {
      assert b == FullBatches(lines);
      assert lines[..k] == lines;
    }
  }

  /** A file with fewer than 1000 URLs: the source dispatches nothing. */
  lemma ShortFileDropped(lines: seq<string>)
    requires 0 < |lines| < BatchSize
    ensures FullBatches(lines) == []
    ensures Batches(lines) == [StripAll(lines)]
  {
  }
}
