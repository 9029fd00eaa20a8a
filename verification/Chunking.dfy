/** The overlapping word windows of the operations manual
    (`_chunk_markdown` in src/masova_agent/knowledge/rag.py). */
module Chunking {

  const CHUNK_WORDS := 400
  const OVERLAP_WORDS := 80
  const STRIDE := CHUNK_WORDS - OVERLAP_WORDS

  function Min(a: int, b: int): int { if a < b then a else b }

  function Max(a: int, b: int): int { if a < b then b else a }

  /** The windows, read off the front of the word list. */
  ghost function Windows<W>(words: seq<W>): seq<seq<W>>
    decreases |words|
  {
    if words == [] then []
    else if |words| <= CHUNK_WORDS then [words]
    else [words[..CHUNK_WORDS]] + Windows(words[STRIDE..])
  }

  method ChunkWords<W>(words: seq<W>) returns (chunks: seq<seq<W>>)
    ensures chunks == Windows(words)
  {
    chunks := [];
    if words == [] {
      return;
    }
    var start := 0;
    while start < |words|
      invariant 0 <= start < |words|
      invariant Windows(words) == chunks + Windows(words[start..])
      decreases |words| - start
    {
      var end := Min(|words|, start + CHUNK_WORDS);
      ghost var rest := words[start..];
      chunks := chunks + [words[start..end]];
      if end >= |words| {
        assert rest == words[start..end];
        break;
      }
      assert rest[..CHUNK_WORDS] == words[start..end];
      assert rest[STRIDE..] == words[start + STRIDE..];
      start := Max(end - OVERLAP_WORDS, start + 1);
    }
  }

  /** Number of windows for `n` words: one, plus one per started stride past the first. */
  function WindowCount(n: nat): nat {
    if n == 0 then 0
    else if n <= CHUNK_WORDS then 1
    else 1 + (n - CHUNK_WORDS + STRIDE - 1) / STRIDE
  }

  lemma SliceOfSlice<W>(s: seq<W>, lo: nat, hi: nat, a: nat, b: nat)
    requires lo <= hi <= |s| && a <= b <= hi - lo
    ensures s[lo..hi][a..b] == s[lo + a..lo + b]
  {
    var t, u := s[lo..hi][a..b], s[lo + a..lo + b];
    forall i | 0 <= i < b - a ensures t[i] == u[i] {
      assert t[i] == s[lo..hi][a + i] == s[lo + (a + i)];
    }
    assert t == u;
  }

  lemma {:induction false} WindowsCounted<W>(words: seq<W>)
    ensures |Windows(words)| == WindowCount(|words|)
    decreases |words|
  {
    if |words| > CHUNK_WORDS {
      WindowsCounted(words[STRIDE..]);
      OneMoreStride(|words|);
    }
  }

  lemma OneMoreStride(n: nat)
    requires n > CHUNK_WORDS
    ensures WindowCount(n) == 1 + WindowCount(n - STRIDE)
  {
  }

  /** Window `k` is the slice that starts at `k` strides; all but the last are full. */
  lemma {:induction false} WindowAt<W>(words: seq<W>, k: nat)
    requires k < |Windows(words)|
    ensures STRIDE * k < |words|
    ensures Windows(words)[k] == words[STRIDE * k..Min(|words|, STRIDE * k + CHUNK_WORDS)]
    ensures k + 1 < |Windows(words)| <==> STRIDE * k + CHUNK_WORDS < |words|
    decreases k
  {
    if |words| <= CHUNK_WORDS {
      assert words[0..|words|] == words;
    } else if k == 0 {
      WindowsCounted(words);
    } else {
      var rest := words[STRIDE..];
      WindowAt(rest, k - 1);
      var lo := STRIDE * (k - 1);
      SliceOfSlice(words, STRIDE, |words|, lo, Min(|rest|, lo + CHUNK_WORDS));
      assert words[STRIDE..|words|] == rest;
    }
  }

  /** Every window but the last is full, and neighbours share exactly the overlap. */
  lemma FullWithExactOverlap<W>(words: seq<W>, k: nat)
    requires k + 1 < |Windows(words)|
    ensures var c, d := Windows(words)[k], Windows(words)[k + 1];
            && |c| == CHUNK_WORDS
            && OVERLAP_WORDS < |d| <= CHUNK_WORDS
            && c[STRIDE..] == d[..OVERLAP_WORDS]
  {
    WindowAt(words, k);
    WindowAt(words, k + 1);
    var c, d := Windows(words)[k], Windows(words)[k + 1];
    var lo := STRIDE * k;
    assert c == words[lo..lo + CHUNK_WORDS];
    assert c[STRIDE..] == words[lo + STRIDE..lo + CHUNK_WORDS];
    var end := lo + STRIDE + |d|;
    assert d == words[lo + STRIDE..end];
    assert d[..OVERLAP_WORDS] == words[lo + STRIDE..lo + CHUNK_WORDS];
  }

  /** Drop the shared words of each later window and concatenate. */
  ghost function Rejoin<W>(chunks: seq<seq<W>>): seq<W>
  {
    if chunks == [] then []
    else if |chunks| == 1 then chunks[0]
    else
      var last := chunks[|chunks| - 1];
      Rejoin(chunks[..|chunks| - 1]) + if |last| < OVERLAP_WORDS then [] else last[OVERLAP_WORDS..]
  }

  /** Rejoining the first k + 1 windows gives the words up to the end of window k. */
  lemma {:induction false} RejoinPrefix<W>(words: seq<W>, k: nat)
    requires k < |Windows(words)|
    ensures Rejoin(Windows(words)[..k + 1]) == words[..Min(|words|, STRIDE * k + CHUNK_WORDS)]
    decreases k
  {
    WindowAt(words, k);
    var cs := Windows(words)[..k + 1];
    if k == 0 {
      assert cs == [Windows(words)[0]];
    } else {
      RejoinPrefix(words, k - 1);
      FullWithExactOverlap(words, k - 1);
      WindowAt(words, k - 1);
      assert cs[..k] == Windows(words)[..k];
      var at, hi := STRIDE * k, Min(|words|, STRIDE * k + CHUNK_WORDS);
      SliceOfSlice(words, at, hi, OVERLAP_WORDS, hi - at);
      Continued(words, at + OVERLAP_WORDS, hi);
    }
  }

  lemma Continued<W>(words: seq<W>, lo: nat, hi: nat)
    requires lo <= hi <= |words|
    ensures words[..lo] + words[lo..hi] == words[..hi]
  {
  }

  /** The round trip: chunking loses no word, adds none and keeps their order. */
  lemma RoundTrip<W>(words: seq<W>)
    ensures Rejoin(Windows(words)) == words
  {
    if words != [] {
      var n := |Windows(words)|;
      WindowAt(words, n - 1);
      RejoinPrefix(words, n - 1);
      assert Windows(words)[..n] == Windows(words);
      assert words[..|words|] == words;
    }
  }

  /** The run of `len` words at `i` is a slice of window `k`. */
  ghost predicate RunInWindow(n: nat, i: nat, len: nat, k: nat) {
    STRIDE * k <= i && i + len <= Min(n, STRIDE * k + CHUNK_WORDS)
  }

  ghost predicate WholeInSomeWindow<W>(words: seq<W>, i: nat, len: nat) {
    exists k: nat :: k < |Windows(words)| && RunInWindow(|words|, i, len, k)
  }

  /** The run of `len` words from `i` on reads the same from word `at` of window `k` on. */
  ghost predicate ReadsAt<W>(words: seq<W>, i: nat, len: nat, k: nat, at: nat)
    requires i + len <= |words|
  {
    k < |Windows(words)| && at + len <= |Windows(words)[k]| && Windows(words)[k][at..at + len] == words[i..i + len]
  }

  /** A run in window `k` reads there exactly as in the text. */
  lemma RunReadsTheSame<W>(words: seq<W>, i: nat, len: nat, k: nat)
    requires k < |Windows(words)| && RunInWindow(|words|, i, len, k)
    ensures var at := i - STRIDE * k;
            0 <= at && at + len <= |Windows(words)[k]| && Windows(words)[k][at..at + len] == words[i..i + len]
  {
    WindowAt(words, k);
    var lo, at := STRIDE * k, i - STRIDE * k;
    SliceOfSlice(words, lo, Min(|words|, lo + CHUNK_WORDS), at, at + len);
    assert lo + at == i;
  }

  /** A run of words that lies whole in some window can be read there. */
  lemma WholeRunIsRead<W>(words: seq<W>, i: nat, len: nat)
    requires 0 < len && i + len <= |words| && i % STRIDE + len <= CHUNK_WORDS
    ensures exists k: nat, at: nat :: ReadsAt(words, i, len, k, at)
  {
    RunWholeInSomeWindow(words, i, len);
    var k: nat :| k < |Windows(words)| && RunInWindow(|words|, i, len, k);
    RunReadsTheSame(words, i, len, k);
    assert ReadsAt(words, i, len, k, i - STRIDE * k);
  }

  /** Exactly when a run of words is whole in some window. */
  lemma RunWholeInSomeWindow<W>(words: seq<W>, i: nat, len: nat)
    requires 0 < len && i + len <= |words|
    ensures WholeInSomeWindow(words, i, len)
            <==> i % STRIDE + len <= CHUNK_WORDS
    ensures len <= OVERLAP_WORDS + 1 ==> WholeInSomeWindow(words, i, len)
  {
    WindowsCounted(words);
    var n := |Windows(words)|;
    WindowAt(words, n - 1);
    var k := Min(i / STRIDE, n - 1);
    if i % STRIDE + len <= CHUNK_WORDS {
      assert RunInWindow(|words|, i, len, k);
    }
    forall j: nat | j < n && RunInWindow(|words|, i, len, j)
      ensures i % STRIDE + len <= CHUNK_WORDS
    {
      assert j <= i / STRIDE;
    }
  }

  /** The bound is sharp: one word longer and a run can be cut by every window. */
  lemma LongerRunCanBeCut<W>(words: seq<W>)
    requires |words| > CHUNK_WORDS
    ensures !WholeInSomeWindow(words, STRIDE - 1, OVERLAP_WORDS + 2)
  {
    RunWholeInSomeWindow(words, STRIDE - 1, OVERLAP_WORDS + 2);
  }

  /** In figures: window `k` starts at word 320 k and has 400 words, or those that are left; a
      text of 400 words at most has one window, and every 320 words more, or part, one more. */
  lemma WindowsInFigures<W>(words: seq<W>, k: nat)
    ensures var n := |words|;
            |Windows(words)| == if n == 0 then 0 else if n <= 400 then 1 else 1 + (n - 400 + 319) / 320
    ensures k < |Windows(words)| ==>
              320 * k < |words|
              && Windows(words)[k] == words[320 * k..if |words| < 320 * k + 400 then |words| else 320 * k + 400]
  {
    WindowsCounted(words);
    if k < |Windows(words)| {
      WindowAt(words, k);
    }
  }
}
