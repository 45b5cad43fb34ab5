/**
 * The per-project indexer of the RAG backend: a project's JSON tree is
 * flattened into (text, source path) entries, long entries are cut into
 * overlapping word windows, and every piece becomes a document tagged with
 * its source path and the project's name; the index directory is named by a
 * filesystem-friendly slug of that name.
 *
 * Reading the JSON file, the embedding model and the FAISS index are outside
 * the model: the builder takes the parsed tree.
 */
module TrainProject {
  import opened Strings

  // ---------------------------------------------------------------------------
  // chunk_text

  function Min(a: int, b: int): int
  {
    if a <= b then a else b
  }

  /** The words of one chunk: up to `size` words from position `i`. */
  function Window(words: seq<string>, i: nat, size: nat): seq<string>
    requires i <= |words|
  {
    words[i..Min(i + size, |words|)]
  }

  /** The chunks made from position `i` on, one every `step` words. */
  function ChunksFrom(words: seq<string>, i: nat, size: nat, step: nat): seq<string>
    requires step >= 1
    decreases |words| - i
  {
    if i >= |words| then []
    else [Join(Window(words, i, size), " ")] + ChunksFrom(words, i + step, size, step)
  }

  /**
   * `chunk_text`: split on whitespace and re-join windows of `chunkSize`
   * words, advancing by `chunkSize - overlap`. The loop ends only when that
   * step is positive.
   */
  method ChunkText(text: string, chunkSize: int, overlap: int) returns (chunks: seq<string>)
    requires chunkSize >= 1 && overlap < chunkSize
    ensures chunks == ChunksFrom(Words(text), 0, chunkSize, chunkSize - overlap)
  {
    chunks := ChunkWindows(Words(text), chunkSize, chunkSize - overlap);
  }

  /** The loop of `chunk_text` over the split words. */
  method ChunkWindows(words: seq<string>, size: nat, step: nat) returns (chunks: seq<string>)
    requires step >= 1
    ensures chunks == ChunksFrom(words, 0, size, step)
  {
    chunks := [];
    var i := 0;
    while i < |words|
      invariant chunks + ChunksFrom(words, i, size, step) == ChunksFrom(words, 0, size, step)
      decreases |words| - i
    {
      var chunk := Join(Window(words, i, size), " ");
      assert ChunksFrom(words, i, size, step) == [chunk] + ChunksFrom(words, i + step, size, step);
      chunks := chunks + [chunk];
      i := i + step;
    }
  }

  lemma MulSucc(c: int, s: int)
    ensures (c + 1) * s == c * s + s
  {
  }

  lemma {:induction false} MulMono(a: nat, b: nat, s: nat)
    requires a <= b
    ensures a * s <= b * s
    decreases b - a
  {
    if a < b {
      MulMono(a, b - 1, s);
      MulSucc(b - 1, s);
    }
  }

  /** `c * s <= x < (c + 1) * s` pins down `x / s`. */
  lemma DivBetween(x: int, s: int, c: int)
    requires s >= 1 && c >= 0 && c * s <= x < c * s + s
    ensures x / s == c
  {
    var q := x / s;
    assert x == q * s + x % s;
    if q < c {
      MulMono(q + 1, c, s);
      MulSucc(q, s);
    } else if q > c {
      MulMono(c + 1, q, s);
      MulSucc(c, s);
    }
  }

  /** `ceil(m / step)` chunks, as bounds: the last chunk starts before the end. */
  lemma {:induction false} ChunkCountBounds(words: seq<string>, i: nat, size: nat, step: nat)
    requires step >= 1 && i < |words|
    ensures |ChunksFrom(words, i, size, step)| >= 1
    ensures (|ChunksFrom(words, i, size, step)| - 1) * step < |words| - i
    ensures |words| - i <= |ChunksFrom(words, i, size, step)| * step
    decreases |words| - i
  {
    var c := |ChunksFrom(words, i, size, step)|;
    if i + step < |words| {
      ChunkCountBounds(words, i + step, size, step);
      var rest := |ChunksFrom(words, i + step, size, step)|;
      assert c == rest + 1;
      CountStep(rest, |words| - i, step);
    } else {
      assert c == 1;
    }
  }

  /** One more chunk covers one more step of words. */
  lemma CountStep(c: nat, m: int, step: nat)
    requires step >= 1 && c >= 1
    requires (c - 1) * step < m - step <= c * step
    ensures (c + 1 - 1) * step < m <= (c + 1) * step
  {
    MulSucc(c, step);
    MulSucc(c - 1, step);
  }

  /** The number of chunks of `n > 0` words is `ceil(n / step)`; no words give no chunks. */
  lemma ChunkCount(words: seq<string>, size: nat, step: nat)
    requires step >= 1
    ensures |ChunksFrom(words, 0, size, step)| == (|words| + step - 1) / step
  {
    if |words| > 0 {
      var c := |ChunksFrom(words, 0, size, step)|;
      ChunkCountBounds(words, 0, size, step);
      MulSucc(c - 1, step);
      DivBetween(|words| + step - 1, step, c);
    }
  }

  /** Chunk `k` is the `k`-th window, `words[k * step .. k * step + size]`, re-joined. */
  lemma ChunkAt(words: seq<string>, i: nat, size: nat, step: nat, k: nat)
    requires step >= 1 && k < |ChunksFrom(words, i, size, step)|
    ensures i + k * step < |words|
    ensures ChunksFrom(words, i, size, step)[k] == Join(Window(words, i + k * step, size), " ")
  {
    ChunkAtOffset(words, i, size, step, k);
    OffsetIsProduct(i, step, k);
  }

  /** The start of the `k`-th chunk after position `i`, counted step by step. */
  function Offset(i: nat, step: nat, k: nat): nat
    decreases k
  {
    if k == 0 then i else Offset(i + step, step, k - 1)
  }

  lemma {:induction false} OffsetIsProduct(i: nat, step: nat, k: nat)
    ensures Offset(i, step, k) == i + k * step
    decreases k
  {
    if k > 0 {
      OffsetIsProduct(i + step, step, k - 1);
      MulSucc(k - 1, step);
    }
  }

  lemma {:induction false} ChunkAtOffset(words: seq<string>, i: nat, size: nat, step: nat, k: nat)
    requires step >= 1 && k < |ChunksFrom(words, i, size, step)|
    ensures Offset(i, step, k) < |words|
    ensures ChunksFrom(words, i, size, step)[k] == Join(Window(words, Offset(i, step, k), size), " ")
    decreases k
  {
    if k > 0 {
      ChunkAtOffset(words, i + step, size, step, k - 1);
    }
  }

  /** The words of chunk `k` are exactly its window, so a chunk has 1 to `size` words. */
  lemma ChunkWords(text: string, size: nat, step: nat, k: nat)
    requires size >= 1 && step >= 1 && k < |ChunksFrom(Words(text), 0, size, step)|
    ensures var words := Words(text);
      && k * step < |words|
      && Words(ChunksFrom(words, 0, size, step)[k]) == Window(words, k * step, size)
      && 1 <= |Words(ChunksFrom(words, 0, size, step)[k])| <= size
  {
    ChunkWordsOf(Words(text), size, step, k);
  }

  lemma ChunkWordsOf(words: seq<string>, size: nat, step: nat, k: nat)
    requires size >= 1 && step >= 1 && k < |ChunksFrom(words, 0, size, step)|
    requires forall j :: 0 <= j < |words| ==> IsWord(words[j])
    ensures k * step < |words|
    ensures Words(ChunksFrom(words, 0, size, step)[k]) == Window(words, k * step, size)
    ensures 1 <= |Window(words, k * step, size)| <= size
  {
    ChunkAt(words, 0, size, step, k);
    WindowOfWords(words, k * step, size);
    WordsOfJoin(Window(words, k * step, size));
  }

  /** A window inside a split text holds between 1 and `size` words. */
  lemma WindowOfWords(words: seq<string>, i: nat, size: nat)
    requires size >= 1 && i < |words|
    requires forall j :: 0 <= j < |words| ==> IsWord(words[j])
    ensures 1 <= |Window(words, i, size)| <= size
    ensures forall j :: 0 <= j < |Window(words, i, size)| ==> IsWord(Window(words, i, size)[j])
  {
    var w := Window(words, i, size);
    assert forall j :: 0 <= j < |w| ==> w[j] == words[i + j];
  }

  /** Text without words gives no chunks. */
  lemma NoWordsNoChunks(text: string, size: nat, step: nat)
    requires step >= 1 && Words(text) == []
    ensures ChunksFrom(Words(text), 0, size, step) == []
  {
  }

  /** A chunk starts at every multiple of the step below the word count. */
  lemma ChunkStarts(words: seq<string>, size: nat, step: nat, k: nat)
    requires step >= 1 && k * step < |words|
    ensures k < |ChunksFrom(words, 0, size, step)|
  {
    var c := |ChunksFrom(words, 0, size, step)|;
    ChunkCountBounds(words, 0, size, step);
    if k >= c {
      MulMono(c, k, step);
    }
  }

  /**
   * With `0 <= overlap`, so that the step is at most the chunk size, word `p`
   * lies in the window of chunk `p / step`, at position `p % step`.
   */
  lemma WindowCoverage(words: seq<string>, size: nat, step: nat, p: nat)
    requires 1 <= step <= size && p < |words|
    ensures p / step < |ChunksFrom(words, 0, size, step)|
    ensures (p / step) * step + p % step == p
    ensures p % step < |Window(words, (p / step) * step, size)|
    ensures Window(words, (p / step) * step, size)[p % step] == words[p]
  {
    var k := p / step;
    var r := p % step;
    DivModSplit(p, step);
    var start := k * step;
    ChunkStarts(words, size, step, k);
    assert Window(words, start, size)[r] == words[p];
  }

  /** Euclidean division splits `p` into whole steps and a remainder below the step. */
  lemma DivModSplit(p: nat, step: nat)
    requires step >= 1
    ensures (p / step) * step + p % step == p && 0 <= p % step < step
    ensures 0 <= (p / step) * step <= p
  {
  }

  /** Every word of the text is in chunk `p / step`, at position `p % step` of its words. */
  lemma Coverage(text: string, size: nat, step: nat, p: nat)
    requires 1 <= step <= size && p < |Words(text)|
    ensures WordInChunk(ChunksFrom(Words(text), 0, size, step), p / step, p % step, Words(text)[p])
  {
    CoverageOf(Words(text), size, step, p);
  }

  /** Chunk `k` exists and its `j`-th word is `w`. */
  predicate WordInChunk(chunks: seq<string>, k: nat, j: nat, w: string)
  {
    k < |chunks| && j < |Words(chunks[k])| && Words(chunks[k])[j] == w
  }

  lemma CoverageOf(words: seq<string>, size: nat, step: nat, p: nat)
    requires 1 <= step <= size && p < |words|
    requires forall j :: 0 <= j < |words| ==> IsWord(words[j])
    ensures var k := p / step;
      && k < |ChunksFrom(words, 0, size, step)|
      && p % step < |Words(ChunksFrom(words, 0, size, step)[k])|
      && Words(ChunksFrom(words, 0, size, step)[k])[p % step] == words[p]
  {
    WindowCoverage(words, size, step, p);
    ChunkWordsOf(words, size, step, p / step);
  }

  /**
   * Two consecutive chunks that both hold `size` words share exactly
   * `size - step` (the overlap) words: the tail of the first is the head of
   * the second.
   */
  lemma Overlap(text: string, size: nat, step: nat, k: nat)
    requires 1 <= step <= size
    requires (k + 1) * step + size <= |Words(text)|
    ensures var words := Words(text);
      var chunks := ChunksFrom(words, 0, size, step);
      && k + 1 < |chunks|
      && |Words(chunks[k])| == size && |Words(chunks[k + 1])| == size
      && Words(chunks[k])[step..] == Words(chunks[k + 1])[..size - step]
  {
    OverlapOf(Words(text), size, step, k);
  }

  lemma OverlapOf(words: seq<string>, size: nat, step: nat, k: nat)
    requires 1 <= step <= size
    requires (k + 1) * step + size <= |words|
    requires forall j :: 0 <= j < |words| ==> IsWord(words[j])
    ensures var chunks := ChunksFrom(words, 0, size, step);
      && k + 1 < |chunks|
      && |Words(chunks[k])| == size && |Words(chunks[k + 1])| == size
      && Words(chunks[k])[step..] == Words(chunks[k + 1])[..size - step]
  {
    MulSucc(k, step);
    ChunkStarts(words, size, step, k + 1);
    ChunkWordsOf(words, size, step, k);
    ChunkWordsOf(words, size, step, k + 1);
    WindowOverlap(words, k * step, size, step);
  }

  /** Two full windows `step` apart share their last and first `size - step` words. */
  lemma WindowOverlap(words: seq<string>, i: nat, size: nat, step: nat)
    requires 1 <= step <= size && i + step + size <= |words|
    ensures |Window(words, i, size)| == size && |Window(words, i + step, size)| == size
    ensures Window(words, i, size)[step..] == Window(words, i + step, size)[..size - step]
  {
  }

  // ---------------------------------------------------------------------------
  // sanitize_filename

  predicate IsAlnum(c: char)
  {
    'a' <= c <= 'z' || 'A' <= c <= 'Z' || '0' <= c <= '9'
  }

  /** What a slug may hold: lower-case ASCII letters, digits and `_`. */
  predicate IsSlugChar(c: char)
  {
    'a' <= c <= 'z' || '0' <= c <= '9' || c == '_'
  }

  predicate NoDoubleUnderscore(s: string)
  {
    forall i :: 0 <= i < |s| - 1 ==> !(s[i] == '_' && s[i + 1] == '_')
  }

  /** Putting a character before a string without `__` keeps it so, unless both are `_`. */
  lemma NoDoubleCons(c: char, rest: string)
    requires NoDoubleUnderscore(rest)
    requires c != '_' || rest == [] || rest[0] != '_'
    ensures NoDoubleUnderscore([c] + rest)
  {
    var s := [c] + rest;
    assert forall i :: 1 <= i < |s| ==> s[i] == rest[i - 1];
  }

  /** The ASCII letters and digits of a string, in order. */
  function Alnums(s: string): string
  {
    if s == [] then [] else (if IsAlnum(s[0]) then [s[0]] else []) + Alnums(s[1..])
  }

  /**
   * `text.encode("ascii", "ignore").decode()`: the non-ASCII characters are
   * dropped and every ASCII character is kept; `AsciiOnlyAppend` adds that
   * the order is kept.
   */
  function AsciiOnly(s: string): (r: string)
    ensures |r| <= |s|
    ensures forall i :: 0 <= i < |r| ==> (r[i] as int) < 128
    ensures forall c :: c in r <==> c in s && (c as int) < 128
  {
    if s == [] then []
    else (if (s[0] as int) < 128 then [s[0]] else []) + AsciiOnly(s[1..])
  }

  /** What is left after the leading run of non-alphanumeric characters. */
  function SkipNonAlnum(s: string): (r: string)
    ensures |r| <= |s| && r == s[|s| - |r|..]
    ensures r == [] || IsAlnum(r[0])
    ensures forall k :: 0 <= k < |s| - |r| ==> !IsAlnum(s[k])
  {
    if s != [] && !IsAlnum(s[0]) then
      var r := SkipNonAlnum(s[1..]);
      assert s[1..][|s| - 1 - |r|..] == s[|s| - |r|..];
      assert forall k :: 1 <= k < |s| - |r| ==> s[k] == s[1..][k - 1];
      r
    else s
  }

  /**
   * `re.sub(r'[^a-zA-Z0-9]+', '_', s)`: each maximal non-alphanumeric run
   * becomes one `_`. `CollapseRunsShape` states what the result is made of,
   * `CollapseRunsKeeps` that the letters and digits are kept in order and
   * where a `_` stands at the end, `CollapseRunsSplit` and
   * `CollapseRunsOfRun` that each run gives exactly one `_`.
   */
  function CollapseRuns(s: string): string
    decreases |s|
  {
    if s == [] then []
    else if IsAlnum(s[0]) then [s[0]] + CollapseRuns(s[1..])
    else "_" + CollapseRuns(SkipNonAlnum(s[1..]))
  }

  /**
   * The collapsed text is empty only for empty text, holds only letters,
   * digits and `_`, never `__`, and starts with `_` exactly when the text
   * starts outside a letter or digit.
   */
  lemma {:induction false} CollapseRunsShape(s: string)
    ensures var r := CollapseRuns(s);
      && (s == [] <==> r == [])
      && (s != [] && IsAlnum(s[0]) ==> r[0] == s[0])
      && (s != [] ==> (r[0] == '_' <==> !IsAlnum(s[0])))
      && AlnumOrUnderscore(r)
      && NoDoubleUnderscore(r)
    decreases |s|
  {
    if s != [] {
      var t := if IsAlnum(s[0]) then s[1..] else SkipNonAlnum(s[1..]);
      CollapseRunsShape(t);
      var c := if IsAlnum(s[0]) then s[0] else '_';
      assert CollapseRuns(s) == [c] + CollapseRuns(t);
      AlnumOrUnderscoreCons(c, CollapseRuns(t));
      NoDoubleCons(c, CollapseRuns(t));
    }
  }

  /** Putting a letter, digit or `_` before a string of them gives a string of them. */
  lemma AlnumOrUnderscoreCons(c: char, rest: string)
    requires IsAlnum(c) || c == '_'
    requires AlnumOrUnderscore(rest)
    ensures AlnumOrUnderscore([c] + rest)
  {
    var s := [c] + rest;
    assert forall i :: 1 <= i < |s| ==> s[i] == rest[i - 1];
  }

  /**
   * Collapsing keeps the letters and digits, in order, and ends in `_`
   * exactly when the text ends outside a letter or digit.
   */
  lemma {:induction false} CollapseRunsKeeps(s: string)
    ensures Alnums(CollapseRuns(s)) == Alnums(s)
    ensures s != [] ==> CollapseRuns(s) != []
    ensures s != [] ==> (CollapseRuns(s)[|CollapseRuns(s)| - 1] == '_' <==> !IsAlnum(s[|s| - 1]))
    decreases |s|
  {
    if s != [] {
      AlnumsCons(s[0], s[1..]);
      assert s == [s[0]] + s[1..];
      if IsAlnum(s[0]) {
        var rest := CollapseRuns(s[1..]);
        CollapseRunsKeeps(s[1..]);
        AlnumsCons(s[0], rest);
        assert CollapseRuns(s) == [s[0]] + rest;
      } else {
        var t := SkipNonAlnum(s[1..]);
        var rest := CollapseRuns(t);
        CollapseRunsKeeps(t);
        AlnumsCons('_', rest);
        AlnumsOfSkipped(s[1..]);
        assert CollapseRuns(s) == "_" + rest;
        assert t != [] ==> t[|t| - 1] == s[|s| - 1];
        assert t == [] ==> !IsAlnum(s[|s| - 1]);
      }
    }
  }

  /** Skipping over a concatenation skips into the second part only when the first has no letter or digit. */
  lemma {:induction false} SkipNonAlnumAppend(u: string, y: string)
    ensures SkipNonAlnum(u + y) == if SkipNonAlnum(u) != [] then SkipNonAlnum(u) + y else SkipNonAlnum(y)
  {
    if u == [] {
      assert u + y == y;
    } else {
      assert (u + y)[0] == u[0];
      if !IsAlnum(u[0]) {
        assert (u + y)[1..] == u[1..] + y;
        SkipNonAlnumAppend(u[1..], y);
      }
    }
  }

  /**
   * Cutting a text where the cut does not fall inside a non-alphanumeric run
   * and collapsing the two parts gives the collapsed text: the runs are
   * replaced independently of one another.
   */
  lemma {:induction false} CollapseRunsSplit(x: string, y: string)
    requires x == [] || y == [] || IsAlnum(x[|x| - 1]) || IsAlnum(y[0])
    ensures CollapseRuns(x + y) == CollapseRuns(x) + CollapseRuns(y)
    decreases |x|, 2
  {
    if x == [] {
      assert x + y == y;
    } else if y == [] {
      assert x + y == x;
    } else if IsAlnum(x[0]) {
      SplitAfterAlnum(x, y);
    } else {
      SplitAfterRun(x, y);
    }
  }

  /** One step of collapsing a concatenation whose first part is not empty. */
  lemma CollapseRunsOfConcat(x: string, y: string)
    requires x != []
    ensures IsAlnum(x[0]) ==> CollapseRuns(x + y) == [x[0]] + CollapseRuns(x[1..] + y)
    ensures !IsAlnum(x[0]) ==> CollapseRuns(x + y) == "_" + CollapseRuns(SkipNonAlnum(x[1..] + y))
  {
    TailOfConcat(x, y);
  }

  lemma {:induction false} SplitAfterAlnum(x: string, y: string)
    requires x != [] && y != [] && IsAlnum(x[0])
    requires IsAlnum(x[|x| - 1]) || IsAlnum(y[0])
    ensures CollapseRuns(x + y) == CollapseRuns(x) + CollapseRuns(y)
    decreases |x|, 0
  {
    var u := x[1..];
    assert u == [] || u[|u| - 1] == x[|x| - 1];
    CollapseRunsSplit(u, y);
    calc {
      CollapseRuns(x + y);
      { CollapseRunsOfConcat(x, y); }
      [x[0]] + CollapseRuns(u + y);
      [x[0]] + (CollapseRuns(u) + CollapseRuns(y));
      ([x[0]] + CollapseRuns(u)) + CollapseRuns(y);
      CollapseRuns(x) + CollapseRuns(y);
    }
  }

  lemma {:induction false} SplitAfterRun(x: string, y: string)
    requires x != [] && y != [] && !IsAlnum(x[0])
    requires IsAlnum(x[|x| - 1]) || IsAlnum(y[0])
    ensures CollapseRuns(x + y) == CollapseRuns(x) + CollapseRuns(y)
    decreases |x|, 1
  {
    if SkipNonAlnum(x[1..]) != [] {
      SplitAfterRunRest(x, y);
    } else {
      SplitAfterWholeRun(x, y);
    }
  }

  /** `SplitAfterRun` when the first part goes on after its leading run. */
  lemma {:induction false} SplitAfterRunRest(x: string, y: string)
    requires x != [] && y != [] && !IsAlnum(x[0])
    requires IsAlnum(x[|x| - 1]) || IsAlnum(y[0])
    requires SkipNonAlnum(x[1..]) != []
    ensures CollapseRuns(x + y) == CollapseRuns(x) + CollapseRuns(y)
    decreases |x|, 0
  {
    var u := x[1..];
    var su := SkipNonAlnum(u);
    assert CollapseRuns(x + y) == "_" + CollapseRuns(SkipNonAlnum(u + y)) by {
      CollapseRunsOfConcat(x, y);
    }
    assert SkipNonAlnum(u + y) == su + y by {
      SkipNonAlnumAppend(u, y);
    }
    assert IsAlnum(su[|su| - 1]) || IsAlnum(y[0]) by {
      assert su[|su| - 1] == x[|x| - 1];
    }
    SplitAfterRunTail(su, y);
  }

  /** `SplitAfterRun` when the first part is one run. */
  lemma {:induction false} SplitAfterWholeRun(x: string, y: string)
    requires x != [] && y != [] && !IsAlnum(x[0])
    requires IsAlnum(x[|x| - 1]) || IsAlnum(y[0])
    requires SkipNonAlnum(x[1..]) == []
    ensures CollapseRuns(x + y) == CollapseRuns(x) + CollapseRuns(y)
  {
    var u := x[1..];
    assert CollapseRuns(x + y) == "_" + CollapseRuns(SkipNonAlnum(u + y)) by {
      CollapseRunsOfConcat(x, y);
    }
    assert IsAlnum(y[0]) by {
      if |u| > 0 {
        assert x[|x| - 1] == u[|u| - 1];
      }
    }
    assert SkipNonAlnum(u + y) == y by {
      SkipNonAlnumAppend(u, y);
    }
    assert CollapseRuns(x) == "_" + CollapseRuns(SkipNonAlnum(u));
    assert CollapseRuns(x) == "_" by {
      assert CollapseRuns(SkipNonAlnum(u)) == [];
    }
  }

  /** The part of `SplitAfterRun` after the first run: the rest of the text goes on with a letter or digit. */
  lemma {:induction false} SplitAfterRunTail(su: string, y: string)
    requires su != [] && y != []
    requires IsAlnum(su[|su| - 1]) || IsAlnum(y[0])
    ensures "_" + CollapseRuns(su + y) == ("_" + CollapseRuns(su)) + CollapseRuns(y)
    decreases |su|, 3
  {
    CollapseRunsSplit(su, y);
    var a, b := CollapseRuns(su), CollapseRuns(y);
    assert "_" + (a + b) == ("_" + a) + b;
  }

  /** A non-empty run of characters other than letters and digits becomes a single `_`. */
  lemma CollapseRunsOfRun(w: string)
    requires w != []
    requires forall k :: 0 <= k < |w| ==> !IsAlnum(w[k])
    ensures CollapseRuns(w) == "_"
  {
  }

  lemma AlnumsCons(c: char, s: string)
    ensures Alnums([c] + s) == (if IsAlnum(c) then [c] else []) + Alnums(s)
  {
    assert ([c] + s)[0] == c && ([c] + s)[1..] == s;
  }

  lemma {:induction false} AlnumsAppend(a: string, b: string)
    ensures Alnums(a + b) == Alnums(a) + Alnums(b)
  {
    if a == [] {
      assert a + b == b;
    } else {
      var head := if IsAlnum(a[0]) then [a[0]] else [];
      TailOfConcat(a, b);
      assert Alnums(a + b) == head + Alnums(a[1..] + b);
      AlnumsAppend(a[1..], b);
      assert head + (Alnums(a[1..]) + Alnums(b)) == (head + Alnums(a[1..])) + Alnums(b);
    }
  }

  /** Skipping the leading non-alphanumeric run drops no letter or digit. */
  lemma {:induction false} AlnumsOfSkipped(s: string)
    ensures Alnums(SkipNonAlnum(s)) == Alnums(s)
  {
    if s != [] && !IsAlnum(s[0]) {
      AlnumsOfSkipped(s[1..]);
    }
  }

  /** `lstrip('_')`: the leading run of `_` goes, and nothing else. */
  function StripLeading(s: string): (r: string)
    ensures |r| <= |s| && r == s[|s| - |r|..]
    ensures r == [] || r[0] != '_'
    ensures forall k :: 0 <= k < |s| - |r| ==> s[k] == '_'
  {
    if s != [] && s[0] == '_' then
      var r := StripLeading(s[1..]);
      assert s[1..][|s| - 1 - |r|..] == s[|s| - |r|..];
      r
    else s
  }

  /** `rstrip('_')`: the trailing run of `_` goes, and nothing else. */
  function StripTrailing(s: string): (r: string)
    ensures |r| <= |s| && r == s[..|r|]
    ensures r == [] || r[|r| - 1] != '_'
    ensures forall k :: |r| <= k < |s| ==> s[k] == '_'
  {
    if s != [] && s[|s| - 1] == '_' then
      var r := StripTrailing(s[..|s| - 1]);
      assert s[..|s| - 1][..|r|] == s[..|r|];
      r
    else s
  }

  /** `s.strip('_')`. */
  function StripUnderscores(s: string): string
  {
    StripTrailing(StripLeading(s))
  }

  /** A finished slug: slug characters only, no `__`, no `_` at either end. */
  predicate IsSlug(s: string)
  {
    && (forall i :: 0 <= i < |s| ==> IsSlugChar(s[i]))
    && NoDoubleUnderscore(s)
    && (s == [] || (s[0] != '_' && s[|s| - 1] != '_'))
  }

  /** `sanitize_filename`. */
  function SanitizeFilename(text: string): (r: string)
    ensures IsSlug(r)
  {
    var collapsed := CollapseRuns(AsciiOnly(text));
    var stripped := StripUnderscores(collapsed);
    CollapseRunsShape(AsciiOnly(text));
    StripKeepsShape(collapsed);
    LowerKeepsShape(stripped);
    Lower(stripped)
  }

  /** The slug keeps every ASCII letter and digit of the name, lower-cased and in order. */
  lemma SanitizeFilenameKeepsAlnums(text: string)
    ensures Alnums(SanitizeFilename(text)) == Lower(Alnums(text))
  {
    var collapsed := CollapseRuns(AsciiOnly(text));
    var stripped := StripUnderscores(collapsed);
    AlnumsOfAsciiOnly(text);
    CollapseRunsKeeps(AsciiOnly(text));
    AlnumsOfStripped(collapsed);
    AlnumsOfLower(stripped);
  }

  /** Dropping non-ASCII characters works piece by piece, so the ASCII characters keep their order. */
  lemma {:induction false} AsciiOnlyAppend(a: string, b: string)
    ensures AsciiOnly(a + b) == AsciiOnly(a) + AsciiOnly(b)
  {
    if a == [] {
      assert a + b == b;
    } else {
      TailOfConcat(a, b);
      AsciiOnlyAppend(a[1..], b);
    }
  }

  /** Letters and digits are ASCII, so dropping the non-ASCII characters keeps them all. */
  lemma {:induction false} AlnumsOfAsciiOnly(s: string)
    ensures Alnums(AsciiOnly(s)) == Alnums(s)
  {
    if s != [] {
      AlnumsOfAsciiOnly(s[1..]);
      var head := if (s[0] as int) < 128 then [s[0]] else [];
      AlnumsAppend(head, AsciiOnly(s[1..]));
      assert Alnums(head) == if IsAlnum(s[0]) then [s[0]] else [];
    }
  }

  /** Stripping `_` from the ends drops no letter or digit. */
  lemma AlnumsOfStripped(s: string)
    ensures Alnums(StripUnderscores(s)) == Alnums(s)
  {
    AlnumsOfStripLeading(s);
    AlnumsOfStripTrailing(StripLeading(s));
  }

  lemma {:induction false} AlnumsOfStripLeading(s: string)
    ensures Alnums(StripLeading(s)) == Alnums(s)
  {
    if s != [] && s[0] == '_' {
      AlnumsOfStripLeading(s[1..]);
    }
  }

  lemma {:induction false} AlnumsOfStripTrailing(s: string)
    ensures Alnums(StripTrailing(s)) == Alnums(s)
  {
    if s != [] && s[|s| - 1] == '_' {
      var init := s[..|s| - 1];
      AlnumsOfStripTrailing(init);
      assert s == init + "_";
      AlnumsAppend(init, "_");
    }
  }

  /** Lower-casing and picking the letters and digits commute. */
  lemma {:induction false} AlnumsOfLower(s: string)
    ensures Alnums(Lower(s)) == Lower(Alnums(s))
  {
    if s != [] {
      AlnumsOfLower(s[1..]);
      var l := Lower(s);
      assert l[0] == LowerChar(s[0]) && l[1..] == Lower(s[1..]);
      assert IsAlnum(LowerChar(s[0])) <==> IsAlnum(s[0]);
      var head := if IsAlnum(s[0]) then [s[0]] else [];
      assert Lower(head + Alnums(s[1..])) == Lower(head) + Lower(Alnums(s[1..]));
    }
  }

  /** Only ASCII alphanumerics and `_`. */
  predicate AlnumOrUnderscore(s: string)
  {
    forall i :: 0 <= i < |s| ==> IsAlnum(s[i]) || s[i] == '_'
  }

  /** A slice of an alphanumeric-or-`_` string without `__` is one too. */
  lemma SliceKeepsShape(s: string, lo: nat, hi: nat)
    requires lo <= hi <= |s|
    requires AlnumOrUnderscore(s) && NoDoubleUnderscore(s)
    ensures AlnumOrUnderscore(s[lo..hi]) && NoDoubleUnderscore(s[lo..hi])
  {
    var t := s[lo..hi];
    assert forall i :: 0 <= i < |t| ==> t[i] == s[lo + i];
  }

  /** Stripping keeps the character class and the absence of `__`, and leaves no `_` at the ends. */
  lemma StripKeepsShape(s: string)
    requires AlnumOrUnderscore(s) && NoDoubleUnderscore(s)
    ensures var t := StripUnderscores(s);
      && AlnumOrUnderscore(t)
      && NoDoubleUnderscore(t)
      && (t == [] || (t[0] != '_' && t[|t| - 1] != '_'))
  {
    var l := StripLeading(s);
    assert l == s[|s| - |l|..|s|];
    SliceKeepsShape(s, |s| - |l|, |s|);
    var t := StripTrailing(l);
    assert t == l[0..|t|];
    SliceKeepsShape(l, 0, |t|);
    if t != [] {
      assert t[0] == l[0];
    }
    assert t == StripUnderscores(s);
  }

  /** ASCII lower-casing turns an alphanumeric-or-`_` string into slug characters, keeping `_` where it was. */
  lemma LowerKeepsShape(s: string)
    requires forall i :: 0 <= i < |s| ==> IsAlnum(s[i]) || s[i] == '_'
    ensures |Lower(s)| == |s|
    ensures forall i :: 0 <= i < |s| ==> IsSlugChar(Lower(s)[i]) && (Lower(s)[i] == '_' <==> s[i] == '_')
  {
  }

  // ---------------------------------------------------------------------------
  // Properties of sanitize_filename

  /** A slug passes through every stage unchanged. */
  lemma {:induction false} AsciiOnlyOfAscii(s: string)
    requires forall i :: 0 <= i < |s| ==> (s[i] as int) < 128
    ensures AsciiOnly(s) == s
  {
    if s != [] {
      AsciiOnlyOfAscii(s[1..]);
      assert s == [s[0]] + s[1..];
    }
  }

  lemma {:induction false} CollapseRunsOfClean(s: string)
    requires AlnumOrUnderscore(s) && NoDoubleUnderscore(s)
    requires s == [] || s[|s| - 1] != '_'
    ensures CollapseRuns(s) == s
    decreases |s|
  {
    if s != [] {
      var t := s[1..];
      assert t == s[1..|s|];
      SliceKeepsShape(s, 1, |s|);
      assert t == [] || t[|t| - 1] == s[|s| - 1];
      CollapseRunsOfClean(t);
      CleanStep(s);
    }
  }

  /** One step of `CollapseRunsOfClean`: a clean text whose tail is kept as it is is kept as it is. */
  lemma CleanStep(s: string)
    requires s != [] && AlnumOrUnderscore(s) && NoDoubleUnderscore(s) && s[|s| - 1] != '_'
    requires CollapseRuns(s[1..]) == s[1..]
    ensures CollapseRuns(s) == s
  {
    var t := s[1..];
    if !IsAlnum(s[0]) {
      assert |s| >= 2 && s[1] != '_' && t[0] == s[1];
      assert SkipNonAlnum(t) == t;
    }
    assert s == [s[0]] + t;
  }

  lemma StripOfSlug(s: string)
    requires s == [] || (s[0] != '_' && s[|s| - 1] != '_')
    ensures StripUnderscores(s) == s
  {
    assert StripLeading(s) == s;
  }

  lemma LowerOfSlug(s: string)
    requires forall i :: 0 <= i < |s| ==> IsSlugChar(s[i])
    ensures Lower(s) == s
  {
  }

  /** Sanitising a slug gives the same slug, so `sanitize_filename` is idempotent. */
  lemma SanitizeFilenameFixesSlugs(s: string)
    requires IsSlug(s)
    ensures SanitizeFilename(s) == s
  {
    assert forall i :: 0 <= i < |s| ==> (s[i] as int) < 128 && (IsAlnum(s[i]) || s[i] == '_');
    AsciiOnlyOfAscii(s);
    CollapseRunsOfClean(s);
    StripOfSlug(s);
    LowerOfSlug(s);
    assert SanitizeFilename(s) == Lower(StripUnderscores(CollapseRuns(AsciiOnly(s))));
  }

  lemma SanitizeFilenameIdempotent(text: string)
    ensures SanitizeFilename(SanitizeFilename(text)) == SanitizeFilename(text)
  {
    SanitizeFilenameFixesSlugs(SanitizeFilename(text));
  }

  // ---------------------------------------------------------------------------
  // extract_text_recursively

  /**
   * A parsed JSON value. `JScalar` is a number, a boolean or null, carrying
   * the text Python's `str()` gives for it; an object is its key/value pairs
   * in order.
   */
  datatype Json = JStr(s: string) | JScalar(repr: string) | JArr(items: seq<Json>) | JObj(fields: seq<Field>)
  datatype Field = Field(key: string, value: Json)

  /** One extracted text with its `source` path. */
  datatype Entry = Entry(text: string, source: string)

  /** The path of an object member: `parent.key`, or `key` alone at the root. */
  function ChildKey(parent: string, key: string): string
  {
    if parent != "" then parent + "." + key else key
  }

  /** The path of a list element: `parent[i]`. */
  function ItemKey(parent: string, i: nat): string
  {
    parent + "[" + NatToString(i) + "]"
  }

  /**
   * `extract_text_recursively`: depth first, members and elements in order;
   * a string is kept when it is not blank, any other scalar as its `str()`.
   */
  function Extract(data: Json, parent: string): seq<Entry>
    decreases data, 1
  {
    match data
    case JObj(fields) => ExtractFields(fields, parent, 0)
    case JArr(items) => ExtractItems(items, parent, 0)
    case JStr(s) => if IsBlank(s) then [] else [Entry(s, parent)]
    case JScalar(repr) => [Entry(repr, parent)]
  }

  /** The entries of the members from the `i`-th on. */
  function ExtractFields(fields: seq<Field>, parent: string, i: nat): seq<Entry>
    decreases fields, 0, |fields| - i
  {
    if i >= |fields| then []
    else Extract(fields[i].value, ChildKey(parent, fields[i].key)) + ExtractFields(fields, parent, i + 1)
  }

  /** The entries of the elements from the `i`-th on. */
  function ExtractItems(items: seq<Json>, parent: string, i: nat): seq<Entry>
    decreases items, 0, |items| - i
  {
    if i >= |items| then []
    else Extract(items[i], ItemKey(parent, i)) + ExtractItems(items, parent, i + 1)
  }

  /** Every number, boolean and null prints as something other than whitespace. */
  predicate ScalarsNonBlank(data: Json)
    decreases data
  {
    match data
    case JStr(_) => true
    case JScalar(repr) => !IsBlank(repr)
    case JArr(items) => forall i :: 0 <= i < |items| ==> ScalarsNonBlank(items[i])
    case JObj(fields) => forall i :: 0 <= i < |fields| ==> ScalarsNonBlank(fields[i].value)
  }

  /**
   * Every entry's source path extends the path it was extracted under, and
   * no entry is blank when no scalar prints blank.
   */
  lemma {:induction false} ExtractShape(data: Json, parent: string)
    ensures forall e :: e in Extract(data, parent) ==> parent <= e.source
    ensures ScalarsNonBlank(data) ==> forall e :: e in Extract(data, parent) ==> !IsBlank(e.text)
    decreases data, 1
  {
    match data
    case JObj(fields) => ExtractFieldsShape(fields, parent, 0);
    case JArr(items) => ExtractItemsShape(items, parent, 0);
    case JStr(_) =>
    case JScalar(_) =>
  }

  lemma {:induction false} ExtractFieldsShape(fields: seq<Field>, parent: string, i: nat)
    ensures forall e :: e in ExtractFields(fields, parent, i) ==> parent <= e.source
    ensures forall e :: e in ExtractFields(fields, parent, i) ==>
      exists j :: i <= j < |fields| && ChildKey(parent, fields[j].key) <= e.source
    ensures (forall j :: 0 <= j < |fields| ==> ScalarsNonBlank(fields[j].value)) ==>
      forall e :: e in ExtractFields(fields, parent, i) ==> !IsBlank(e.text)
    decreases fields, 0, |fields| - i
  {
    if i < |fields| {
      var child := ChildKey(parent, fields[i].key);
      assert parent <= child;
      ExtractShape(fields[i].value, child);
      ExtractFieldsShape(fields, parent, i + 1);
    }
  }

  lemma {:induction false} ExtractItemsShape(items: seq<Json>, parent: string, i: nat)
    ensures forall e :: e in ExtractItems(items, parent, i) ==> parent <= e.source
    ensures forall e :: e in ExtractItems(items, parent, i) ==>
      exists j :: i <= j < |items| && ItemKey(parent, j) <= e.source
    ensures (forall j :: 0 <= j < |items| ==> ScalarsNonBlank(items[j])) ==>
      forall e :: e in ExtractItems(items, parent, i) ==> !IsBlank(e.text)
    decreases items, 0, |items| - i
  {
    if i < |items| {
      var child := ItemKey(parent, i);
      assert parent <= child;
      ExtractShape(items[i], child);
      ExtractItemsShape(items, parent, i + 1);
    }
  }

  /** The entries of each member from the `i`-th on, one list per member. */
  function FieldParts(fields: seq<Field>, parent: string, i: nat): seq<seq<Entry>>
    requires i <= |fields|
  {
    seq(|fields| - i, j requires 0 <= j < |fields| - i => Extract(fields[i + j].value, ChildKey(parent, fields[i + j].key)))
  }

  /** The entries of each element from the `i`-th on, one list per element. */
  function ItemParts(items: seq<Json>, parent: string, i: nat): seq<seq<Entry>>
    requires i <= |items|
  {
    seq(|items| - i, j requires 0 <= j < |items| - i => Extract(items[i + j], ItemKey(parent, i + j)))
  }

  lemma ConcatCons<T>(x: seq<T>, rest: seq<seq<T>>)
    ensures Concat([x] + rest) == x + Concat(rest)
  {
    ConcatAppend([x], rest);
    assert Concat([x]) == Concat([]) + x;
  }

  /**
   * An object contributes, in member order, everything each member's value
   * contributes under the path `parent.key`, and nothing else.
   */
  lemma {:induction false} ExtractFieldsParts(fields: seq<Field>, parent: string, i: nat)
    requires i <= |fields|
    ensures ExtractFields(fields, parent, i) == Concat(FieldParts(fields, parent, i))
    decreases |fields| - i
  {
    if i < |fields| {
      ExtractFieldsParts(fields, parent, i + 1);
      var head := Extract(fields[i].value, ChildKey(parent, fields[i].key));
      assert FieldParts(fields, parent, i) == [head] + FieldParts(fields, parent, i + 1);
      ConcatCons(head, FieldParts(fields, parent, i + 1));
    } else {
      assert FieldParts(fields, parent, i) == [];
    }
  }

  /**
   * A list contributes, in element order, everything each element
   * contributes under the path `parent[i]`, and nothing else.
   */
  lemma {:induction false} ExtractItemsParts(items: seq<Json>, parent: string, i: nat)
    requires i <= |items|
    ensures ExtractItems(items, parent, i) == Concat(ItemParts(items, parent, i))
    decreases |items| - i
  {
    if i < |items| {
      ExtractItemsParts(items, parent, i + 1);
      var head := Extract(items[i], ItemKey(parent, i));
      assert ItemParts(items, parent, i) == [head] + ItemParts(items, parent, i + 1);
      ConcatCons(head, ItemParts(items, parent, i + 1));
    } else {
      assert ItemParts(items, parent, i) == [];
    }
  }

  /** Paths as the indexer writes them; a whitespace-only string leaves no entry. */
  lemma ExtractExample()
    ensures Extract(JObj([Field("name", JStr("Coconut")),
                          Field("tags", JArr([JStr("a11y"), JStr("  ")])),
                          Field("stars", JScalar("42"))]), "")
         == [Entry("Coconut", "name"), Entry("a11y", "tags[0]"), Entry("42", "stars")]
  {
    var items := [JStr("a11y"), JStr("  ")];
    var fields := [Field("name", JStr("Coconut")), Field("tags", JArr(items)), Field("stars", JScalar("42"))];
    assert !IsBlank("a11y") by { assert !IsSpace("a11y"[0]); }
    assert !IsBlank("Coconut") by { assert !IsSpace("Coconut"[0]); }
    assert ItemKey("tags", 0) == "tags[0]" by { assert NatToString(0) == "0"; }
    assert ExtractItems(items, "tags", 1) == [];
    assert ExtractItems(items, "tags", 0) == [Entry("a11y", "tags[0]")];
    assert ExtractFields(fields, "", 2) == [Entry("42", "stars")];
    assert ExtractFields(fields, "", 1) == [Entry("a11y", "tags[0]"), Entry("42", "stars")];
  }

  // ---------------------------------------------------------------------------
  // build_documents

  /** A LangChain document: its text and its metadata dictionary. */
  datatype Document = Document(pageContent: string, metadata: map<string, Json>)

  /** No key occurs twice among the members. */
  predicate DistinctKeys(fields: seq<Field>)
  {
    forall i, j :: 0 <= i < j < |fields| ==> fields[i].key != fields[j].key
  }

  /**
   * `project_data.get("name", "untitled")`: the `name` member's value, or
   * "untitled" when there is none.
   */
  function TitleOf(project: seq<Field>): (title: Json)
    ensures title == JStr("untitled") || exists i :: 0 <= i < |project| && project[i].key == "name" && project[i].value == title
    ensures (forall i :: 0 <= i < |project| ==> project[i].key != "name") ==> title == JStr("untitled")
    ensures DistinctKeys(project) ==>
      forall i :: 0 <= i < |project| && project[i].key == "name" ==> title == project[i].value
  {
    if project == [] then JStr("untitled")
    else if project[0].key == "name" then project[0].value
    else TitleOf(project[1..])
  }

  const LongEntryWords: nat := 100
  const DocChunkSize: nat := 150
  const DocChunkOverlap: nat := 50

  /** An entry of more than 100 words is cut with `chunk_text`'s defaults; a shorter one is kept whole. */
  function PiecesOf(text: string): seq<string>
  {
    if |Words(text)| > LongEntryWords then ChunksFrom(Words(text), 0, DocChunkSize, DocChunkSize - DocChunkOverlap)
    else [text]
  }

  function MetadataFor(source: string, title: Json): map<string, Json>
  {
    map["source" := JStr(source), "project" := title]
  }

  /** One document per piece, each carrying the entry's path and the project's title. */
  function DocsOfPieces(pieces: seq<string>, source: string, title: Json): (docs: seq<Document>)
    ensures |docs| == |pieces|
    ensures forall k :: 0 <= k < |docs| ==>
      && docs[k].pageContent == pieces[k]
      && docs[k].metadata.Keys == {"source", "project"}
      && docs[k].metadata["source"] == JStr(source)
      && docs[k].metadata["project"] == title
  {
    assert MetadataFor(source, title).Keys == {"source", "project"};
    seq(|pieces|, k requires 0 <= k < |pieces| => Document(pieces[k], MetadataFor(source, title)))
  }

  /** The documents of the entries, in entry order and piece order. */
  function DocsOfEntries(entries: seq<Entry>, title: Json): seq<Document>
  {
    if entries == [] then []
    else
      var last := entries[|entries| - 1];
      DocsOfEntries(entries[..|entries| - 1], title) + DocsOfPieces(PiecesOf(last.text), last.source, title)
  }

  /** What `build_documents` returns for a project object. */
  function DocumentsFor(project: seq<Field>): seq<Document>
  {
    DocsOfEntries(Extract(JObj(project), ""), TitleOf(project))
  }

  /** `build_documents`: one document per piece of each extracted entry. */
  method BuildDocuments(project: seq<Field>) returns (docs: seq<Document>)
    ensures docs == DocumentsFor(project)
  {
    docs := DocumentsOfEntries(Extract(JObj(project), ""), TitleOf(project));
  }

  /** The outer loop of `build_documents`, over the extracted entries. */
  method DocumentsOfEntries(entries: seq<Entry>, title: Json) returns (docs: seq<Document>)
    ensures docs == DocsOfEntries(entries, title)
  {
    docs := [];
    var k := 0;
    while k < |entries|
      invariant 0 <= k <= |entries|
      invariant docs == DocsOfEntries(entries[..k], title)
    {
      var pieces := EntryPieces(entries[k].text);
      DocsOfEntriesSnoc(entries, k, title);
      docs := AppendDocs(docs, pieces, entries[k].source, title);
      k := k + 1;
    }
    assert entries[..k] == entries;
  }

  lemma DocsOfEntriesSnoc(entries: seq<Entry>, k: nat, title: Json)
    requires k < |entries|
    ensures DocsOfEntries(entries[..k + 1], title)
        == DocsOfEntries(entries[..k], title) + DocsOfPieces(PiecesOf(entries[k].text), entries[k].source, title)
  {
    assert entries[..k + 1][..k] == entries[..k];
  }

  /** The pieces of one entry: `chunk_text` when it is long, else the text itself. */
  method EntryPieces(text: string) returns (pieces: seq<string>)
    ensures pieces == PiecesOf(text)
  {
    if |Words(text)| > LongEntryWords {
      pieces := ChunkText(text, DocChunkSize, DocChunkOverlap);
    } else {
      pieces := [text];
    }
  }

  /** The inner loop of `build_documents`: one document per piece, appended in order. */
  method AppendDocs(docs: seq<Document>, pieces: seq<string>, source: string, title: Json)
    returns (out: seq<Document>)
    ensures out == docs + DocsOfPieces(pieces, source, title)
  {
    out := docs;
    var j := 0;
    while j < |pieces|
      invariant 0 <= j <= |pieces|
      invariant out == docs + DocsOfPieces(pieces[..j], source, title)
    {
      out := out + [Document(pieces[j], MetadataFor(source, title))];
      assert DocsOfPieces(pieces[..j + 1], source, title)
          == DocsOfPieces(pieces[..j], source, title) + [Document(pieces[j], MetadataFor(source, title))];
      j := j + 1;
    }
    assert pieces[..j] == pieces;
  }

  // ---------------------------------------------------------------------------
  // Properties of the documents

  /**
   * Every document's metadata has exactly the keys `source` and `project`,
   * and `project` is the project's name (or "untitled").
   */
  lemma {:induction false} DocumentMetadata(entries: seq<Entry>, title: Json)
    ensures forall d :: d in DocsOfEntries(entries, title) ==>
      && d.metadata.Keys == {"source", "project"}
      && d.metadata["project"] == title
      && d.metadata["source"].JStr?
  {
    if entries != [] {
      DocumentMetadata(entries[..|entries| - 1], title);
      var last := entries[|entries| - 1];
      var pieces := DocsOfPieces(PiecesOf(last.text), last.source, title);
      var meta := MetadataFor(last.source, title);
      assert meta.Keys == {"source", "project"};
      assert forall k :: 0 <= k < |pieces| ==> pieces[k].metadata == meta;
    }
  }

  /** The documents of each entry, one list per entry. */
  function EntryDocs(entries: seq<Entry>, title: Json): seq<seq<Document>>
  {
    seq(|entries|, k requires 0 <= k < |entries| => DocsOfPieces(PiecesOf(entries[k].text), entries[k].source, title))
  }

  /**
   * The documents are, entry by entry and in entry order, exactly the
   * documents of that entry's pieces, so each carries its own entry's path
   * as `source`.
   */
  lemma {:induction false} DocumentsPerEntry(entries: seq<Entry>, title: Json)
    ensures DocsOfEntries(entries, title) == Concat(EntryDocs(entries, title))
  {
    if entries != [] {
      var init := entries[..|entries| - 1];
      DocumentsPerEntry(init, title);
      assert EntryDocs(entries, title)[..|entries| - 1] == EntryDocs(init, title);
    }
  }

  /** Every entry yields at least one document. */
  lemma {:induction false} DocumentCount(entries: seq<Entry>, title: Json)
    ensures |DocsOfEntries(entries, title)| >= |entries|
  {
    if entries != [] {
      DocumentCount(entries[..|entries| - 1], title);
      var last := entries[|entries| - 1];
      if |Words(last.text)| > LongEntryWords {
        ChunkCountBounds(Words(last.text), 0, DocChunkSize, DocChunkSize - DocChunkOverlap);
      }
    }
  }

  /**
   * An entry of more than 100 words becomes `ceil(n / 100)` pieces of 1 to
   * 150 words; a shorter one stays one piece with the text unchanged.
   */
  lemma PiecesShape(text: string)
    ensures |Words(text)| <= LongEntryWords ==> PiecesOf(text) == [text]
    ensures |Words(text)| > LongEntryWords ==>
      && |PiecesOf(text)| == (|Words(text)| + 99) / 100
      && forall k :: 0 <= k < |PiecesOf(text)| ==> 1 <= |Words(PiecesOf(text)[k])| <= 150
  {
    if |Words(text)| > LongEntryWords {
      ChunkCount(Words(text), DocChunkSize, DocChunkSize - DocChunkOverlap);
      forall k | 0 <= k < |PiecesOf(text)|
        ensures 1 <= |Words(PiecesOf(text)[k])| <= 150
      {
        ChunkWords(text, DocChunkSize, DocChunkSize - DocChunkOverlap, k);
      }
    }
  }
}
