/**
 * The first knowledge-base builder: one passage per project, "title.
 * description", and embeddings computed two passages at a time.
 *
 * The JSON file is taken already parsed; the sentence-embedding model is the
 * parameter `encode`, applied to one batch at a time. Stacking the batch
 * matrices (`np.vstack`), the FAISS index and the pickle file are outside the
 * model.
 */
module BackendTrain {
  import opened Options
  import opened Strings

  /** One entry of `data["projects"]`; a missing field is `None`. */
  datatype ProjectRecord = ProjectRecord(title: Option<string>, description: Option<string>)

  const Separator: string := ". "

  /** `f"{title}. {description}"`, a missing field counting as "". */
  function PassageOf(p: ProjectRecord): string
  {
    p.title.GetOr("") + Separator + p.description.GetOr("")
  }

  /** The passages of `data.get("projects", [])`, in file order. */
  function PassagesOf(projects: Option<seq<ProjectRecord>>): (r: seq<string>)
    ensures projects.None? ==> r == []
    ensures projects.Some? ==> |r| == |projects.value|
  {
    match projects
    case None => []
    case Some(ps) => seq(|ps|, i requires 0 <= i < |ps| => PassageOf(ps[i]))
  }

  /** `load_json` after the file is parsed: the loop appending one passage per project. */
  method LoadPassages(projects: Option<seq<ProjectRecord>>) returns (passages: seq<string>)
    ensures passages == PassagesOf(projects)
  {
    var ps := projects.GetOr([]);
    passages := [];
    var k := 0;
    while k < |ps|
      invariant 0 <= k <= |ps|
      invariant |passages| == k
      invariant forall j :: 0 <= j < k ==> passages[j] == PassageOf(ps[j])
    {
      var title := ps[k].title.GetOr("");
      var description := ps[k].description.GetOr("");
      passages := passages + [title + Separator + description];
      k := k + 1;
    }
  }

  // ---------------------------------------------------------------------------
  // Recovering the title

  /** `s` has the separator at position `i`. */
  predicate SepAt(s: string, i: nat)
  {
    i + 2 <= |s| && s[i] == '.' && s[i + 1] == ' '
  }

  /** The first position from `i` on where the separator occurs. */
  function FindSep(s: string, i: nat): (r: Option<nat>)
    ensures r.Some? ==> i <= r.value && SepAt(s, r.value)
    ensures r.Some? ==> forall j :: i <= j < r.value ==> !SepAt(s, j)
    ensures r.None? ==> forall j :: i <= j ==> !SepAt(s, j)
    decreases |s| - i
  {
    if i + 2 > |s| then None
    else if SepAt(s, i) then Some(i)
    else FindSep(s, i + 1)
  }

  /** The text before the first ". " of a passage. */
  function TitlePart(passage: string): Option<string>
  {
    match FindSep(passage, 0)
    case None => None
    case Some(i) => Some(passage[..i])
  }

  /**
   * A title without ". " in it is recovered from its passage: the passage
   * keeps the title intact as the text before the first separator.
   */
  lemma TitleRecovered(p: ProjectRecord)
    requires forall j :: 0 <= j ==> !SepAt(p.title.GetOr(""), j)
    ensures TitlePart(PassageOf(p)) == Some(p.title.GetOr(""))
  {
    var t := p.title.GetOr("");
    var s := PassageOf(p);
    assert SepAt(s, |t|);
    forall j | 0 <= j < |t|
      ensures !SepAt(s, j)
    {
      if j + 1 < |t| {
        assert s[j] == t[j] && s[j + 1] == t[j + 1];
        assert !SepAt(t, j);
      } else {
        assert s[j + 1] == '.';
      }
    }
    match FindSep(s, 0)
    case None =>
    case Some(i) =>
      assert i == |t|;
      assert s[..i] == t;
  }

  /** A project without a title still yields a passage, starting with the separator. */
  lemma UntitledPassage(description: Option<string>)
    ensures PassageOf(ProjectRecord(None, description)) == ". " + description.GetOr("")
  {
  }

  // ---------------------------------------------------------------------------
  // compute_embeddings

  const BatchSize: nat := 2

  /** The batches `passages[i:i+2]` for `i = start, start + 2, …`. */
  function BatchesFrom(passages: seq<string>, start: nat): seq<seq<string>>
    decreases |passages| - start
  {
    if start >= |passages| then []
    else
      var end := if start + BatchSize <= |passages| then start + BatchSize else |passages|;
      [passages[start..end]] + BatchesFrom(passages, start + BatchSize)
  }

  /**
   * The batching loop of `compute_embeddings`: each batch is encoded on its
   * own and the results are kept in batch order.
   */
  method ComputeEmbeddings<E>(passages: seq<string>, encode: seq<string> -> E)
    returns (batches: seq<seq<string>>, embeddings: seq<E>)
    ensures batches == BatchesFrom(passages, 0)
    ensures |embeddings| == |batches|
    ensures forall k :: 0 <= k < |batches| ==> embeddings[k] == encode(batches[k])
  {
    batches := [];
    embeddings := [];
    var i := 0;
    while i < |passages|
      invariant batches + BatchesFrom(passages, i) == BatchesFrom(passages, 0)
      invariant |embeddings| == |batches|
      invariant forall k :: 0 <= k < |batches| ==> embeddings[k] == encode(batches[k])
      decreases |passages| - i
    {
      var end := if i + BatchSize <= |passages| then i + BatchSize else |passages|;
      var batch := passages[i..end];
      assert BatchesFrom(passages, i) == [batch] + BatchesFrom(passages, i + BatchSize);
      assert (batches + [batch]) + BatchesFrom(passages, i + BatchSize) == batches + BatchesFrom(passages, i);
      batches := batches + [batch];
      embeddings := embeddings + [encode(batch)];
      i := i + BatchSize;
    }
  }

  // ---------------------------------------------------------------------------
  // Properties of the batches

  /** Every batch holds one or two passages. */
  lemma {:induction false} BatchSizes(passages: seq<string>, start: nat)
    ensures forall k :: 0 <= k < |BatchesFrom(passages, start)| ==> 1 <= |BatchesFrom(passages, start)[k]| <= 2
    decreases |passages| - start
  {
    if start < |passages| {
      BatchSizes(passages, start + BatchSize);
    }
  }

  /** The batches concatenate back to the passages, in order. */
  lemma {:induction false} BatchesConcat(passages: seq<string>, start: nat)
    requires start <= |passages|
    ensures Concat(BatchesFrom(passages, start)) == passages[start..]
    decreases |passages| - start
  {
    var bs := BatchesFrom(passages, start);
    if start < |passages| {
      var end := if start + BatchSize <= |passages| then start + BatchSize else |passages|;
      if end < |passages| {
        BatchesConcat(passages, start + BatchSize);
      } else {
        assert BatchesFrom(passages, start + BatchSize) == [];
      }
      ConcatAppend([passages[start..end]], BatchesFrom(passages, start + BatchSize));
      assert Concat([passages[start..end]]) == passages[start..end] by {
        assert [passages[start..end]][..0] == [];
      }
      assert passages[start..end] + passages[end..] == passages[start..];
    }
  }

  /**
   * The number of batches is `(n - 1) // 2 + 1`, the total the progress line
   * prints (0 for no passages: floor division, which for a positive divisor
   * agrees with Dafny's `/`).
   */
  lemma {:induction false} BatchCount(passages: seq<string>, start: nat)
    requires start <= |passages|
    ensures |BatchesFrom(passages, start)| == (|passages| - start - 1) / 2 + 1
    decreases |passages| - start
  {
    if start + BatchSize < |passages| {
      BatchCount(passages, start + BatchSize);
    }
  }
}
