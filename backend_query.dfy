/**
 * The first knowledge base's question loop: read a question, stop at "exit",
 * otherwise look up the nearest passages and build the generator's prompt
 * from them.
 *
 * The sentence-embedding model and the FAISS search are the parameter
 * `search`, giving the first row of neighbour indices for a question; the
 * text generator, loading the index and the pickle file, and printing are
 * outside the model. `input()` is the sequence of lines typed.
 */
module BackendQuery {
  import opened Options
  import opened Strings

  // ---------------------------------------------------------------------------
  // retrieve_passages

  /** `passages[i]` with Python's reading of a negative index; `None` for an `IndexError`. */
  function PyIndex(passages: seq<string>, i: int): (r: Option<string>)
    ensures r.Some? <==> -|passages| <= i < |passages|
    ensures 0 <= i < |passages| ==> r == Some(passages[i])
  {
    if 0 <= i < |passages| then Some(passages[i])
    else if -|passages| <= i < 0 then Some(passages[|passages| + i])
    else None
  }

  /**
   * `[passages[i] for i in indices[0]]` as written: every index is read,
   * negative ones from the end; one that is out of range raises.
   */
  function RetrievePassages(passages: seq<string>, row: seq<int>): (r: Option<seq<string>>)
    ensures r.Some? <==> forall k :: 0 <= k < |row| ==> -|passages| <= row[k] < |passages|
    ensures r.Some? ==> |r.value| == |row| && forall k :: 0 <= k < |row| ==> Some(r.value[k]) == PyIndex(passages, row[k])
  {
    if row == [] then Some([])
    else
      var head := PyIndex(passages, row[0]);
      var rest := RetrievePassages(passages, row[1..]);
      if head.Some? && rest.Some? then Some([head.value] + rest.value) else None
  }

  /** FAISS marks a missing neighbour (fewer stored vectors than asked for) with -1. */
  const MissingNeighbour: int := -1

  /**
   * The retrieval evidently intended: the passages of the neighbours FAISS
   * found, in rank order, leaving out the missing-neighbour marks.
   */
  function NeighbourPassages(passages: seq<string>, row: seq<int>): (r: seq<string>)
    ensures |r| <= |row|
    ensures forall p :: p in r ==> p in passages
  {
    if row == [] then []
    else (if 0 <= row[0] < |passages| then [passages[row[0]]] else []) + NeighbourPassages(passages, row[1..])
  }

  /** On a full result row the corrected retrieval reads the same passages, in the same order. */
  lemma {:induction false} NeighboursOfFullRow(passages: seq<string>, row: seq<int>)
    requires forall k :: 0 <= k < |row| ==> 0 <= row[k] < |passages|
    ensures RetrievePassages(passages, row) == Some(NeighbourPassages(passages, row))
    ensures |NeighbourPassages(passages, row)| == |row|
    ensures forall k :: 0 <= k < |row| ==> NeighbourPassages(passages, row)[k] == passages[row[k]]
  {
    if row != [] {
      NeighboursOfFullRow(passages, row[1..]);
    }
  }

  /** The corrected retrieval reads a row piece by piece: each index alone decides what it adds. */
  lemma {:induction false} NeighbourPassagesAppend(passages: seq<string>, a: seq<int>, b: seq<int>)
    ensures NeighbourPassages(passages, a + b) == NeighbourPassages(passages, a) + NeighbourPassages(passages, b)
  {
    if a != [] {
      TailOfConcat(a, b);
      NeighbourPassagesAppend(passages, a[1..], b);
    } else {
      assert a + b == b;
    }
  }

  /** One more index adds its passage when it names a stored one, and nothing otherwise. */
  lemma NeighbourPassagesSnoc(passages: seq<string>, row: seq<int>, i: int)
    ensures NeighbourPassages(passages, row + [i])
         == NeighbourPassages(passages, row) + (if 0 <= i < |passages| then [passages[i]] else [])
  {
    NeighbourPassagesAppend(passages, row, [i]);
  }

  /** Padding marks alone retrieve nothing. */
  lemma {:induction false} NeighbourPassagesOfPadding(passages: seq<string>, pad: seq<int>)
    requires forall k :: 0 <= k < |pad| ==> pad[k] == MissingNeighbour
    ensures NeighbourPassages(passages, pad) == []
  {
    if pad != [] {
      NeighbourPassagesOfPadding(passages, pad[1..]);
    }
  }

  /** As written, each padding mark after the found neighbours reads the last passage. */
  lemma RetrievePaddedRow(passages: seq<string>, found: seq<int>, pad: seq<int>)
    requires passages != []
    requires forall k :: 0 <= k < |found| ==> 0 <= found[k] < |passages|
    requires forall k :: 0 <= k < |pad| ==> pad[k] == MissingNeighbour
    ensures RetrievePassages(passages, found + pad)
         == Some(RetrievePassages(passages, found).value + seq(|pad|, k => passages[|passages| - 1]))
  {
    var row := found + pad;
    assert forall k :: 0 <= k < |row| ==> -|passages| <= row[k] < |passages| by {
      forall k | 0 <= k < |row|
        ensures -|passages| <= row[k] < |passages|
      {
        if k >= |found| {
          assert row[k] == pad[k - |found|];
        }
      }
    }
    var r := RetrievePassages(passages, row).value;
    var f := RetrievePassages(passages, found).value;
    var expected := f + seq(|pad|, k => passages[|passages| - 1]);
    assert |r| == |row| == |expected|;
    forall k | 0 <= k < |r|
      ensures r[k] == expected[k]
    {
      assert Some(r[k]) == PyIndex(passages, row[k]);
      if k < |found| {
        assert row[k] == found[k] && Some(f[k]) == PyIndex(passages, found[k]);
      } else {
        assert row[k] == pad[k - |found|];
      }
    }
    assert r == expected;
  }

  /**
   * A FAISS row is the found neighbours, then a padding mark for each one
   * missing. The corrected retrieval gives exactly the found neighbours'
   * passages; as written, every padding mark adds the last passage again.
   */
  lemma PaddedRow(passages: seq<string>, found: seq<int>, pad: seq<int>)
    requires forall k :: 0 <= k < |found| ==> 0 <= found[k] < |passages|
    requires forall k :: 0 <= k < |pad| ==> pad[k] == MissingNeighbour
    ensures NeighbourPassages(passages, found + pad) == RetrievePassages(passages, found).value
    ensures passages != [] ==>
      RetrievePassages(passages, found + pad)
        == Some(RetrievePassages(passages, found).value + seq(|pad|, k => passages[|passages| - 1]))
  {
    NeighboursOfFullRow(passages, found);
    NeighbourPassagesAppend(passages, found, pad);
    NeighbourPassagesOfPadding(passages, pad);
    if passages != [] {
      RetrievePaddedRow(passages, found, pad);
    }
  }

  /**
   * As written, a missing-neighbour mark reads the last passage: with three
   * passages and five neighbours asked for, the row `[0, 1, 2, -1, -1]`
   * yields the last passage three times, where only three were found.
   */
  lemma MissingNeighbourReadsLast()
    ensures RetrievePassages(["a", "b", "c"], [0, 1, 2, MissingNeighbour, MissingNeighbour]) == Some(["a", "b", "c", "c", "c"])
    ensures NeighbourPassages(["a", "b", "c"], [0, 1, 2, MissingNeighbour, MissingNeighbour]) == ["a", "b", "c"]
  {
    var ps: seq<string> := ["a", "b", "c"];
    var r4: seq<int> := [-1];
    var r3: seq<int> := [-1, -1];
    var r2: seq<int> := [2, -1, -1];
    var r1: seq<int> := [1, 2, -1, -1];
    var r0: seq<int> := [0, 1, 2, -1, -1];
    assert r4[1..] == [] && r3[1..] == r4 && r2[1..] == r3 && r1[1..] == r2 && r0[1..] == r1;
    assert PyIndex(ps, -1) == Some("c");
    assert RetrievePassages(ps, []) == Some([]);
    assert r4[0] == -1 && PyIndex(ps, r4[0]) == Some("c");
    assert RetrievePassages(ps, r4[1..]) == Some([]);
    assert ["c"] + [] == ["c"];
    assert RetrievePassages(ps, r4) == Some(["c"]);
    assert PyIndex(ps, r3[0]) == Some("c") && ["c"] + ["c"] == ["c", "c"];
    assert RetrievePassages(ps, r3) == Some(["c", "c"]);
    assert PyIndex(ps, r2[0]) == Some("c") && ["c"] + ["c", "c"] == ["c", "c", "c"];
    assert RetrievePassages(ps, r2) == Some(["c", "c", "c"]);
    assert PyIndex(ps, r1[0]) == Some("b") && ["b"] + ["c", "c", "c"] == ["b", "c", "c", "c"];
    assert RetrievePassages(ps, r1) == Some(["b", "c", "c", "c"]);
    assert PyIndex(ps, r0[0]) == Some("a") && ["a"] + ["b", "c", "c", "c"] == ["a", "b", "c", "c", "c"];
    assert r0 == [0, 1, 2, MissingNeighbour, MissingNeighbour];
    assert NeighbourPassages(ps, r4) == [];
    assert NeighbourPassages(ps, r3) == [];
    assert NeighbourPassages(ps, r2) == ["c"];
    assert NeighbourPassages(ps, r1) == ["b", "c"];
  }

  // ---------------------------------------------------------------------------
  // generate_answer

  /** The generator's fixed instructions, the three sentences as the source spells them. */
  const SystemPrompt: string :=
    "You are ZendalonaBot, an expert on Zendalona's accessible open-source projects. "
    + "Provide a clear, concise, and accurate answer to the user's question based solely on the given context. "
    + "Avoid repetition and focus on delivering an informative response. If the context is incomplete, state what extra details might be needed."

  const ContextLabel: string := "\n\nContext: "
  const QuestionLabel: string := "\n\nQuestion: "
  const AnswerCue: string := "\nAnswer:"

  /** The prompt built from a question and its retrieved passages. */
  function Prompt(query: string, retrieved: seq<string>): string
  {
    SystemPrompt + ContextLabel + Join(retrieved, " ") + QuestionLabel + query + AnswerCue
  }

  /**
   * The prompt is laid out as instructions, context, question, cue: each
   * piece sits at a fixed place, whatever the question and passages.
   */
  lemma PromptLayout(query: string, retrieved: seq<string>)
    ensures var p := Prompt(query, retrieved);
      var context := Join(retrieved, " ");
      var q0 := |SystemPrompt| + |ContextLabel| + |context| + |QuestionLabel|;
      && |p| == q0 + |query| + |AnswerCue|
      && p[..|SystemPrompt|] == SystemPrompt
      && p[|SystemPrompt| + |ContextLabel|..|SystemPrompt| + |ContextLabel| + |context|] == context
      && p[q0..q0 + |query|] == query
      && p[q0 + |query|..] == AnswerCue
  {
    ConcatLayout(SystemPrompt, ContextLabel, Join(retrieved, " "), QuestionLabel, query, AnswerCue);
  }

  /** Where each of six concatenated strings sits in the result. */
  lemma ConcatLayout(s: string, c: string, x: string, q: string, y: string, e: string)
    ensures var p := s + c + x + q + y + e;
      var q0 := |s| + |c| + |x| + |q|;
      && |p| == q0 + |y| + |e|
      && p[..|s|] == s
      && p[|s| + |c|..|s| + |c| + |x|] == x
      && p[q0..q0 + |y|] == y
      && p[q0 + |y|..] == e
  {
    var a := s + c;
    var b := a + x + q;
    var p := b + y + e;
    assert p[..|b|] == b;
    assert b[..|a|] == a;
    assert a[..|s|] == s;
    assert p[..|s|] == b[..|s|] == a[..|s|];
    assert b[|a|..|a| + |x|] == x;
    assert p[|a|..|a| + |x|] == b[|a|..|a| + |x|];
  }

  /** With the same passages, different questions give different prompts. */
  lemma PromptDeterminesQuestion(q1: string, q2: string, retrieved: seq<string>)
    requires Prompt(q1, retrieved) == Prompt(q2, retrieved)
    ensures q1 == q2
  {
    PromptLayout(q1, retrieved);
    PromptLayout(q2, retrieved);
  }

  /** With no passages the context is empty and the labels meet. */
  lemma EmptyContextPrompt(query: string)
    ensures Prompt(query, []) == SystemPrompt + "\n\nContext: \n\nQuestion: " + query + "\nAnswer:"
  {
  }

  // ---------------------------------------------------------------------------
  // main

  predicate IsExit(line: string)
  {
    Lower(line) == "exit"
  }

  /** The position of the first "exit" line, if any. */
  function FirstExit(lines: seq<string>): (r: Option<nat>)
    ensures r.Some? ==> r.value < |lines| && IsExit(lines[r.value])
    ensures r.Some? ==> forall k :: 0 <= k < r.value ==> !IsExit(lines[k])
    ensures r.None? ==> forall k :: 0 <= k < |lines| ==> !IsExit(lines[k])
  {
    if lines == [] then None
    else if IsExit(lines[0]) then Some(0)
    else match FirstExit(lines[1..])
      case None => None
      case Some(i) => Some(i + 1)
  }

  /**
   * The question loop: every line before the first "exit" (in any letter
   * case) is answered, in order, with the prompt for its neighbours; the
   * loop stops at that line, or raises when the input runs out first
   * (`exited` false).
   */
  method Repl(lines: seq<string>, passages: seq<string>, search: string -> seq<int>)
    returns (answered: seq<string>, prompts: seq<string>, exited: bool)
    ensures exited <==> FirstExit(lines).Some?
    ensures answered == (if exited then lines[..FirstExit(lines).value] else lines)
    ensures |prompts| == |answered|
    ensures forall k :: 0 <= k < |answered| ==>
      prompts[k] == Prompt(answered[k], NeighbourPassages(passages, search(answered[k])))
  {
    answered := [];
    prompts := [];
    exited := false;
    var k := 0;
    while k < |lines|
      invariant 0 <= k <= |lines|
      invariant answered == lines[..k]
      invariant forall j :: 0 <= j < k ==> !IsExit(lines[j])
      invariant |prompts| == |answered|
      invariant forall j :: 0 <= j < |answered| ==>
        prompts[j] == Prompt(answered[j], NeighbourPassages(passages, search(answered[j])))
    {
      var query := lines[k];
      if Lower(query) == "exit" {
        exited := true;
        FirstExitAt(lines, k);
        return;
      }
      var retrieved := NeighbourPassages(passages, search(query));
      prompts := prompts + [Prompt(query, retrieved)];
      answered := answered + [query];
      k := k + 1;
    }
    assert lines[..k] == lines;
    FirstExitNone(lines);
  }

  lemma {:induction false} FirstExitAt(lines: seq<string>, k: nat)
    requires k < |lines| && IsExit(lines[k])
    requires forall j :: 0 <= j < k ==> !IsExit(lines[j])
    ensures FirstExit(lines) == Some(k)
  {
    if k > 0 {
      FirstExitAt(lines[1..], k - 1);
    }
  }

  lemma FirstExitNone(lines: seq<string>)
    requires forall j :: 0 <= j < |lines| ==> !IsExit(lines[j])
    ensures FirstExit(lines) == None
  {
  }

  /** Only the letter case of "exit" is ignored: "Exit" stops, " exit" is a question. */
  lemma ExitSpellings()
    ensures IsExit("EXIT") && IsExit("Exit")
    ensures !IsExit(" exit") && !IsExit("exit.")
  {
    assert Lower("EXIT")[0] == LowerChar('E') == 'e';
    assert Lower("EXIT")[1] == LowerChar('X') == 'x';
    assert Lower("EXIT")[2] == LowerChar('I') == 'i';
    assert Lower("EXIT")[3] == LowerChar('T') == 't';
    assert Lower("Exit")[0] == LowerChar('E') == 'e';
    assert Lower("Exit")[1] == 'x' && Lower("Exit")[2] == 'i' && Lower("Exit")[3] == 't';
    assert |Lower(" exit")| == 5;
    assert |Lower("exit.")| == 5;
  }
}
