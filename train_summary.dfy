/**
 * The project-summary indexer: one embedding per project title (a later
 * project with the same title replaces the earlier one) and one vector item
 * per title, identified by an ASCII slug of the title.
 *
 * The embedding model is the parameter `encode`; the Pinecone index and the
 * JSON file are outside the model.
 */
module TrainSummary {
  import opened Options
  import opened Strings
  import opened TrainProject

  // ---------------------------------------------------------------------------
  // sanitize_id

  predicate IsIdChar(c: char)
  {
    IsAlnum(c) || c == '_'
  }

  /** `re.sub(r'[^a-zA-Z0-9_]', '_', s)`: every other character becomes `_`, one for one. */
  function ToUnderscores(s: string): (r: string)
    ensures |r| == |s|
    ensures forall i :: 0 <= i < |s| ==> r[i] == (if IsIdChar(s[i]) then s[i] else '_')
  {
    seq(|s|, i requires 0 <= i < |s| => if IsIdChar(s[i]) then s[i] else '_')
  }

  /** Every character is a letter, a digit or `_`. */
  predicate IdChars(s: string)
  {
    forall i :: 0 <= i < |s| ==> IsIdChar(s[i])
  }

  /** `re.sub(r'__+', '_', s)`: every run of underscores becomes one. */
  function CollapseUnderscores(s: string): (r: string)
    ensures s == [] <==> r == []
    ensures s != [] ==> r[0] == s[0]
    ensures IdChars(s) ==> IdChars(r)
    ensures NoDoubleUnderscore(r)
    decreases |s|
  {
    if s == [] then []
    else if s[0] == '_' then
      var t := StripLeading(s[1..]);
      var rest := CollapseUnderscores(t);
      assert IdChars(s) ==> IdChars(t) by {
        assert forall i :: 0 <= i < |t| ==> t[i] == s[|s| - |t| + i];
      }
      NoDoubleCons('_', rest);
      "_" + rest
    else
      var rest := CollapseUnderscores(s[1..]);
      NoDoubleCons(s[0], rest);
      [s[0]] + rest
  }

  /** The characters other than `_`, in order. */
  function WithoutUnderscores(s: string): string
  {
    if s == [] then [] else (if s[0] == '_' then [] else [s[0]]) + WithoutUnderscores(s[1..])
  }

  lemma {:induction false} WithoutUnderscoresAppend(a: string, b: string)
    ensures WithoutUnderscores(a + b) == WithoutUnderscores(a) + WithoutUnderscores(b)
  {
    if a == [] {
      assert a + b == b;
    } else {
      TailOfConcat(a, b);
      WithoutUnderscoresAppend(a[1..], b);
    }
  }

  /**
   * Collapsing keeps every character other than `_`, in order, and keeps
   * the last character.
   */
  lemma {:induction false} CollapseUnderscoresKeeps(s: string)
    ensures WithoutUnderscores(CollapseUnderscores(s)) == WithoutUnderscores(s)
    ensures s != [] ==> CollapseUnderscores(s)[|CollapseUnderscores(s)| - 1] == s[|s| - 1]
    decreases |s|, 1
  {
    if s != [] {
      if s[0] == '_' {
        CollapseUnderscoresKeepsRun(s);
      } else {
        var u := s[1..];
        assert s == [s[0]] + u;
        WithoutUnderscoresAppend([s[0]], u);
        CollapseUnderscoresKeeps(u);
        var rest := CollapseUnderscores(u);
        assert CollapseUnderscores(s) == [s[0]] + rest;
        WithoutUnderscoresAppend([s[0]], rest);
      }
    }
  }

  /** `CollapseUnderscoresKeeps` for a text that starts with a run of underscores. */
  lemma {:induction false} CollapseUnderscoresKeepsRun(s: string)
    requires s != [] && s[0] == '_'
    ensures WithoutUnderscores(CollapseUnderscores(s)) == WithoutUnderscores(s)
    ensures CollapseUnderscores(s)[|CollapseUnderscores(s)| - 1] == s[|s| - 1]
    decreases |s|, 0
  {
    var t := StripLeading(s[1..]);
    CollapseUnderscoresKeeps(t);
    AfterLeadingRun(s, t);
    var rest := CollapseUnderscores(t);
    assert CollapseUnderscores(s) == "_" + rest;
    assert WithoutUnderscores("_") == [];
    WithoutUnderscoresAppend("_", rest);
  }

  /** What is left after the leading run of `_` has the same other characters and the same last character. */
  lemma AfterLeadingRun(s: string, t: string)
    requires s != [] && s[0] == '_' && t == StripLeading(s[1..])
    ensures WithoutUnderscores(t) == WithoutUnderscores(s)
    ensures t != [] ==> t[|t| - 1] == s[|s| - 1]
    ensures t == [] ==> s[|s| - 1] == '_'
  {
    var u := s[1..];
    WithoutUnderscoresOfStripLeading(u);
    assert WithoutUnderscores(s) == WithoutUnderscores(u);
    if t != [] {
      assert t[|t| - 1] == u[|u| - 1];
    } else if u != [] {
      assert u[|u| - 1] == '_';
      assert s[|s| - 1] == u[|u| - 1];
    }
  }

  /** Stripping the leading `_` keeps the other characters. */
  lemma {:induction false} WithoutUnderscoresOfStripLeading(u: string)
    ensures WithoutUnderscores(StripLeading(u)) == WithoutUnderscores(u)
  {
    if u != [] && u[0] == '_' {
      WithoutUnderscoresOfStripLeading(u[1..]);
    }
  }

  /** `sanitize_id`. */
  function SanitizeId(text: string): (r: string)
    ensures forall i :: 0 <= i < |r| ==> IsSlugChar(r[i])
    ensures NoDoubleUnderscore(r)
  {
    var collapsed := CollapseUnderscores(ToUnderscores(AsciiOnly(text)));
    LowerKeepsShape(collapsed);
    Lower(collapsed)
  }

  /** The id keeps every ASCII letter and digit of the title, lower-cased and in order. */
  lemma SanitizeIdKeepsAlnums(text: string)
    ensures Alnums(SanitizeId(text)) == Lower(Alnums(text))
  {
    var a := AsciiOnly(text);
    CollapseAgrees(a);
    CollapseRunsKeeps(a);
    AlnumsOfAsciiOnly(text);
    AlnumsOfLower(CollapseRuns(a));
  }

  // ---------------------------------------------------------------------------
  // Properties of sanitize_id

  lemma {:induction false} CollapseUnderscoresOfClean(s: string)
    requires NoDoubleUnderscore(s)
    ensures CollapseUnderscores(s) == s
    decreases |s|
  {
    if s != [] {
      var t := s[1..];
      assert NoDoubleUnderscore(t) by {
        forall i | 0 <= i < |t| - 1
          ensures !(t[i] == '_' && t[i + 1] == '_')
        {
          assert t[i] == s[i + 1] && t[i + 1] == s[i + 2];
        }
      }
      CollapseUnderscoresOfClean(t);
      if s[0] == '_' {
        assert t == [] || t[0] == s[1];
        assert StripLeading(t) == t;
      }
      assert s == [s[0]] + t;
    }
  }

  /** A string of slug characters without `__` is its own id, so `sanitize_id` is idempotent. */
  lemma SanitizeIdFixesIds(s: string)
    requires forall i :: 0 <= i < |s| ==> IsSlugChar(s[i])
    requires NoDoubleUnderscore(s)
    ensures SanitizeId(s) == s
  {
    AsciiOnlyOfAscii(s);
    assert ToUnderscores(s) == s;
    CollapseUnderscoresOfClean(s);
    LowerOfSlug(s);
  }

  lemma SanitizeIdIdempotent(text: string)
    ensures SanitizeId(SanitizeId(text)) == SanitizeId(text)
  {
    SanitizeIdFixesIds(SanitizeId(text));
  }

  /** Unlike the filename slug, an id keeps a leading `_`: an ASCII punctuation start survives. */
  lemma LeadingUnderscoreKept(text: string)
    requires text != [] && (text[0] as int) < 128 && !IsAlnum(text[0])
    ensures SanitizeId(text) != [] && SanitizeId(text)[0] == '_'
  {
    assert AsciiOnly(text)[0] == text[0];
  }

  /** An id also keeps a trailing `_`: an ASCII punctuation end survives. */
  lemma TrailingUnderscoreKept(text: string)
    requires text != [] && (text[|text| - 1] as int) < 128 && !IsAlnum(text[|text| - 1])
    ensures SanitizeId(text) != [] && SanitizeId(text)[|SanitizeId(text)| - 1] == '_'
  {
    var c := CollapseRuns(AsciiOnly(text));
    CollapsedEndsInUnderscore(text);
    CollapseAgrees(AsciiOnly(text));
    assert SanitizeId(text) == Lower(c);
    LowerKeepsLastUnderscore(c);
  }

  /** Collapsing the ASCII characters of a text that ends in ASCII punctuation ends in `_`. */
  lemma CollapsedEndsInUnderscore(text: string)
    requires text != [] && (text[|text| - 1] as int) < 128 && !IsAlnum(text[|text| - 1])
    ensures var c := CollapseRuns(AsciiOnly(text)); c != [] && c[|c| - 1] == '_'
  {
    AsciiOnlyKeepsLast(text);
    CollapseRunsKeeps(AsciiOnly(text));
  }

  /** An ASCII last character is the last character of the ASCII part. */
  lemma AsciiOnlyKeepsLast(text: string)
    requires text != [] && (text[|text| - 1] as int) < 128
    ensures var a := AsciiOnly(text); a != [] && a[|a| - 1] == text[|text| - 1]
  {
    var last := text[|text| - 1];
    assert text == text[..|text| - 1] + [last];
    AsciiOnlyAppend(text[..|text| - 1], [last]);
    assert AsciiOnly([last]) == [last];
  }

  /** Lower-casing keeps a final `_`. */
  lemma LowerKeepsLastUnderscore(c: string)
    requires c != [] && c[|c| - 1] == '_'
    ensures Lower(c) != [] && Lower(c)[|Lower(c)| - 1] == '_'
  {
    var r := Lower(c);
    assert |r| == |c| && r[|r| - 1] == LowerChar(c[|c| - 1]);
  }

  /** Skipping a non-alphanumeric run, then mapping, is mapping, then skipping the `_` run. */
  lemma {:induction false} SkipCommutes(s: string)
    ensures StripLeading(ToUnderscores(s)) == ToUnderscores(SkipNonAlnum(s))
  {
    if s != [] && !IsAlnum(s[0]) {
      var m := ToUnderscores(s);
      assert m[0] == '_';
      assert m[1..] == ToUnderscores(s[1..]);
      assert StripLeading(m) == StripLeading(m[1..]);
      assert SkipNonAlnum(s) == SkipNonAlnum(s[1..]);
      SkipCommutes(s[1..]);
    } else if s != [] {
      assert ToUnderscores(s)[0] == s[0];
    }
  }

  /** The two regular-expression passes of `sanitize_id` collapse exactly the runs `sanitize_filename` does. */
  lemma {:induction false} CollapseAgrees(s: string)
    ensures CollapseRuns(s) == CollapseUnderscores(ToUnderscores(s))
    decreases |s|
  {
    if s != [] {
      var m := ToUnderscores(s);
      assert m[1..] == ToUnderscores(s[1..]);
      if IsAlnum(s[0]) {
        CollapseAgrees(s[1..]);
      } else {
        SkipCommutes(s[1..]);
        CollapseAgrees(SkipNonAlnum(s[1..]));
      }
    }
  }

  lemma {:induction false} StripLeadingLower(s: string)
    ensures StripLeading(Lower(s)) == Lower(StripLeading(s))
  {
    if s != [] && s[0] == '_' {
      assert Lower(s)[1..] == Lower(s[1..]);
      StripLeadingLower(s[1..]);
    } else if s != [] {
      assert Lower(s)[0] != '_';
    }
  }

  lemma {:induction false} StripTrailingLower(s: string)
    ensures StripTrailing(Lower(s)) == Lower(StripTrailing(s))
  {
    if s != [] && s[|s| - 1] == '_' {
      assert Lower(s)[..|s| - 1] == Lower(s[..|s| - 1]);
      StripTrailingLower(s[..|s| - 1]);
    } else if s != [] {
      assert Lower(s)[|s| - 1] != '_';
    }
  }

  /** The filename slug is the id with its outer underscores stripped. */
  lemma FilenameIsStrippedId(text: string)
    ensures SanitizeFilename(text) == StripUnderscores(SanitizeId(text))
  {
    var a := AsciiOnly(text);
    CollapseAgrees(a);
    var c := CollapseRuns(a);
    StripLeadingLower(c);
    StripTrailingLower(StripLeading(c));
  }

  /** Two different titles can share an id, and then share a vector id. */
  lemma IdCollision()
    ensures SanitizeId("A-B") == SanitizeId("a b") == "a_b"
  {
    IdOfDashed();
    IdOfSpaced();
  }

  lemma IdOfDashed()
    ensures SanitizeId("A-B") == "a_b"
  {
    CollapsedOfDashed();
    LowerOfUpper();
  }

  lemma CollapsedOfDashed()
    ensures CollapseUnderscores(ToUnderscores(AsciiOnly("A-B"))) == "A_B"
  {
    var mapped := "A_B";
    assert AsciiOnly("A-B") == "A-B";
    assert ToUnderscores("A-B") == mapped;
    assert NoDoubleUnderscore(mapped) by { assert mapped[0] != '_' && mapped[2] != '_'; }
    CollapseUnderscoresOfClean(mapped);
  }

  lemma LowerOfUpper()
    ensures Lower("A_B") == "a_b"
  {
    var l := Lower("A_B");
    assert l[0] == LowerChar('A') == 'a';
    assert l[1] == '_';
    assert l[2] == LowerChar('B') == 'b';
  }

  lemma IdOfSpaced()
    ensures SanitizeId("a b") == "a_b"
  {
    CollapsedOfSpaced();
    LowerOfSlug("a_b");
  }

  lemma CollapsedOfSpaced()
    ensures CollapseUnderscores(ToUnderscores(AsciiOnly("a b"))) == "a_b"
  {
    var mapped := "a_b";
    assert AsciiOnly("a b") == "a b";
    assert ToUnderscores("a b") == mapped;
    assert NoDoubleUnderscore(mapped) by { assert mapped[0] != '_' && mapped[2] != '_'; }
    CollapseUnderscoresOfClean(mapped);
  }

  // ---------------------------------------------------------------------------
  // project_embeddings and project_vectors

  /** One entry of `data['projects']`. */
  datatype Project = Project(title: string, description: string)

  /** A value of `project_embeddings`. */
  datatype Summary<E> = Summary(embedding: E, description: string)

  /** One item of `project_vectors`. */
  datatype VectorItem<E> = VectorItem(id: string, values: E, title: string, description: string)

  /** `a` occurs in `titles` before the first occurrence of `b`. */
  predicate SeenBefore(titles: seq<string>, a: string, b: string)
  {
    exists k :: 0 <= k < |titles| && titles[k] == a && b !in titles[..k + 1]
  }

  /**
   * The titles in the order a dict first sees them: each title once, ordered
   * by first occurrence.
   */
  function FirstSeen(titles: seq<string>): (order: seq<string>)
    ensures forall t :: t in order <==> t in titles
    ensures forall i, j :: 0 <= i < j < |order| ==> order[i] != order[j]
  {
    if titles == [] then []
    else
      var init := titles[..|titles| - 1];
      var rest := FirstSeen(init);
      var t := titles[|titles| - 1];
      assert titles == init + [t];
      assert forall u :: u in titles <==> u in init || u == t;
      if t in rest then rest else rest + [t]
  }

  /** Of two titles in `order`, the earlier one was seen first in `titles`. */
  predicate InFirstSeenOrder(titles: seq<string>, order: seq<string>)
  {
    forall i, j :: 0 <= i < j < |order| ==> SeenBefore(titles, order[i], order[j])
  }

  /** Of two titles in the key order, the earlier one was seen first. */
  lemma {:induction false} FirstSeenOrder(titles: seq<string>)
    ensures InFirstSeenOrder(titles, FirstSeen(titles))
    decreases |titles|
  {
    if titles != [] {
      var init := titles[..|titles| - 1];
      var rest := FirstSeen(init);
      var t := titles[|titles| - 1];
      assert titles == init + [t];
      FirstSeenOrder(init);
      SeenBeforeKept(init, t, rest);
      if t !in rest {
        SeenBeforeNew(init, t, rest);
        assert FirstSeen(titles) == rest + [t];
      } else {
        assert FirstSeen(titles) == rest;
      }
    }
  }

  /** What was seen before stays seen before when another title follows. */
  lemma SeenBeforeKept(init: seq<string>, t: string, order: seq<string>)
    requires InFirstSeenOrder(init, order)
    ensures InFirstSeenOrder(init + [t], order)
  {
    forall i, j | 0 <= i < j < |order|
      ensures SeenBefore(init + [t], order[i], order[j])
    {
      var k :| 0 <= k < |init| && init[k] == order[i] && order[j] !in init[..k + 1];
      assert (init + [t])[..k + 1] == init[..k + 1];
      assert (init + [t])[k] == init[k];
    }
  }

  /** A title seen for the first time comes after every title seen so far. */
  lemma SeenBeforeNew(init: seq<string>, t: string, order: seq<string>)
    requires t !in init
    requires forall u :: u in order ==> u in init
    ensures forall i :: 0 <= i < |order| ==> SeenBefore(init + [t], order[i], t)
  {
    forall i | 0 <= i < |order|
      ensures SeenBefore(init + [t], order[i], t)
    {
      assert order[i] in init;
      var k :| 0 <= k < |init| && init[k] == order[i];
      assert (init + [t])[..k + 1] == init[..k + 1];
      assert (init + [t])[k] == init[k];
    }
  }

  function TitlesOf(projects: seq<Project>): seq<string>
  {
    seq(|projects|, i requires 0 <= i < |projects| => projects[i].title)
  }

  /** The dict after all assignments: each title maps to the summary of the last project with it. */
  function EmbeddingsOf<E>(projects: seq<Project>, encode: string -> E): map<string, Summary<E>>
  {
    if projects == [] then map[]
    else
      var p := projects[|projects| - 1];
      EmbeddingsOf(projects[..|projects| - 1], encode)[p.title := Summary(encode(p.description), p.description)]
  }

  /** The module-level loop that fills `project_embeddings` (key order kept beside the map). */
  method BuildEmbeddings<E>(projects: seq<Project>, encode: string -> E)
    returns (order: seq<string>, embeddings: map<string, Summary<E>>)
    ensures order == FirstSeen(TitlesOf(projects))
    ensures embeddings == EmbeddingsOf(projects, encode)
  {
    order := [];
    embeddings := map[];
    var k := 0;
    while k < |projects|
      invariant 0 <= k <= |projects|
      invariant order == FirstSeen(TitlesOf(projects[..k]))
      invariant embeddings == EmbeddingsOf(projects[..k], encode)
    {
      var p := projects[k];
      EmbeddingsStep(projects, k, encode);
      if p.title !in embeddings {
        order := order + [p.title];
      }
      embeddings := embeddings[p.title := Summary(encode(p.description), p.description)];
      k := k + 1;
    }
    assert projects[..k] == projects;
  }

  /** One more project: its title joins the key order if new, and its summary replaces the entry. */
  lemma EmbeddingsStep<E>(projects: seq<Project>, k: nat, encode: string -> E)
    requires k < |projects|
    ensures var p := projects[k];
      && FirstSeen(TitlesOf(projects[..k + 1]))
        == (if p.title in EmbeddingsOf(projects[..k], encode) then FirstSeen(TitlesOf(projects[..k]))
            else FirstSeen(TitlesOf(projects[..k])) + [p.title])
      && EmbeddingsOf(projects[..k + 1], encode)
        == EmbeddingsOf(projects[..k], encode)[p.title := Summary(encode(p.description), p.description)]
  {
    var p := projects[k];
    assert projects[..k + 1][..k] == projects[..k];
    assert TitlesOf(projects[..k + 1]) == TitlesOf(projects[..k]) + [p.title];
    assert TitlesOf(projects[..k + 1])[..k] == TitlesOf(projects[..k]);
    EmbeddingKeys(projects[..k], encode);
  }

  /** The item `project_vectors` holds for one title. */
  function ItemFor<E>(title: string, summary: Summary<E>): VectorItem<E>
  {
    VectorItem(SanitizeId(title), summary.embedding, title, summary.description)
  }

  /** The loop that fills `project_vectors`: one item per dict entry, in the dict's order. */
  method BuildVectors<E>(order: seq<string>, embeddings: map<string, Summary<E>>)
    returns (vectors: seq<VectorItem<E>>)
    requires forall t :: t in order ==> t in embeddings
    ensures |vectors| == |order|
    ensures forall k :: 0 <= k < |order| ==> vectors[k] == ItemFor(order[k], embeddings[order[k]])
  {
    vectors := ItemsWithIds(order, embeddings, SanitizeId);
  }

  /** The same loop with the id function as a parameter. */
  method ItemsWithIds<E>(order: seq<string>, embeddings: map<string, Summary<E>>, idOf: string -> string)
    returns (vectors: seq<VectorItem<E>>)
    requires forall t :: t in order ==> t in embeddings
    ensures |vectors| == |order|
    ensures forall k :: 0 <= k < |order| ==>
      vectors[k] == VectorItem(idOf(order[k]), embeddings[order[k]].embedding, order[k], embeddings[order[k]].description)
  {
    vectors := [];
    var k := 0;
    while k < |order|
      invariant 0 <= k <= |order|
      invariant |vectors| == k
      invariant forall j :: 0 <= j < k ==>
        vectors[j] == VectorItem(idOf(order[j]), embeddings[order[j]].embedding, order[j], embeddings[order[j]].description)
    {
      var summary := embeddings[order[k]];
      vectors := vectors + [VectorItem(idOf(order[k]), summary.embedding, order[k], summary.description)];
      k := k + 1;
    }
  }

  /**
   * The whole script on `data['projects']`: `projects[0]` fails on an empty
   * list, so there is no result then.
   */
  method Summarise<E>(projects: seq<Project>, encode: string -> E) returns (r: Option<seq<VectorItem<E>>>)
    ensures r.None? <==> projects == []
    ensures r.Some? ==> |r.value| == |FirstSeen(TitlesOf(projects))|
    ensures r.Some? ==> forall k :: 0 <= k < |r.value| ==>
      var t := FirstSeen(TitlesOf(projects))[k];
      t in EmbeddingsOf(projects, encode) && r.value[k] == ItemFor(t, EmbeddingsOf(projects, encode)[t])
  {
    if projects == [] {
      return None;
    }
    var order, embeddings := BuildEmbeddings(projects, encode);
    EmbeddingKeys(projects, encode);
    var vectors := BuildVectors(order, embeddings);
    return Some(vectors);
  }

  // ---------------------------------------------------------------------------
  // Properties of the summaries

  /** The dict has one key per distinct title. */
  lemma {:induction false} EmbeddingKeys<E>(projects: seq<Project>, encode: string -> E)
    ensures forall t :: t in EmbeddingsOf(projects, encode) <==> t in TitlesOf(projects)
  {
    if projects != [] {
      var init := projects[..|projects| - 1];
      EmbeddingKeys(init, encode);
      assert TitlesOf(projects) == TitlesOf(init) + [projects[|projects| - 1].title];
    }
  }

  /** The last project with a title decides that title's summary. */
  lemma {:induction false} LastWins<E>(projects: seq<Project>, encode: string -> E, j: nat)
    requires j < |projects|
    requires forall i :: j < i < |projects| ==> projects[i].title != projects[j].title
    ensures var t := projects[j].title;
      t in EmbeddingsOf(projects, encode)
      && EmbeddingsOf(projects, encode)[t] == Summary(encode(projects[j].description), projects[j].description)
  {
    if j < |projects| - 1 {
      LastWins(projects[..|projects| - 1], encode, j);
    }
  }

  /** There are as many vector items as distinct titles: a repeated title yields one item. */
  lemma DistinctTitlesCount(projects: seq<Project>)
    ensures |FirstSeen(TitlesOf(projects))| <= |projects|
    ensures (forall i, j :: 0 <= i < j < |projects| ==> projects[i].title != projects[j].title)
      ==> FirstSeen(TitlesOf(projects)) == TitlesOf(projects)
  {
    FirstSeenBound(TitlesOf(projects));
    if forall i, j :: 0 <= i < j < |projects| ==> projects[i].title != projects[j].title {
      FirstSeenOfDistinct(TitlesOf(projects));
    }
  }

  lemma {:induction false} FirstSeenBound(titles: seq<string>)
    ensures |FirstSeen(titles)| <= |titles|
  {
    if titles != [] {
      FirstSeenBound(titles[..|titles| - 1]);
    }
  }

  lemma {:induction false} FirstSeenOfDistinct(titles: seq<string>)
    requires forall i, j :: 0 <= i < j < |titles| ==> titles[i] != titles[j]
    ensures FirstSeen(titles) == titles
  {
    if titles != [] {
      var init := titles[..|titles| - 1];
      FirstSeenOfDistinct(init);
      assert titles[|titles| - 1] !in init;
      assert init + [titles[|titles| - 1]] == titles;
    }
  }
}
