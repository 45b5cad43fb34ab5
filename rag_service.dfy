/**
 * The RAG backend's query endpoint, `POST /query`: a project name and a
 * question come in; the project's FAISS index is looked up under
 * `./indexes/<project, lower-cased>`, searched for the five nearest
 * documents, and each hit is returned as its `section` (or "unknown") and
 * its stripped text.
 *
 * Whether the index directory exists is the parameter `indexExists`; loading the
 * index and the similarity search are the parameter `search`, which either
 * yields the hits in rank order, or fails with the text of a
 * `FileNotFoundError` (a file of the index missing inside an existing
 * directory), or fails with the text of any other exception. A request
 * body that is not a JSON object is `None`, answered with a server error
 * carrying the exception's text `unparsable`.
 */
module RagService {
  import opened Options
  import opened Strings
  import opened TrainProject

  /** The `project` and `question` fields of the body; an absent field is `None`. */
  datatype QueryBody = QueryBody(project: Option<string>, question: Option<string>)

  /** One element of `results`. */
  datatype ResultEntry = ResultEntry(section: Json, content: string)

  /** The JSON reply: the answer, or an error with its HTTP status. */
  datatype Reply =
    | Answer(project: string, question: string, results: seq<ResultEntry>)
    | Failure(status: nat, error: string)

  /** What loading the index and searching it gives. */
  datatype SearchOutcome =
    | Found(docs: seq<Document>)
    | SearchMissing(message: string)
    | SearchFailed(message: string)

  const IndexesDir: string := "./indexes"
  const ResultCount: nat := 5

  const BadRequestStatus: nat := 400
  const NotFoundStatus: nat := 404
  const ServerErrorStatus: nat := 500

  const FieldsRequiredMessage: string := "Both 'project' and 'question' fields are required."
  const NoIndexPrefix: string := "No index found for project: "
  const UnknownSection: Json := JStr("unknown")

  /** `os.path.join(INDEXES_DIR, slug)`: an absolute slug replaces the directory. */
  function IndexPath(slug: string): (path: string)
    ensures |slug| <= |path| && path[|path| - |slug|..] == slug
    ensures (path != [] && path[0] == '/') <==> (slug != [] && slug[0] == '/')
  {
    if slug != [] && slug[0] == '/' then slug else IndexesDir + "/" + slug
  }

  /** Different slugs give different path strings (not necessarily different directories: `x/.` and `x` are two strings). */
  lemma IndexPathInjective(a: string, b: string)
    requires IndexPath(a) == IndexPath(b)
    ensures a == b
  {
  }

  /** `match.metadata.get("section", "unknown")`. */
  function SectionOf(metadata: map<string, Json>): Json
  {
    if "section" in metadata then metadata["section"] else UnknownSection
  }

  function EntryOf(d: Document): ResultEntry
  {
    ResultEntry(SectionOf(d.metadata), Trim(d.pageContent))
  }

  /** The `results` list: one entry per hit, in rank order. */
  function EntriesOf(docs: seq<Document>): (entries: seq<ResultEntry>)
    ensures |entries| == |docs|
    ensures forall k :: 0 <= k < |docs| ==> entries[k] == EntryOf(docs[k])
  {
    seq(|docs|, k requires 0 <= k < |docs| => EntryOf(docs[k]))
  }

  /**
   * The reply once the index directory is found: a `FileNotFoundError` while
   * loading is a 404 and any other failure a 500, each with its text;
   * otherwise the answer.
   */
  function AnswerFor(slug: string, question: string, outcome: SearchOutcome): Reply
  {
    match outcome
    case SearchMissing(message) => Failure(NotFoundStatus, message)
    case SearchFailed(message) => Failure(ServerErrorStatus, message)
    case Found(docs) => Answer(slug, question, EntriesOf(docs))
  }

  /**
   * The reply to a request. Fields are read with `""` as default and
   * stripped; a blank field is refused before any lookup; the project is
   * lower-cased and names the index directory; a missing directory is a 404
   * naming the lower-cased project; a `FileNotFoundError` while loading is a
   * 404 and any other failure while loading or searching a 500, with its text.
   */
  function Respond(body: Option<QueryBody>, unparsable: string,
                   indexExists: string -> bool, search: (string, string, nat) -> SearchOutcome): (r: Reply)
    ensures body.None? ==> r == Failure(ServerErrorStatus, unparsable)
    ensures (r.Failure? && r.status == BadRequestStatus) <==>
      body.Some? && (IsBlank(body.value.project.GetOr("")) || IsBlank(body.value.question.GetOr("")))
    ensures r.Failure? && r.status == BadRequestStatus ==> r.error == FieldsRequiredMessage
    ensures r.Failure? && r.status == NotFoundStatus ==>
      body.Some? &&
      var path := IndexPath(Lower(Trim(body.value.project.GetOr(""))));
      !indexExists(path) || search(path, Trim(body.value.question.GetOr("")), ResultCount).SearchMissing?
    ensures r.Answer? ==> (
      && body.Some? && indexExists(IndexPath(r.project))
      && r.project == Lower(Trim(body.value.project.GetOr("")))
      && r.question == Trim(body.value.question.GetOr(""))
      && search(IndexPath(r.project), r.question, ResultCount).Found?
      && r.results == EntriesOf(search(IndexPath(r.project), r.question, ResultCount).docs))
  {
    match body
    case None => Failure(ServerErrorStatus, unparsable)
    case Some(b) =>
      var project := Trim(b.project.GetOr(""));
      var question := Trim(b.question.GetOr(""));
      TrimEmptyIff(b.project.GetOr(""));
      TrimEmptyIff(b.question.GetOr(""));
      if project == "" || question == "" then Failure(BadRequestStatus, FieldsRequiredMessage)
      else
        var slug := Lower(project);
        var path := IndexPath(slug);
        if !indexExists(path) then Failure(NotFoundStatus, NoIndexPrefix + slug)
        else AnswerFor(slug, question, search(path, question, ResultCount))
  }

  /** With both fields present and no directory for the project, the reply is the 404. */
  lemma RespondNotFound(b: QueryBody, unparsable: string,
                        indexExists: string -> bool, search: (string, string, nat) -> SearchOutcome)
    requires Trim(b.project.GetOr("")) != "" && Trim(b.question.GetOr("")) != ""
    requires !indexExists(IndexPath(Lower(Trim(b.project.GetOr("")))))
    ensures Respond(Some(b), unparsable, indexExists, search)
         == Failure(NotFoundStatus, NoIndexPrefix + Lower(Trim(b.project.GetOr(""))))
  {
  }

  /** With both fields present and the directory there, the reply is the search's. */
  lemma RespondFound(b: QueryBody, unparsable: string,
                     indexExists: string -> bool, search: (string, string, nat) -> SearchOutcome)
    requires Trim(b.project.GetOr("")) != "" && Trim(b.question.GetOr("")) != ""
    requires indexExists(IndexPath(Lower(Trim(b.project.GetOr("")))))
    ensures var slug := Lower(Trim(b.project.GetOr("")));
      Respond(Some(b), unparsable, indexExists, search)
        == AnswerFor(slug, Trim(b.question.GetOr("")), search(IndexPath(slug), Trim(b.question.GetOr("")), ResultCount))
  {
  }

  /** `query_project`: the checks in order, then one result entry per hit, in rank order. */
  method QueryProject(body: Option<QueryBody>, unparsable: string,
                      indexExists: string -> bool, search: (string, string, nat) -> SearchOutcome)
    returns (r: Reply)
    ensures r == Respond(body, unparsable, indexExists, search)
  {
    if body.None? {
      return Failure(ServerErrorStatus, unparsable);
    }
    var project := Trim(body.value.project.GetOr(""));
    var question := Trim(body.value.question.GetOr(""));
    if project == "" || question == "" {
      return Failure(BadRequestStatus, FieldsRequiredMessage);
    }
    project := Lower(project);
    var path := IndexPath(project);
    if !indexExists(path) {
      return Failure(NotFoundStatus, NoIndexPrefix + project);
    }
    var outcome := search(path, question, ResultCount);
    if outcome.SearchMissing? {
      return Failure(NotFoundStatus, outcome.message);
    }
    if outcome.SearchFailed? {
      return Failure(ServerErrorStatus, outcome.message);
    }
    var response := CollectEntries(outcome.docs);
    r := Answer(project, question, response);
  }

  /** The loop over the hits: one entry per document, in rank order. */
  method CollectEntries(docs: seq<Document>) returns (response: seq<ResultEntry>)
    ensures response == EntriesOf(docs)
  {
    response := [];
    var k := 0;
    while k < |docs|
      invariant 0 <= k <= |docs|
      invariant |response| == k
      invariant forall j :: 0 <= j < k ==> response[j] == EntryOf(docs[j])
    {
      response := response + [ResultEntry(SectionOf(docs[k].metadata), Trim(docs[k].pageContent))];
      k := k + 1;
    }
  }

  // ---------------------------------------------------------------------------
  // Properties of the replies

  lemma LowerIdempotent(s: string)
    ensures Lower(Lower(s)) == Lower(s)
  {
  }

  /**
   * An answer echoes a lower-case project and a stripped, non-blank question,
   * and every result's text is stripped.
   */
  lemma AnswerShape(body: Option<QueryBody>, unparsable: string,
                    indexExists: string -> bool, search: (string, string, nat) -> SearchOutcome)
    ensures var r := Respond(body, unparsable, indexExists, search);
      r.Answer? ==>
        && Lower(r.project) == r.project && r.project != ""
        && Trim(r.question) == r.question && !IsBlank(r.question)
        && forall k :: 0 <= k < |r.results| ==> Trim(r.results[k].content) == r.results[k].content
  {
    var r := Respond(body, unparsable, indexExists, search);
    if r.Answer? {
      var p := body.value.project.GetOr("");
      var q := body.value.question.GetOr("");
      TrimEmptyIff(p);
      TrimEmptyIff(q);
      LowerIdempotent(Trim(p));
      TrimIdempotent(q);
      TrimEmptyIff(r.question);
      forall k | 0 <= k < |r.results|
        ensures Trim(r.results[k].content) == r.results[k].content
      {
        TrimIdempotent(search(IndexPath(r.project), r.question, ResultCount).docs[k].pageContent);
      }
    }
  }

  /** The blank-field check comes first: such a request never looks at the index. */
  lemma BlankRequestNeverSearched(body: QueryBody, unparsable: string,
                                  indexExists1: string -> bool, search1: (string, string, nat) -> SearchOutcome,
                                  indexExists2: string -> bool, search2: (string, string, nat) -> SearchOutcome)
    requires IsBlank(body.project.GetOr("")) || IsBlank(body.question.GetOr(""))
    ensures Respond(Some(body), unparsable, indexExists1, search1) == Respond(Some(body), unparsable, indexExists2, search2)
    ensures Respond(Some(body), unparsable, indexExists1, search1) == Failure(BadRequestStatus, FieldsRequiredMessage)
  {
    TrimEmptyIff(body.project.GetOr(""));
    TrimEmptyIff(body.question.GetOr(""));
  }

  // ---------------------------------------------------------------------------
  // Against the indexer

  /** A slug has no whitespace and no upper-case letter, so it is looked up unchanged. */
  lemma SlugLookedUpAsIs(slug: string)
    requires IsSlug(slug)
    ensures Lower(Trim(slug)) == slug
  {
    TrimOfSpaceless(slug);
    LowerOfSlug(slug);
  }

  /**
   * Where a path the server looks up lands when it runs from the directory
   * `cwd`: an absolute path stays as it is, `./rest` and `rest` are taken
   * from `cwd`.
   */
  function Resolve(cwd: string, path: string): string
  {
    if path != [] && path[0] == '/' then path
    else if |path| >= 2 && path[..2] == "./" then cwd + path[1..]
    else cwd + "/" + path
  }

  /** The directory the indexer's `INDEXES_DIR` sits in: fixed, absolute, on the author's machine. */
  const IndexerRoot: string := "/" + "Users/siddanthreddy/Code/open-source/stt-tts-demo/rag"

  /** `os.path.join(INDEXES_DIR, slug)` in the indexer: where it saves an index; absolute whatever the slug. */
  function SavedIndexPath(slug: string): (path: string)
    ensures path != [] && path[0] == '/'
    ensures |slug| <= |path| && path[|path| - |slug|..] == slug
  {
    if slug != [] && slug[0] == '/' then slug else IndexerRoot + ("/indexes" + "/" + slug)
  }

  lemma CancelRight<T>(a: seq<T>, b: seq<T>, s: seq<T>)
    ensures a + s == b + s <==> a == b
  {
    if a + s == b + s {
      assert |a| == |b|;
      assert a == (a + s)[..|a|];
    }
  }

  /**
   * The server's `./indexes/<slug>` is the directory the indexer saved under
   * exactly when the server runs from `IndexerRoot` (or the slug is absolute,
   * which no `sanitize_filename` output is). Everywhere else the indexer's
   * output is invisible to `/query`.
   */
  lemma ServedIsSaved(cwd: string, slug: string)
    ensures Resolve(cwd, IndexPath(slug)) == SavedIndexPath(slug)
        <==> cwd == IndexerRoot || (slug != [] && slug[0] == '/')
  {
    if slug == [] || slug[0] != '/' {
      var tail := "/indexes" + "/" + slug;
      ServedPathOf(cwd, slug);
      CancelRight(cwd, IndexerRoot, tail);
    }
  }

  lemma ServedPathOf(cwd: string, slug: string)
    requires slug == [] || slug[0] != '/'
    ensures Resolve(cwd, IndexPath(slug)) == cwd + ("/indexes" + "/" + slug)
  {
    var tail := "/indexes" + "/" + slug;
    var path := IndexPath(slug);
    assert path == "." + tail;
    assert path[..2] == "./";
    assert path[1..] == tail;
  }

  /**
   * A question about a project, naming it by the slug the indexer saved its
   * index under, reaches that index: the reply is never a 400, a 404 comes
   * only from a file missing inside that index, and an answer names the slug.
   * The requires that `./indexes/<slug>` exists is where the indexer's output
   * must be visible to the server: by `ServedIsSaved` that holds for the
   * saved index only when the server runs from `IndexerRoot`.
   */
  lemma TrainedSlugFound(name: string, question: string, unparsable: string,
                         indexExists: string -> bool, search: (string, string, nat) -> SearchOutcome)
    requires SanitizeFilename(name) != "" && !IsBlank(question)
    requires indexExists(IndexPath(SanitizeFilename(name)))
    ensures var r := Respond(Some(QueryBody(Some(SanitizeFilename(name)), Some(question))), unparsable, indexExists, search);
      && (r.Failure? ==> r.status != BadRequestStatus)
      && (r.Failure? && r.status == NotFoundStatus ==>
            search(IndexPath(SanitizeFilename(name)), Trim(question), ResultCount).SearchMissing?)
      && (r.Answer? ==> r.project == SanitizeFilename(name))
  {
    var slug := SanitizeFilename(name);
    SlugLookedUpAsIs(slug);
    TrimEmptyIff(slug);
    TrimEmptyIff(question);
    RespondFound(QueryBody(Some(slug), Some(question)), unparsable, indexExists, search);
  }

  /** A space between two non-space characters survives stripping. */
  lemma InnerSpaceSurvivesTrim(name: string, a: nat, i: nat, b: nat) returns (k: nat)
    requires a < i < b < |name|
    requires !IsSpace(name[a]) && IsSpace(name[i]) && !IsSpace(name[b])
    ensures k < |Trim(name)| && IsSpace(Trim(name)[k])
  {
    var t := TrimStart(name);
    TrimStartDrops(name);
    var j := |name| - |t|;
    assert j <= a;
    var u := TrimEnd(t);
    TrimEndDrops(t);
    assert t[b - j] == name[b];
    assert |u| > b - j;
    k := i - j;
    assert u[k] == t[k] == name[i];
  }

  /** Lower-casing keeps whitespace, so a string with a space is no slug. */
  lemma SpacedIsNoSlug(s: string, k: nat, slug: string)
    requires k < |s| && IsSpace(s[k])
    requires IsSlug(slug)
    ensures Lower(s) != slug
  {
    assert Lower(s)[k] == s[k];
    assert !IsSlugChar(Lower(s)[k]);
  }

  /**
   * A project named with an inner space (between two non-space characters),
   * asked about by that name, is looked up where the indexer never saves:
   * with only `./indexes/<sanitize_filename(name)>` present, which is where
   * the saved index shows when the server runs from `IndexerRoot`
   * (`ServedIsSaved`), the reply is a 404.
   */
  lemma SpacedNameMissesIndex(name: string, a: nat, i: nat, b: nat, question: string, unparsable: string,
                              indexExists: string -> bool, search: (string, string, nat) -> SearchOutcome)
    requires a < i < b < |name|
    requires !IsSpace(name[a]) && IsSpace(name[i]) && !IsSpace(name[b])
    requires !IsBlank(question)
    requires forall p :: indexExists(p) <==> p == IndexPath(SanitizeFilename(name))
    ensures Respond(Some(QueryBody(Some(name), Some(question))), unparsable, indexExists, search)
         == Failure(NotFoundStatus, NoIndexPrefix + Lower(Trim(name)))
  {
    SpacedLookupMisses(name, a, i, b);
    TrimEmptyIff(question);
    RespondNotFound(QueryBody(Some(name), Some(question)), unparsable, indexExists, search);
  }

  /** The directory looked up for a spaced name is not the one the indexer saved under. */
  lemma SpacedLookupMisses(name: string, a: nat, i: nat, b: nat)
    requires a < i < b < |name|
    requires !IsSpace(name[a]) && IsSpace(name[i]) && !IsSpace(name[b])
    ensures Trim(name) != ""
    ensures IndexPath(Lower(Trim(name))) != IndexPath(SanitizeFilename(name))
  {
    var k := InnerSpaceSurvivesTrim(name, a, i, b);
    var slug, trained := Lower(Trim(name)), SanitizeFilename(name);
    SpacedIsNoSlug(Trim(name), k, trained);
    if IndexPath(slug) == IndexPath(trained) {
      IndexPathInjective(slug, trained);
    }
  }

  /**
   * The indexer's documents carry no `section` key, so every hit from an
   * index it built is reported with the section "unknown".
   */
  lemma TrainedDocumentsHaveNoSection(entries: seq<Entry>, title: Json)
    ensures forall d :: d in DocsOfEntries(entries, title) ==> EntryOf(d).section == UnknownSection
  {
    DocumentMetadata(entries, title);
    forall d | d in DocsOfEntries(entries, title)
      ensures EntryOf(d).section == UnknownSection
    {
      assert "section" !in {"source", "project"};
    }
  }
}
