/**
 * The role index of app/components/jd_index.py: `JDIndex` turns the rows of the
 * job-description table into records and text blobs, keeps them as `meta` beside
 * an embedding index, trains a role matcher on them, and answers nearest-role
 * queries and role predictions. The sentence embedder, the FAISS search and the
 * classifier's probabilities are parameters; files written and read are values.
 */
module JdIndex {
  import opened Wrappers
  import opened Text
  import opened Utils

  // ---------------------------------------------------------------------------
  // Entities
  // ---------------------------------------------------------------------------

  /** The default value of `JDIndex`'s `embed_model` argument. */
  const DefaultEmbedModel := "sentence-transformers/all-MiniLM-L6-v2"

  /** One row of the table after `fillna("")`: a missing or empty cell reads as "". */
  datatype Row = Row(
    jobPosition: string,
    relevantSkills: string,
    requiredQualifications: string,
    jobResponsibilities: string,
    idealCandidateSummary: string)

  /** One record of `meta`. */
  datatype Record = Record(
    jobPosition: string,
    jobPositionNorm: string,
    skills: seq<string>,
    skillsNorm: seq<string>,
    text: string)

  /** A `query` result: a copy of the record with its `"score"` key added. */
  datatype Hit = Hit(record: Record, score: real)

  /** One entry of the saved role prompts. */
  datatype RolePrompt = RolePrompt(system: string, instruction: string)

  /** The flat inner-product index: one embedding per record, in `meta` order. */
  datatype EmbeddingIndex = EmbeddingIndex(vectors: seq<seq<real>>)

  /** The TF-IDF vectoriser: its settings and the texts it was fitted on. */
  datatype Vectorizer = Vectorizer(ngramMin: nat, ngramMax: nat, maxFeatures: nat, minDf: nat, corpus: seq<string>)

  /** The logistic-regression role matcher: its iteration cap, the texts and labels
      it was fitted on, and its classes (the distinct labels, sorted). */
  datatype Classifier = Classifier(maxIter: nat, samples: seq<string>, labels: seq<string>, classes: seq<string>)

  /** What `build_from_csv` writes: the index, the meta list, the two pickled models,
      the sorted skill vocabulary and the role prompts. */
  datatype Artifacts = Artifacts(
    index: EmbeddingIndex,
    meta: seq<Record>,
    vectorizer: Vectorizer,
    classifier: Classifier,
    skillsVocab: seq<string>,
    rolePrompts: map<string, RolePrompt>)

  const IndexNotLoaded := "FAISS index not loaded"
  const ClassifierNotLoaded := "Role classifier not loaded"

  // ---------------------------------------------------------------------------
  // Records and blobs
  // ---------------------------------------------------------------------------

  /** The five lines of a record's text, in order. */
  function BlobLines(job: string, skills: seq<string>, quals: string, resp: string, ideal: string): seq<string> {
    [ "Job Position: " + job,
      "Skills: " + Join(skills, ", "),
      "Qualifications: " + quals,
      "Responsibilities: " + resp,
      "Summary: " + ideal ]
  }

  /** The f-string blob: the five lines joined by newlines. */
  function Blob(job: string, skills: seq<string>, quals: string, resp: string, ideal: string): string {
    Join(BlobLines(job, skills, quals, resp, ideal), "\n")
  }

  /** `[f(x) for x in xs]`, built front to back as the loops that make these lists do. */
  function Map<A, B>(f: A -> B, xs: seq<A>): (ys: seq<B>)
    ensures |ys| == |xs|
  {
    if xs == [] then [] else Map(f, xs[..|xs| - 1]) + [f(xs[|xs| - 1])]
  }

  lemma MapStep<A, B>(f: A -> B, xs: seq<A>, i: nat, ys: seq<B>, y: B)
    requires i < |xs| && ys == Map(f, xs[..i]) && y == f(xs[i])
    ensures ys + [y] == Map(f, xs[..i + 1])
  {
    assert xs[..i + 1][..i] == xs[..i];
  }

  lemma {:induction false} MapAt<A, B>(f: A -> B, xs: seq<A>)
    ensures forall i :: 0 <= i < |xs| ==> Map(f, xs)[i] == f(xs[i])
    decreases |xs|
  {
    if xs != [] {
      var init := xs[..|xs| - 1];
      MapAt(f, init);
      assert forall i :: 0 <= i < |init| ==> init[i] == xs[i];
    }
  }

  /** `[normalize_token(s) for s in skills]`. */
  function NormsOf(skills: seq<string>): (norms: seq<string>) {
    Map(Normalized, skills)
  }

  /** The record one row becomes. */
  function RecordOf(row: Row): Record {
    var job := CleanText(row.jobPosition);
    var skills := SplitCsvList(row.relevantSkills);
    var blob := Blob(job, skills, CleanText(row.requiredQualifications),
                     CleanText(row.jobResponsibilities), CleanText(row.idealCandidateSummary));
    Record(job, Normalized(job), skills, NormsOf(skills), blob)
  }

  /** One record per row, in row order. */
  function RecordsOf(rows: seq<Row>): (recs: seq<Record>) {
    Map(RecordOf, rows)
  }

  /** What a record holds: a cleaned position with its normal form, skills that are
      non-empty, stripped and comma-free and that the blob's `", "` join gives back,
      and one normal form per skill, each its own normal form. */
  lemma RecordShape(row: Row)
    ensures IsClean(RecordOf(row).jobPosition)
    ensures RecordOf(row).jobPositionNorm == Normalized(RecordOf(row).jobPosition)
    ensures forall i :: 0 <= i < |RecordOf(row).skills| ==> CsvItem(RecordOf(row).skills[i])
    ensures SplitCsvList(Join(RecordOf(row).skills, ", ")) == RecordOf(row).skills
    ensures |RecordOf(row).skillsNorm| == |RecordOf(row).skills|
    ensures forall i :: 0 <= i < |RecordOf(row).skills| ==>
      var n := RecordOf(row).skillsNorm[i];
      n == Normalized(RecordOf(row).skills[i]) && AllLowerAlnum(n) && Normalized(n) == n
  {
    var skills := SplitCsvList(row.relevantSkills);
    assert RecordOf(row).skills == skills && RecordOf(row).skillsNorm == NormsOf(skills);
    SplitCsvListJoin(skills);
    NormsShape(skills);
  }

  lemma NormsShape(skills: seq<string>)
    ensures forall i :: 0 <= i < |skills| ==>
      var n := NormsOf(skills)[i];
      n == Normalized(skills[i]) && AllLowerAlnum(n) && Normalized(n) == n
  {
    MapAt(Normalized, skills);
    forall i | 0 <= i < |skills| ensures Normalized(NormsOf(skills)[i]) == NormsOf(skills)[i] {
      NormalizedIdempotent(skills[i]);
    }
  }

  /** A blob is its five lines in order: when no cleaned field holds a newline,
      splitting the blob on newlines gives the lines back. */
  lemma BlobSplitsIntoLines(job: string, skills: seq<string>, quals: string, resp: string, ideal: string)
    requires '\n' !in job && '\n' !in Join(skills, ", ") && '\n' !in quals && '\n' !in resp && '\n' !in ideal
    ensures Split(Blob(job, skills, quals, resp, ideal), {'\n'}) == BlobLines(job, skills, quals, resp, ideal)
  {
    var lines := BlobLines(job, skills, quals, resp, ideal);
    forall i | 0 <= i < |lines| ensures '\n' !in lines[i] {
      NewlineFreeConcat(if i == 0 then "Job Position: " else if i == 1 then "Skills: "
        else if i == 2 then "Qualifications: " else if i == 3 then "Responsibilities: " else "Summary: ",
        if i == 0 then job else if i == 1 then Join(skills, ", ") else if i == 2 then quals
        else if i == 3 then resp else ideal);
    }
    SplitJoin(lines, '\n');
  }

  lemma NewlineFreeConcat(tag: string, field: string)
    requires '\n' !in tag && '\n' !in field
    ensures '\n' !in tag + field
  {
  }

  // ---------------------------------------------------------------------------
  // Vocabulary, roles and prompts
  // ---------------------------------------------------------------------------

  function Elems<T>(xs: seq<T>): set<T> { set x | x in xs }

  /** `skills_vocab` after the records so far: every normalised skill. */
  function Vocab(recs: seq<Record>): set<string> {
    if recs == [] then {} else Vocab(recs[..|recs| - 1]) + Elems(recs[|recs| - 1].skillsNorm)
  }

  lemma VocabSnoc(recs: seq<Record>, rec: Record)
    ensures Vocab(recs + [rec]) == Vocab(recs) + Elems(rec.skillsNorm)
  {
    assert (recs + [rec])[..|recs|] == recs;
  }

  lemma {:induction false} VocabMembers(recs: seq<Record>, s: string)
    ensures s in Vocab(recs) <==> exists i :: 0 <= i < |recs| && s in recs[i].skillsNorm
    decreases |recs|
  {
    if recs != [] {
      var init := recs[..|recs| - 1];
      VocabMembers(init, s);
      if s in Vocab(init) {
        var i :| 0 <= i < |init| && s in init[i].skillsNorm;
        assert recs[i] == init[i];
      }
      if exists i :: 0 <= i < |recs| && s in recs[i].skillsNorm {
        var i :| 0 <= i < |recs| && s in recs[i].skillsNorm;
        if i < |init| {
          assert init[i] == recs[i];
        }
      }
    }
  }

  /** The distinct job positions of the records. */
  function Roles(recs: seq<Record>): set<string> {
    set i | 0 <= i < |recs| :: recs[i].jobPosition
  }

  const PromptSystem := "You are an expert resume reviewer for this role."

  /** The prompt entry written for a position. */
  function PromptFor(jp: string): RolePrompt {
    RolePrompt(PromptSystem, "Focus on " + jp + ". Tailor feedback using concrete bullet rewrites and missing skills.")
  }

  /** The `prompts` dict after the records so far: each record writes its position's entry. */
  function PromptsOf(recs: seq<Record>): map<string, RolePrompt> {
    if recs == [] then map[]
    else
      var jp := recs[|recs| - 1].jobPosition;
      PromptsOf(recs[..|recs| - 1])[jp := PromptFor(jp)]
  }

  /** One entry per distinct position, and whichever row wrote it last, the entry is
      that position's prompt. */
  lemma {:induction false} PromptsOfRoles(recs: seq<Record>)
    ensures PromptsOf(recs).Keys == Roles(recs)
    ensures forall jp :: jp in PromptsOf(recs) ==> PromptsOf(recs)[jp] == PromptFor(jp)
    decreases |recs|
  {
    if recs != [] {
      var init := recs[..|recs| - 1];
      PromptsOfRoles(init);
      forall jp | jp in Roles(recs) ensures jp in Roles(init) + {recs[|recs| - 1].jobPosition} {
        var i :| 0 <= i < |recs| && recs[i].jobPosition == jp;
        if i < |init| {
          assert init[i] == recs[i];
        }
      }
      forall jp | jp in Roles(init) ensures jp in Roles(recs) {
        var i :| 0 <= i < |init| && init[i].jobPosition == jp;
        assert recs[i] == init[i];
      }
      assert recs[|recs| - 1].jobPosition in Roles(recs);
    }
  }

  // ---------------------------------------------------------------------------
  // sorted(): Python's string order and the sorted list of a set
  // ---------------------------------------------------------------------------

  /** Python's `a < b` on strings: code-point order, a proper prefix first. */
  predicate Below(a: string, b: string)
    decreases |a|
  {
    if |a| == 0 then |b| > 0
    else |b| > 0 && (if a[0] != b[0] then a[0] < b[0] else Below(a[1..], b[1..]))
  }

  lemma {:induction false} BelowIrreflexive(a: string)
    ensures !Below(a, a)
    decreases |a|
  {
    if |a| > 0 {
      BelowIrreflexive(a[1..]);
    }
  }

  lemma {:induction false} BelowTransitive(a: string, b: string, c: string)
    requires Below(a, b) && Below(b, c)
    ensures Below(a, c)
    decreases |a|
  {
    if |a| > 0 && a[0] == b[0] && b[0] == c[0] {
      BelowTransitive(a[1..], b[1..], c[1..]);
    }
  }

  lemma {:induction false} BelowTotal(a: string, b: string)
    ensures a == b || Below(a, b) || Below(b, a)
    decreases |a|
  {
    if |a| > 0 && |b| > 0 && a[0] == b[0] {
      BelowTotal(a[1..], b[1..]);
      assert a == [a[0]] + a[1..];
      assert b == [b[0]] + b[1..];
    }
  }

  /** `m` is the smallest member of `s`. */
  predicate IsLeast(m: string, s: set<string>) {
    m in s && forall z :: z in s && z != m ==> Below(m, z)
  }

  lemma {:induction false} LeastExists(s: set<string>)
    requires s != {}
    ensures exists m :: IsLeast(m, s)
    decreases |s|
  {
    var x :| x in s;
    if s == {x} {
      assert IsLeast(x, s);
    } else {
      LeastExists(s - {x});
      var y :| IsLeast(y, s - {x});
      BelowTotal(x, y);
      if Below(x, y) {
        forall z | z in s && z != x ensures Below(x, z) {
          if z != y {
            BelowTransitive(x, y, z);
          }
        }
        assert IsLeast(x, s);
      } else {
        assert IsLeast(y, s);
      }
    }
  }

  lemma LeastUnique(s: set<string>)
    ensures forall m, n :: IsLeast(m, s) && IsLeast(n, s) ==> m == n
  {
    forall m, n | IsLeast(m, s) && IsLeast(n, s) ensures m == n {
      if m != n {
        BelowTransitive(m, n, m);
        BelowIrreflexive(m);
      }
    }
  }

  function Least(s: set<string>): (m: string)
    requires s != {}
    ensures IsLeast(m, s)
  {
    LeastExists(s);
    LeastUnique(s);
    var m :| IsLeast(m, s);
    m
  }

  /** Strictly ascending in Python's order, hence free of duplicates. */
  predicate Ascending(r: seq<string>) {
    forall i, j :: 0 <= i < j < |r| ==> Below(r[i], r[j])
  }

  /** `sorted(s)` for a set of strings: the least member first. */
  function SortedSet(s: set<string>): seq<string>
    decreases |s|
  {
    if s == {} then [] else var m := Least(s); [m] + SortedSet(s - {m})
  }

  /** `sorted(s)` lists the members of `s` once each, in ascending order. */
  lemma {:induction false} SortedSetSpec(s: set<string>)
    ensures Ascending(SortedSet(s))
    ensures forall z :: z in SortedSet(s) <==> z in s
    ensures |SortedSet(s)| == |s|
    decreases |s|
  {
    if s != {} {
      var m := Least(s);
      var rest := SortedSet(s - {m});
      SortedSetSpec(s - {m});
      assert SortedSet(s) == [m] + rest;
      assert forall j :: 0 <= j < |rest| ==> rest[j] in s - {m};
    }
  }

  /** An ascending list is fixed by its members: whatever order the set is built in,
      its sorted list is the same. */
  lemma {:induction false} AscendingCanonical(a: seq<string>, b: seq<string>)
    requires Ascending(a) && Ascending(b)
    requires forall z :: z in a <==> z in b
    ensures a == b
    decreases |a|
  {
    if |a| > 0 {
      assert a[0] in b;
    }
    if |b| > 0 {
      assert b[0] in a;
    }
    if |a| > 0 && |b| > 0 {
      if a[0] != b[0] {
        var i :| 0 <= i < |b| && b[i] == a[0];
        var j :| 0 <= j < |a| && a[j] == b[0];
        assert Below(b[0], a[0]);
        assert Below(a[0], b[0]);
        BelowTransitive(a[0], b[0], a[0]);
        BelowIrreflexive(a[0]);
      }
      forall z ensures z in a[1..] <==> z in b[1..] {
        AscendingTail(a, z);
        AscendingTail(b, z);
      }
      AscendingCanonical(a[1..], b[1..]);
      assert a == [a[0]] + a[1..];
      assert b == [b[0]] + b[1..];
    }
  }

  lemma AscendingTail(a: seq<string>, z: string)
    requires Ascending(a) && |a| > 0
    ensures z in a[1..] <==> z in a && z != a[0]
  {
    if z in a[1..] {
      var j :| 0 <= j < |a[1..]| && a[1..][j] == z;
      assert Below(a[0], a[j + 1]);
      BelowIrreflexive(a[0]);
    }
    if z in a && z != a[0] {
      var j :| 0 <= j < |a| && a[j] == z;
      assert a[1..][j - 1] == z;
    }
  }

  // ---------------------------------------------------------------------------
  // Query results and the arg-max
  // ---------------------------------------------------------------------------

  /** Search results name a record of `meta` or are the padding id -1. */
  predicate ValidHits(hits: seq<(real, int)>, n: nat) {
    forall i :: 0 <= i < |hits| ==> hits[i].1 == -1 || 0 <= hits[i].1 < n
  }

  /** `query`'s results for the search rows `zip(sims[0], ids[0])` seen so far. */
  function Hits(meta: seq<Record>, hits: seq<(real, int)>): (r: seq<Hit>)
    requires ValidHits(hits, |meta|)
    ensures |r| <= |hits|
  {
    if hits == [] then []
    else
      var (score, idx) := hits[|hits| - 1];
      Hits(meta, hits[..|hits| - 1]) + (if idx == -1 then [] else [Hit(meta[idx], score)])
  }

  /** The positions of the search rows that are not padding, in order. */
  function Live(hits: seq<(real, int)>): (pos: seq<nat>)
    ensures forall i :: 0 <= i < |pos| ==> pos[i] < |hits| && hits[pos[i]].1 != -1
    ensures forall i, j :: 0 <= i < j < |pos| ==> pos[i] < pos[j]
    ensures forall p :: 0 <= p < |hits| && hits[p].1 != -1 ==> p in pos
  {
    if hits == [] then []
    else Live(hits[..|hits| - 1]) + (if hits[|hits| - 1].1 == -1 then [] else [|hits| - 1])
  }

  /** The results are the non-padding rows in search order, each the record it names
      with that row's score. */
  lemma {:induction false} HitsFollowLive(meta: seq<Record>, hits: seq<(real, int)>)
    requires ValidHits(hits, |meta|)
    ensures |Hits(meta, hits)| == |Live(hits)|
    ensures forall i :: 0 <= i < |Live(hits)| ==>
      var p := Live(hits)[i];
      Hits(meta, hits)[i] == Hit(meta[hits[p].1], hits[p].0)
    decreases |hits|
  {
    if hits != [] {
      var init := hits[..|hits| - 1];
      HitsFollowLive(meta, init);
      forall i | 0 <= i < |Live(init)| ensures hits[Live(init)[i]] == init[Live(init)[i]] {
      }
    }
  }

  /** Without padding every row is a result. */
  lemma {:induction false} HitsAllLive(meta: seq<Record>, hits: seq<(real, int)>)
    requires ValidHits(hits, |meta|)
    requires forall i :: 0 <= i < |hits| ==> hits[i].1 != -1
    ensures |Hits(meta, hits)| == |hits|
    decreases |hits|
  {
    if hits != [] {
      HitsAllLive(meta, hits[..|hits| - 1]);
    }
  }

  /** `np.argmax`: the first index of a largest value. */
  function ArgMax(xs: seq<real>): (i: nat)
    requires |xs| > 0
    ensures i < |xs|
    ensures forall j :: 0 <= j < |xs| ==> xs[j] <= xs[i]
    ensures forall j :: 0 <= j < i ==> xs[j] < xs[i]
    decreases |xs|
  {
    if |xs| == 1 then 0
    else
      var j := ArgMax(xs[..|xs| - 1]);
      if xs[|xs| - 1] > xs[j] then |xs| - 1 else j
  }

  /** Only one index is both largest and before every other largest one. */
  lemma ArgMaxUnique(xs: seq<real>, k: nat)
    requires k < |xs|
    requires forall j :: 0 <= j < |xs| ==> xs[j] <= xs[k]
    requires forall j :: 0 <= j < k ==> xs[j] < xs[k]
    ensures ArgMax(xs) == k
  {
  }

  // ---------------------------------------------------------------------------
  // The index object
  // ---------------------------------------------------------------------------

  class JDIndex {
    const embedModelName: string
    /** The sentence embedder `embed_model_name` names, as a function. */
    const encode: string -> seq<real>
    var index: Option<EmbeddingIndex>
    var meta: seq<Record>
    var vectorizer: Option<Vectorizer>
    var roleMatchClf: Option<Classifier>

    constructor(embedModel: string, encoder: string -> seq<real>)
      ensures embedModelName == embedModel && encode == encoder
      ensures index == None && meta == [] && vectorizer == None && roleMatchClf == None
    {
      embedModelName := embedModel;
      encode := encoder;
      index := None;
      meta := [];
      vectorizer := None;
      roleMatchClf := None;
    }

    /** `JDIndex()` called without a model name: the default embedder is named. */
    constructor WithDefaultModel(encoder: string -> seq<real>)
      ensures embedModelName == DefaultEmbedModel && encode == encoder
      ensures index == None && meta == [] && vectorizer == None && roleMatchClf == None
    {
      embedModelName := DefaultEmbedModel;
      encode := encoder;
      index := None;
      meta := [];
      vectorizer := None;
      roleMatchClf := None;
    }

    /** `build_from_csv`: records in row order, then the index, the role matcher and
        the artifacts written, all from those records. */
    method BuildFromCsv(rows: seq<Row>) returns (saved: Artifacts)
      modifies this
      ensures meta == RecordsOf(rows)
      ensures index == Some(EmbeddingIndex(Embed(encode, Texts(meta))))
      ensures vectorizer == Some(Vectorizer(1, 2, 30000, 1, Texts(meta)))
      ensures roleMatchClf == Some(Classifier(300, Texts(meta), Labels(meta), SortedSet(Roles(meta))))
      ensures saved == Artifacts(index.value, meta, vectorizer.value, roleMatchClf.value,
                                 SortedSet(Vocab(meta)), PromptsOf(meta))
    {
      var records, skillsVocab := BuildRecords(rows);
      saved := Install(records, skillsVocab);
    }

    /** Everything `build_from_csv` does after the row loop. */
    method Install(records: seq<Record>, skillsVocab: set<string>) returns (saved: Artifacts)
      requires skillsVocab == Vocab(records)
      modifies this
      ensures meta == records
      ensures index == Some(EmbeddingIndex(Embed(encode, Texts(meta))))
      ensures vectorizer == Some(Vectorizer(1, 2, 30000, 1, Texts(meta)))
      ensures roleMatchClf == Some(Classifier(300, Texts(meta), Labels(meta), SortedSet(Roles(meta))))
      ensures saved == Artifacts(index.value, meta, vectorizer.value, roleMatchClf.value,
                                 SortedSet(Vocab(meta)), PromptsOf(meta))
    {
      var texts := Texts(records);
      var embs := Embed(encode, texts);
      var fitted := Vectorizer(1, 2, 30000, 1, texts);
      var clf := Classifier(300, texts, Labels(records), SortedSet(Roles(records)));
      var prompts := BuildPrompts(records);
      index := Some(EmbeddingIndex(embs));
      meta := records;
      vectorizer := Some(fitted);
      roleMatchClf := Some(clf);
      saved := Artifacts(EmbeddingIndex(embs), records, fitted, clf, SortedSet(skillsVocab), prompts);
    }

    /** `load`: the stored index and models; a meta file that cannot be read gives []. */
    method Load(storedIndex: EmbeddingIndex, storedMeta: Option<seq<Record>>,
                storedVectorizer: Vectorizer, storedClassifier: Classifier)
      modifies this
      ensures index == Some(storedIndex)
      ensures meta == storedMeta.GetOr([])
      ensures vectorizer == Some(storedVectorizer) && roleMatchClf == Some(storedClassifier)
    {
      index := Some(storedIndex);
      meta := storedMeta.GetOr([]);
      vectorizer := Some(storedVectorizer);
      roleMatchClf := Some(storedClassifier);
    }

    /** `query(text, k)`: an error before an index is there; otherwise the search rows
        that are not padding, in search order, each a copy of its record with the score.
        `search(index, q, k)` stands for FAISS's top-k search, which yields k rows. */
    method Query(text: string, k: nat, search: (EmbeddingIndex, seq<real>, nat) -> seq<(real, int)>)
      returns (r: Result<seq<Hit>, string>)
      requires index.Some? ==> |search(index.value, encode(text), k)| == k
      requires index.Some? ==> ValidHits(search(index.value, encode(text), k), |meta|)
      ensures index.None? <==> r == Failure(IndexNotLoaded)
      ensures index.Some? ==> r == Success(Hits(meta, search(index.value, encode(text), k)))
      ensures r.Success? ==> |r.value| <= k
    {
      if index.None? {
        return Failure(IndexNotLoaded);
      }
      var hits := search(index.value, encode(text), k);
      var results: seq<Hit> := [];
      for i := 0 to |hits|
        invariant results == Hits(meta, hits[..i])
      {
        assert hits[..i + 1][..i] == hits[..i];
        var (score, idx) := hits[i];
        if idx == -1 {
          continue;
        }
        results := results + [Hit(meta[idx], score)];
      }
      assert hits[..|hits|] == hits;
      return Success(results);
    }

    /** `match_role(text)`: an error before both models are there; otherwise the class
        with the first largest probability, and that probability.
        `predictProba(v, c, text)` stands for `c.predict_proba(v.transform([text]))[0]`,
        one probability per class. */
    method MatchRole(text: string, predictProba: (Vectorizer, Classifier, string) -> seq<real>)
      returns (r: Result<(string, real), string>)
      requires vectorizer.Some? && roleMatchClf.Some? ==>
        |predictProba(vectorizer.value, roleMatchClf.value, text)| == |roleMatchClf.value.classes| > 0
      ensures (vectorizer.None? || roleMatchClf.None?) <==> r == Failure(ClassifierNotLoaded)
      ensures vectorizer.Some? && roleMatchClf.Some? ==>
        var proba := predictProba(vectorizer.value, roleMatchClf.value, text);
        var i := ArgMax(proba);
        r == Success((roleMatchClf.value.classes[i], proba[i]))
    {
      if vectorizer.None? || roleMatchClf.None? {
        return Failure(ClassifierNotLoaded);
      }
      var proba := predictProba(vectorizer.value, roleMatchClf.value, text);
      var classes := roleMatchClf.value.classes;
      var idx := ArgMax(proba);
      return Success((classes[idx], proba[idx]));
    }
  }

  /** `[rec["text"] for rec in records]`. */
  function Texts(recs: seq<Record>): (ts: seq<string>)
    ensures |ts| == |recs| && forall i :: 0 <= i < |recs| ==> ts[i] == recs[i].text
  {
    seq(|recs|, i requires 0 <= i < |recs| => recs[i].text)
  }

  /** `[rec["job_position"] for rec in records]`, the classifier's labels. */
  function Labels(recs: seq<Record>): (ys: seq<string>)
    ensures |ys| == |recs| && forall i :: 0 <= i < |recs| ==> ys[i] == recs[i].jobPosition
  {
    seq(|recs|, i requires 0 <= i < |recs| => recs[i].jobPosition)
  }

  /** `_embed(texts)`: one embedding per text. */
  function Embed(encode: string -> seq<real>, texts: seq<string>): (embs: seq<seq<real>>)
    ensures |embs| == |texts| && forall i :: 0 <= i < |texts| ==> embs[i] == encode(texts[i])
  {
    seq(|texts|, i requires 0 <= i < |texts| => encode(texts[i]))
  }

  /** The row loop of `build_from_csv`: one record per row, and the vocabulary of
      every normalised skill. */
  method BuildRecords(rows: seq<Row>) returns (records: seq<Record>, skillsVocab: set<string>)
    ensures records == RecordsOf(rows)
    ensures skillsVocab == Vocab(records)
  {
    records := [];
    skillsVocab := {};
    for i := 0 to |rows|
      invariant records == RecordsOf(rows[..i])
      invariant skillsVocab == Vocab(records)
    {
      var rec;
      rec, skillsVocab := BuildRecord(rows[i], skillsVocab);
      MapStep(RecordOf, rows, i, records, rec);
      VocabSnoc(records, rec);
      records := records + [rec];
    }
    assert rows[..|rows|] == rows;
  }

  /** One pass of the row loop: the row's record, and the vocabulary with the row's
      normalised skills added. */
  method BuildRecord(row: Row, vocabIn: set<string>) returns (rec: Record, vocabOut: set<string>)
    ensures rec == RecordOf(row)
    ensures vocabOut == vocabIn + Elems(rec.skillsNorm)
  {
    var job := CleanText(row.jobPosition);
    var jobNorm := NormalizeToken(job);
    var skills;
    skills, vocabOut := CollectSkills(SplitCsvList(row.relevantSkills), vocabIn);
    var quals := CleanText(row.requiredQualifications);
    var resp := CleanText(row.jobResponsibilities);
    var ideal := CleanText(row.idealCandidateSummary);
    rec := Record(job, jobNorm, skills, NormsOf(skills), Blob(job, skills, quals, resp, ideal));
  }

  /** The inner skill loop: every skill kept, in order, its normal form added to the vocabulary. */
  method CollectSkills(skillsRaw: seq<string>, vocabIn: set<string>) returns (skills: seq<string>, vocabOut: set<string>)
    ensures skills == skillsRaw
    ensures vocabOut == vocabIn + Elems(NormsOf(skills))
  {
    skills := [];
    vocabOut := vocabIn;
    for i := 0 to |skillsRaw|
      invariant skills == skillsRaw[..i]
      invariant vocabOut == AddEach(Normalized, vocabIn, skills)
    {
      AddEachSnoc(Normalized, vocabIn, skills, skillsRaw[i]);
      skills, vocabOut := AddSkill(skills, vocabOut, skillsRaw[i]);
    }
    AddEachIsUnion(Normalized, vocabIn, skills);
  }

  /** One pass of the skills loop: `skills.append(s)`, `skills_vocab.add(normalize_token(s))`. */
  method AddSkill(skillsIn: seq<string>, vocabIn: set<string>, s: string) returns (skills: seq<string>, vocab: set<string>)
    ensures skills == skillsIn + [s]
    ensures vocab == vocabIn + {Normalized(s)}
  {
    skills := skillsIn + [s];
    var norm := NormalizeToken(s);
    vocab := vocabIn + {norm};
  }

  /** The prompt loop of `build_from_csv`. */
  method BuildPrompts(records: seq<Record>) returns (prompts: map<string, RolePrompt>)
    ensures prompts == PromptsOf(records)
  {
    prompts := map[];
    for i := 0 to |records|
      invariant prompts == PromptsOf(records[..i])
    {
      var jp := records[i].jobPosition;
      prompts := prompts[jp := PromptFor(jp)];
      assert records[..i + 1][..i] == records[..i];
    }
    assert records[..|records|] == records;
  }

  /** The set `s` after `s.add(f(x))` for each `x` of `xs` in turn. */
  function AddEach<A, B>(f: A -> B, s: set<B>, xs: seq<A>): set<B> {
    if xs == [] then s else AddEach(f, s, xs[..|xs| - 1]) + {f(xs[|xs| - 1])}
  }

  lemma AddEachSnoc<A, B>(f: A -> B, s: set<B>, xs: seq<A>, x: A)
    ensures AddEach(f, s, xs + [x]) == AddEach(f, s, xs) + {f(x)}
  {
    assert (xs + [x])[..|xs|] == xs;
  }

  lemma {:induction false} AddEachIsUnion<A, B>(f: A -> B, s: set<B>, xs: seq<A>)
    ensures AddEach(f, s, xs) == s + Elems(Map(f, xs))
    decreases |xs|
  {
    if xs != [] {
      var init := xs[..|xs| - 1];
      AddEachIsUnion(f, s, init);
      assert Map(f, xs) == Map(f, init) + [f(xs[|xs| - 1])];
    }
  }
}
