/**
 * The FAISS population script: every loaded document gets a `lekcija`
 * (lesson: its file name without the extension) and a `predmet` (subject:
 * the first folder of its path below the data directory, or "opšte"), and
 * `main` decides between updating an existing index with the documents it
 * does not know yet and building a new one from everything on disk.
 *
 * Loading the files, the index itself, the text splitter and the embedding
 * model stay outside: the loaded documents, the metadata of the documents
 * already in the index and whether the index exists are inputs.
 */
module PopulateDatabase {
  import opened Wrappers
  import opened PyStrings
  import opened PyJson
  import opened PosixPath

  const DEFAULT_DATA_PATH := "../data/"
  const SOURCE_KEY := "source"
  const LESSON_KEY := "lekcija"
  const SUBJECT_KEY := "predmet"
  const GENERAL_SUBJECT := "op\U{0161}te"

  /** A loaded document; `process_documents` updates its metadata dict in place. */
  class Document {
    var content: string
    var metadata: Fields

    constructor (content: string, metadata: Fields)
      ensures this.content == content && this.metadata == metadata
    {
      this.content := content;
      this.metadata := metadata;
    }
  }

  // ---------------------------------------------------------------
  // Lesson and subject
  // ---------------------------------------------------------------

  /** `os.path.splitext(os.path.basename(source))[0]`. */
  function Lesson(source: string): string {
    Splitext(Basename(source)).0
  }

  /**
   * The subject of a source path: the first part of its path relative to
   * the data directory when that path has more than one part, else "opšte".
   * None for the ValueError `relpath` raises on an empty path.
   */
  function Subject(source: string, dataPath: string, cwd: string): Option<string>
    requires IsAbsolute(cwd)
  {
    match Relpath(source, dataPath, cwd)
    case None => None
    case Some(rel) =>
      var parts := Split(rel, "/");
      Some(if |parts| > 1 then parts[0] else GENERAL_SUBJECT)
  }

  /** A file's lesson is its name without the last extension. */
  lemma LessonOfFile(dir: string, stem: string, ext: string)
    requires '/' !in stem && '/' !in ext && '.' !in ext && !AllDots(stem)
    ensures Lesson(PathJoin(dir, stem + "." + ext)) == stem
  {
    JoinBasename(dir, stem + "." + ext);
    SplitextName(stem, ext);
  }

  /** A file in a folder below the data directory belongs to that folder's subject. */
  lemma SubjectOfFolder(source: string, dataPath: string, cwd: string, folder: string, rest: seq<string>)
    requires IsAbsolute(cwd) && source != []
    requires AbsParts(source, cwd) == AbsParts(dataPath, cwd) + [folder] + rest && rest != []
    ensures Subject(source, dataPath, cwd) == Some(folder)
  {
    RelpathBelow(source, dataPath, cwd, [folder] + rest);
    RelpathSplit(source, dataPath, cwd);
  }

  /** A file directly in the data directory, or the directory itself, has the general subject. */
  lemma SubjectAtTop(source: string, dataPath: string, cwd: string, rest: seq<string>)
    requires IsAbsolute(cwd) && source != []
    requires AbsParts(source, cwd) == AbsParts(dataPath, cwd) + rest && |rest| <= 1
    ensures Subject(source, dataPath, cwd) == Some(GENERAL_SUBJECT)
  {
    RelpathBelow(source, dataPath, cwd, rest);
    RelpathSplit(source, dataPath, cwd);
  }

  /** A file outside the data directory, deeper than one level up, gets the subject "..". */
  lemma SubjectOutside(source: string, dataPath: string, cwd: string)
    requires IsAbsolute(cwd) && source != []
    requires var s := AbsParts(dataPath, cwd); var p := AbsParts(source, cwd); !(|s| <= |p| && p[..|s|] == s)
    requires |RelParts(source, dataPath, cwd)| > 1
    ensures Subject(source, dataPath, cwd) == Some("..")
  {
    RelpathOutside(source, dataPath, cwd);
    RelpathSplit(source, dataPath, cwd);
  }

  /** Only an empty source path makes `relpath` raise. */
  lemma SubjectFails(source: string, dataPath: string, cwd: string)
    requires IsAbsolute(cwd)
    ensures Subject(source, dataPath, cwd).None? <==> source == []
  {
  }

  // ---------------------------------------------------------------
  // Tagging one document
  // ---------------------------------------------------------------

  /** `doc.metadata.get('source', '')` as a string; None where `basename` would raise TypeError. */
  function SourcePath(metadata: Fields): Option<string> {
    match Get(metadata, SOURCE_KEY, JStr(""))
    case JStr(s) => Some(s)
    case _ => None
  }

  /**
   * The two writes of one turn: the lesson always, then the subject when
   * there is one; the flag says whether the turn finished.
   */
  function Tag(metadata: Fields, lesson: string, subject: Option<string>): (Fields, bool) {
    var withLesson := Store(metadata, LESSON_KEY, JStr(lesson));
    match subject
    case None => (withLesson, false)
    case Some(s) => (Store(withLesson, SUBJECT_KEY, JStr(s)), true)
  }

  /**
   * One turn of the loop in `process_documents`: the new metadata and
   * whether the turn finished. A non-string source raises before anything
   * is written; an empty one raises after the lesson is written.
   */
  function Tagged(metadata: Fields, dataPath: string, cwd: string): (Fields, bool)
    requires IsAbsolute(cwd)
  {
    match SourcePath(metadata)
    case None => (metadata, false)
    case Some(source) => Tag(metadata, Lesson(source), Subject(source, dataPath, cwd))
  }

  /** After a finished turn both keys hold the written values and every other key reads as before. */
  lemma TagKeys(metadata: Fields, lesson: string, subject: string, other: string)
    ensures var m := Tag(metadata, lesson, Some(subject)).0;
      && Lookup(m, LESSON_KEY) == Some(JStr(lesson))
      && Lookup(m, SUBJECT_KEY) == Some(JStr(subject))
      && (other != LESSON_KEY && other != SUBJECT_KEY ==> Lookup(m, other) == Lookup(metadata, other))
  {
    var withLesson := Store(metadata, LESSON_KEY, JStr(lesson));
    StoreLookup(metadata, LESSON_KEY, JStr(lesson), other);
    StoreLookup(metadata, LESSON_KEY, JStr(lesson), SUBJECT_KEY);
    StoreLookup(withLesson, SUBJECT_KEY, JStr(subject), other);
    StoreLookup(withLesson, SUBJECT_KEY, JStr(subject), LESSON_KEY);
  }

  /** Writing the same two values again changes nothing. */
  lemma TagAgain(metadata: Fields, lesson: string, subject: string)
    ensures var m := Tag(metadata, lesson, Some(subject)).0; Tag(m, lesson, Some(subject)) == (m, true)
  {
    var m := Tag(metadata, lesson, Some(subject)).0;
    TagKeys(metadata, lesson, subject, SOURCE_KEY);
    StoreSame(m, LESSON_KEY, JStr(lesson));
    StoreSame(m, SUBJECT_KEY, JStr(subject));
  }

  /**
   * A finished turn gives the document both keys, with the lesson and the
   * subject of its source, and every other key keeps its value.
   */
  lemma TaggedKeys(metadata: Fields, dataPath: string, cwd: string, other: string)
    requires IsAbsolute(cwd) && Tagged(metadata, dataPath, cwd).1
    ensures var source := SourcePath(metadata).value; var m := Tagged(metadata, dataPath, cwd).0;
      && Lookup(m, LESSON_KEY) == Some(JStr(Lesson(source)))
      && Lookup(m, SUBJECT_KEY) == Some(JStr(Subject(source, dataPath, cwd).value))
      && (other != LESSON_KEY && other != SUBJECT_KEY ==> Lookup(m, other) == Lookup(metadata, other))
  {
    var source := SourcePath(metadata).value;
    TagKeys(metadata, Lesson(source), Subject(source, dataPath, cwd).value, other);
  }

  /** The turn finishes exactly when the source is a non-empty string. */
  lemma TaggedFinishes(metadata: Fields, dataPath: string, cwd: string)
    requires IsAbsolute(cwd)
    ensures Tagged(metadata, dataPath, cwd).1 <==> SourcePath(metadata).Some? && SourcePath(metadata).value != []
  {
    if SourcePath(metadata).Some? {
      SubjectFails(SourcePath(metadata).value, dataPath, cwd);
    }
  }

  /** Tagging a tagged document again changes nothing. */
  lemma TaggedIdempotent(metadata: Fields, dataPath: string, cwd: string)
    requires IsAbsolute(cwd) && Tagged(metadata, dataPath, cwd).1
    ensures Tagged(Tagged(metadata, dataPath, cwd).0, dataPath, cwd) == Tagged(metadata, dataPath, cwd)
  {
    var source := SourcePath(metadata).value;
    var lesson := Lesson(source);
    var subject := Subject(source, dataPath, cwd);
    assert Tagged(metadata, dataPath, cwd) == Tag(metadata, lesson, subject);
    assert subject.Some?;
    var m := Tag(metadata, lesson, subject).0;
    TagSource(metadata, lesson, subject.value);
    assert Tagged(m, dataPath, cwd) == Tag(m, lesson, subject);
    TagAgain(metadata, lesson, subject.value);
  }

  /** A turn leaves the source where it was. */
  lemma TagSource(metadata: Fields, lesson: string, subject: string)
    ensures SourcePath(Tag(metadata, lesson, Some(subject)).0) == SourcePath(metadata)
  {
    TagKeys(metadata, lesson, subject, SOURCE_KEY);
  }

  /** What one turn of the loop in `process_documents` does to the document it visits. */
  method TagDocument(doc: Document, dataPath: string, cwd: string) returns (finished: bool)
    requires IsAbsolute(cwd)
    modifies doc
    ensures (doc.metadata, finished) == Tagged(old(doc.metadata), dataPath, cwd)
    ensures doc.content == old(doc.content)
  {
    var source := match Get(doc.metadata, SOURCE_KEY, JStr("")) case JStr(s) => Some(s) case _ => None;
    if source.None? {
      return false;
    }
    doc.metadata := Store(doc.metadata, LESSON_KEY, JStr(Lesson(source.value)));
    var subject := Subject(source.value, dataPath, cwd);
    if subject.None? {
      return false;
    }
    doc.metadata := Store(doc.metadata, SUBJECT_KEY, JStr(subject.value));
    return true;
  }

  /**
   * `process_documents`, step 1: tags every document in list order. A turn
   * that raises stops the loop with the documents before it tagged and that
   * document as far as it got; `failed` is its index. A document listed
   * twice is tagged twice, to the same effect.
   */
  method ProcessDocuments(docs: seq<Document>, dataPath: string, cwd: string) returns (failed: Option<nat>)
    requires IsAbsolute(cwd)
    modifies set d | d in docs
    ensures TaggingOutcome(docs, failed, old(MetadataOf(docs)), MetadataOf(docs), dataPath, cwd)
    ensures forall d :: d in docs ==> d.content == old(d.content)
  {
    ghost var orig := MetadataOf(docs);
    ghost var turns := map d | d in orig :: Tagged(orig[d], dataPath, cwd);
    ghost var tagged := map d | d in turns :: turns[d].0;
    failed := TagAll(docs, dataPath, cwd, orig, turns, tagged);
    TaggingOutcomeHolds(docs, failed, orig, turns, tagged, MetadataOf(docs), dataPath, cwd);
  }

  /** The metadata of each listed document. */
  ghost function MetadataOf(docs: seq<Document>): map<Document, Fields>
    reads set d | d in docs
  {
    map d | d in docs :: d.metadata
  }

  /**
   * What `process_documents` leaves behind, from the metadata `before` to
   * the metadata `after`: `failed` is None iff every turn finishes, else the
   * index of the first turn that does not; the documents up to and
   * including that one hold their tagged metadata, the others their old one.
   */
  ghost predicate TaggingOutcome(docs: seq<Document>, failed: Option<nat>, before: map<Document, Fields>,
                                 after: map<Document, Fields>, dataPath: string, cwd: string)
    requires IsAbsolute(cwd)
  {
    && (forall d :: d in docs ==> d in before && d in after)
    && (failed.None? <==> forall i :: 0 <= i < |docs| ==> Tagged(before[docs[i]], dataPath, cwd).1)
    && (failed.Some? ==>
          && failed.value < |docs|
          && (forall i :: 0 <= i < failed.value ==> Tagged(before[docs[i]], dataPath, cwd).1)
          && !Tagged(before[docs[failed.value]], dataPath, cwd).1)
    && var done := if failed.Some? then docs[..failed.value + 1] else docs;
       forall d :: d in docs ==> after[d] == if d in done then Tagged(before[d], dataPath, cwd).0 else before[d]
  }

  /** The loop's bookkeeping on values gives the outcome `process_documents` promises. */
  lemma TaggingOutcomeHolds(docs: seq<Document>, failed: Option<nat>, orig: map<Document, Fields>, turns: map<Document, (Fields, bool)>,
                            tagged: map<Document, Fields>, now: map<Document, Fields>, dataPath: string, cwd: string)
    requires IsAbsolute(cwd) && TurnsOf(turns, orig, dataPath, cwd)
    requires forall d :: d in docs ==> d in orig && d in tagged && d in turns && tagged[d] == turns[d].0
    requires failed.None? <==> FinishedPrefix(docs, |docs|, turns)
    requires failed.Some? ==> failed.value < |docs| && FinishedPrefix(docs, failed.value, turns) && !turns[docs[failed.value]].1
    requires TaggedPrefix(docs, if failed.Some? then failed.value + 1 else |docs|, tagged, orig, now)
    ensures TaggingOutcome(docs, failed, orig, now, dataPath, cwd)
  {
    FinishedAll(docs, orig, turns, dataPath, cwd);
    if failed.Some? {
      forall i | 0 <= i < failed.value
        ensures Tagged(orig[docs[i]], dataPath, cwd).1
      {
        assert turns[docs[i]].1;
      }
      assert !Tagged(orig[docs[failed.value]], dataPath, cwd).1;
    }
    WholePrefix(docs);
  }

  lemma WholePrefix<T>(s: seq<T>)
    ensures s[..|s|] == s
  {
  }

  /** Every turn finishes iff the turns of all the documents finish. */
  lemma FinishedAll(docs: seq<Document>, orig: map<Document, Fields>, turns: map<Document, (Fields, bool)>, dataPath: string, cwd: string)
    requires IsAbsolute(cwd) && TurnsOf(turns, orig, dataPath, cwd)
    requires forall d :: d in docs ==> d in orig
    ensures FinishedPrefix(docs, |docs|, turns) <==> forall i :: 0 <= i < |docs| ==> Tagged(orig[docs[i]], dataPath, cwd).1
  {
  }

  /**
   * The loop of `process_documents` over the turns each document would
   * take from its metadata at the start.
   */
  method TagAll(docs: seq<Document>, dataPath: string, cwd: string, ghost orig: map<Document, Fields>,
                ghost turns: map<Document, (Fields, bool)>, ghost tagged: map<Document, Fields>)
    returns (failed: Option<nat>)
    requires IsAbsolute(cwd)
    requires forall d :: d in docs ==> d in orig && d.metadata == orig[d]
    requires TurnsOf(turns, orig, dataPath, cwd)
    requires forall d :: d in docs ==> d in tagged && d in turns && tagged[d] == turns[d].0
    modifies set d | d in docs
    ensures failed.None? <==> FinishedPrefix(docs, |docs|, turns)
    ensures failed.Some? ==> failed.value < |docs| && FinishedPrefix(docs, failed.value, turns) && !turns[docs[failed.value]].1
    ensures TaggedPrefix(docs, if failed.Some? then failed.value + 1 else |docs|, tagged, orig, MetadataOf(docs))
    ensures forall d :: d in docs ==> d.content == old(d.content)
  {
    ghost var meta: map<Document, Fields> := orig;
    for i := 0 to |docs|
      invariant FinishedPrefix(docs, i, turns)
      invariant TaggedPrefix(docs, i, tagged, orig, meta)
      invariant forall d :: d in docs ==> d in meta && d.metadata == meta[d]
      invariant forall d :: d in docs ==> d.content == old(d.content)
    {
      assert turns[docs[i]] == Tagged(orig[docs[i]], dataPath, cwd);
      var finished;
      finished, meta := TagTurn(docs, i, dataPath, cwd, turns, orig, tagged, meta);
      if !finished {
        MetadataAgrees(docs, i + 1, tagged, orig, meta);
        return Some(i);
      }
      FinishedPrefixStep(docs, i, turns);
    }
    MetadataAgrees(docs, |docs|, tagged, orig, meta);
    return None;
  }

  /** The bookkeeping `meta` of the loop agrees with the metadata it tracks. */
  lemma MetadataAgrees(docs: seq<Document>, i: nat, tagged: map<Document, Fields>, orig: map<Document, Fields>, meta: map<Document, Fields>)
    requires i <= |docs| && TaggedPrefix(docs, i, tagged, orig, meta)
    requires forall d :: d in docs ==> d in meta && d.metadata == meta[d]
    ensures TaggedPrefix(docs, i, tagged, orig, MetadataOf(docs))
  {
  }

  /** `turns` holds the turn each document would take from its metadata in `orig`. */
  ghost predicate TurnsOf(turns: map<Document, (Fields, bool)>, orig: map<Document, Fields>, dataPath: string, cwd: string)
    requires IsAbsolute(cwd)
  {
    forall d {:trigger Tagged(orig[d], dataPath, cwd)} :: d in orig ==> d in turns && turns[d] == Tagged(orig[d], dataPath, cwd)
  }

  /** One turn of the loop, with the bookkeeping that ties it to the turns of the documents before it. */
  method TagTurn(docs: seq<Document>, i: nat, dataPath: string, cwd: string, ghost turns: map<Document, (Fields, bool)>,
                 ghost orig: map<Document, Fields>, ghost tagged: map<Document, Fields>, ghost meta: map<Document, Fields>)
    returns (finished: bool, ghost meta': map<Document, Fields>)
    requires IsAbsolute(cwd) && i < |docs|
    requires docs[i] in turns && docs[i] in tagged && docs[i] in orig
    requires turns[docs[i]] == Tagged(orig[docs[i]], dataPath, cwd) && tagged[docs[i]] == turns[docs[i]].0
    requires FinishedPrefix(docs, i, turns) && TaggedPrefix(docs, i, tagged, orig, meta)
    requires forall d :: d in docs ==> d in meta && d.metadata == meta[d]
    modifies docs[i]
    ensures finished == turns[docs[i]].1
    ensures meta' == meta[docs[i] := tagged[docs[i]]]
    ensures TaggedPrefix(docs, i + 1, tagged, orig, meta')
    ensures forall d :: d in docs ==> d in meta' && d.metadata == meta'[d]
    ensures docs[i].content == old(docs[i].content)
  {
    var doc := docs[i];
    if doc in docs[..i] {
      var j :| 0 <= j < i && docs[j] == doc;
      TaggedIdempotent(orig[doc], dataPath, cwd);
    }
    assert Tagged(doc.metadata, dataPath, cwd) == turns[doc];
    finished := TagDocument(doc, dataPath, cwd);
    assert doc.metadata == tagged[doc];
    TaggedPrefixStep(docs, i, tagged, orig, meta);
    meta' := meta[doc := tagged[doc]];
    forall d | d in docs
      ensures d in meta' && d.metadata == meta'[d]
    {
      if d != doc {
        assert d.metadata == old(d.metadata) == meta[d];
      }
    }
  }

  /** The turns of the first `i` documents all finished. */
  ghost predicate FinishedPrefix<K, V>(keys: seq<K>, i: nat, turns: map<K, (V, bool)>)
    requires i <= |keys|
  {
    forall j :: 0 <= j < i ==> keys[j] in turns && turns[keys[j]].1
  }

  lemma FinishedPrefixStep<K, V>(keys: seq<K>, i: nat, turns: map<K, (V, bool)>)
    requires i < |keys| && FinishedPrefix(keys, i, turns) && keys[i] in turns && turns[keys[i]].1
    ensures FinishedPrefix(keys, i + 1, turns)
  {
  }

  /**
   * The loop's bookkeeping on values: a document among the first `i` holds
   * its tagged metadata, any other its original metadata.
   */
  ghost predicate TaggedPrefix<K, V>(keys: seq<K>, i: nat, tagged: map<K, V>, orig: map<K, V>, meta: map<K, V>)
    requires i <= |keys|
  {
    forall k :: k in keys ==> k in tagged && k in orig && k in meta && meta[k] == if k in keys[..i] then tagged[k] else orig[k]
  }

  lemma TaggedPrefixStep<K, V>(keys: seq<K>, i: nat, tagged: map<K, V>, orig: map<K, V>, meta: map<K, V>)
    requires i < |keys| && TaggedPrefix(keys, i, tagged, orig, meta)
    ensures TaggedPrefix(keys, i + 1, tagged, orig, meta[keys[i] := tagged[keys[i]]])
  {
    assert keys[..i + 1] == keys[..i] + [keys[i]];
  }

  // ---------------------------------------------------------------
  // main
  // ---------------------------------------------------------------

  /** `x in some_set` would raise TypeError for a list or a dict. */
  predicate Hashable(v: Json) {
    !v.JArr? && !v.JObj?
  }

  /** `set(doc.metadata['source'] for doc in stored)`; None where a source is missing or unhashable. */
  function ExistingSources(stored: seq<Fields>): (r: Option<set<Json>>)
    ensures r.Some? <==> forall i :: 0 <= i < |stored| ==> Lookup(stored[i], SOURCE_KEY).Some? && Hashable(Lookup(stored[i], SOURCE_KEY).value)
    ensures r.Some? ==> forall i :: 0 <= i < |stored| ==> Lookup(stored[i], SOURCE_KEY).value in r.value
    ensures r.Some? ==> forall v :: v in r.value ==> exists i :: 0 <= i < |stored| && Lookup(stored[i], SOURCE_KEY) == Some(v)
    decreases |stored|
  {
    if stored == [] then Some({})
    else
      var init := stored[..|stored| - 1];
      var last := Lookup(stored[|stored| - 1], SOURCE_KEY);
      var rest := ExistingSources(init);
      assert forall i :: 0 <= i < |init| ==> init[i] == stored[i];
      if rest.None? || last.None? || !Hashable(last.value) then None
      else Some(rest.value + {last.value})
  }

  /** Whether a loaded document is new; None where `doc.metadata['source']` raises or cannot be hashed. */
  function IsNew(metadata: Fields, existing: set<Json>): Option<bool> {
    match Lookup(metadata, SOURCE_KEY)
    case None => None
    case Some(v) => if Hashable(v) then Some(v !in existing) else None
  }

  /** `[doc for doc in docs if doc.metadata['source'] not in existing]`, or None where it raises. */
  function NewDocuments(docs: seq<Document>, existing: set<Json>): Option<seq<Document>>
    reads set d | d in docs
    decreases |docs|
  {
    if docs == [] then Some([])
    else
      var d := docs[|docs| - 1];
      match NewDocuments(docs[..|docs| - 1], existing)
      case None => None
      case Some(kept) =>
        match IsNew(d.metadata, existing)
        case None => None
        case Some(b) => Some(kept + if b then [d] else [])
  }

  /**
   * The new documents are exactly the loaded ones whose source is not among
   * the existing sources, each in its turn; the filter raises iff some
   * loaded document has no hashable source.
   */
  lemma {:induction false} NewDocumentsExactly(docs: seq<Document>, existing: set<Json>)
    ensures NewDocuments(docs, existing).Some? <==> forall i :: 0 <= i < |docs| ==> IsNew(docs[i].metadata, existing).Some?
    ensures NewDocuments(docs, existing).Some? ==>
      var nd := NewDocuments(docs, existing).value;
      && (forall d :: d in nd ==> d in docs && IsNew(d.metadata, existing) == Some(true))
      && (forall i :: 0 <= i < |docs| && IsNew(docs[i].metadata, existing) == Some(true) ==> docs[i] in nd)
    decreases |docs|
  {
    if docs != [] {
      var init := docs[..|docs| - 1];
      var d := docs[|docs| - 1];
      NewDocumentsExactly(init, existing);
      assert forall i :: 0 <= i < |init| ==> init[i] == docs[i];
      if NewDocuments(init, existing).None? {
        var k :| 0 <= k < |init| && IsNew(init[k].metadata, existing).None?;
        assert IsNew(docs[k].metadata, existing).None?;
      }
    }
  }

  /** One document is kept exactly when it is new, and the filter raises exactly where its test does. */
  lemma NewDocumentsSingle(d: Document, existing: set<Json>)
    ensures NewDocuments([d], existing) ==
      match IsNew(d.metadata, existing)
      case None => None
      case Some(b) => Some(if b then [d] else [])
  {
    assert [d][..0] == [];
    assert NewDocuments([], existing) == Some([]);
    if IsNew(d.metadata, existing).Some? {
      var kept: seq<Document> := [];
      var b := IsNew(d.metadata, existing).value;
      assert kept + (if b then [d] else []) == (if b then [d] else []);
      assert NewDocuments([d], existing) == Some(kept + if b then [d] else []);
    }
  }

  /**
   * Filtering a concatenation concatenates the filtered parts, so the new
   * documents keep the loaded order and each document is judged on its own;
   * the filter raises iff it raises on either part.
   */
  lemma {:induction false} NewDocumentsAppend(a: seq<Document>, b: seq<Document>, existing: set<Json>)
    ensures NewDocuments(a + b, existing) ==
      if NewDocuments(a, existing).Some? && NewDocuments(b, existing).Some?
      then Some(NewDocuments(a, existing).value + NewDocuments(b, existing).value)
      else None
    decreases |b|
  {
    if b == [] {
      assert a + b == a;
      if NewDocuments(a, existing).Some? {
        assert NewDocuments(a, existing).value + [] == NewDocuments(a, existing).value;
      }
    } else {
      var init := b[..|b| - 1];
      var d := b[|b| - 1];
      assert (a + b)[..|a + b| - 1] == a + init;
      assert (a + b)[|a + b| - 1] == d;
      NewDocumentsAppend(a, init, existing);
      if NewDocuments(a, existing).Some? && NewDocuments(init, existing).Some? && IsNew(d.metadata, existing).Some? {
        var x := NewDocuments(a, existing).value;
        var y := NewDocuments(init, existing).value;
        var last: seq<Document> := if IsNew(d.metadata, existing).value then [d] else [];
        assert (x + y) + last == x + (y + last);
      }
    }
  }

  /** When no loaded source is known, every loaded document is new, in the loaded order. */
  lemma {:induction false} AllNew(docs: seq<Document>, existing: set<Json>)
    requires forall i :: 0 <= i < |docs| ==> IsNew(docs[i].metadata, existing) == Some(true)
    ensures NewDocuments(docs, existing) == Some(docs)
    decreases |docs|
  {
    if docs != [] {
      var init := docs[..|docs| - 1];
      assert forall i :: 0 <= i < |init| ==> init[i] == docs[i];
      AllNew(init, existing);
      assert init + [docs[|docs| - 1]] == docs;
    }
  }

  /** What a run of `main` ends with. */
  datatype Run =
    | UpToDate                                  // update path: no new documents
    | NothingLoaded                             // create path: no documents on disk
    | Indexed(docs: seq<Document>, update: bool) // the tagged documents go to the splitter and the index
    | Raised                                    // an exception ended the run

  /**
   * `main`. `indexExists` is `os.path.exists(DB_FAISS_PATH)`, `stored` the
   * metadata of the documents in the loaded index, and `loaded` what the
   * directory loaders return for the five glob patterns, concatenated.
   */
  method Populate(indexExists: bool, stored: seq<Fields>, loaded: seq<Document>, dataPath: string, cwd: string)
    returns (run: Run)
    requires IsAbsolute(cwd)
    modifies set d | d in loaded
    ensures run == UpToDate <==> indexExists && ExistingSources(stored).Some?
                                 && old(NewDocuments(loaded, ExistingSources(stored).value)) == Some([])
    ensures run == NothingLoaded <==> !indexExists && loaded == []
    ensures run in {UpToDate, NothingLoaded} ==> forall d :: d in loaded ==> d.metadata == old(d.metadata)
    ensures run.Indexed? ==> run.update == indexExists
    ensures run.Indexed? && indexExists ==>
      ExistingSources(stored).Some? && old(NewDocuments(loaded, ExistingSources(stored).value)) == Some(run.docs)
    ensures run.Indexed? && !indexExists ==> run.docs == loaded
    ensures run.Indexed? ==> run.docs != [] && forall d :: d in run.docs ==> d in loaded && d.metadata == Tagged(old(d.metadata), dataPath, cwd).0
    ensures run.Indexed? ==> forall d :: d in loaded && d !in run.docs ==> d.metadata == old(d.metadata)
    ensures forall d :: d in loaded ==> d.content == old(d.content)
    ensures run.Indexed? <==>
      if indexExists then
        && ExistingSources(stored).Some?
        && old(NewDocuments(loaded, ExistingSources(stored).value)).Some?
        && old(NewDocuments(loaded, ExistingSources(stored).value)).value != []
        && forall d :: d in loaded && d in old(NewDocuments(loaded, ExistingSources(stored).value)).value ==> Tagged(old(d.metadata), dataPath, cwd).1
      else
        loaded != [] && forall d :: d in loaded ==> Tagged(old(d.metadata), dataPath, cwd).1
  {
    var documents := loaded;
    if indexExists {
      var existing := ExistingSources(stored);
      if existing.None? {
        return Raised;
      }
      var newDocs := NewDocuments(loaded, existing.value);
      if newDocs.None? {
        return Raised;
      }
      if newDocs.value == [] {
        return UpToDate;
      }
      NewDocumentsExactly(loaded, existing.value);
      documents := newDocs.value;
    } else if loaded == [] {
      return NothingLoaded;
    }
    var failed := ProcessDocuments(documents, dataPath, cwd);
    if failed.Some? {
      return Raised;
    }
    return Indexed(documents, indexExists);
  }
}
