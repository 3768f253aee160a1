/**
 * `start_population.main`: read the numeric settings from the environment
 * (falling back to defaults when a value is not a number), load the
 * embedding model, take the first PDF of the data folder, let the model
 * regroup its extracted text into records, and hand the records' embedding
 * texts and per-chunk metadata to `kreiraj_ili_azuriraj_vektorsku_bazu`.
 *
 * The environment arrives as a map (after `load_dotenv`); listing the PDFs,
 * extracting their text and `float()` are oracles; whether the embedding
 * model loads is a flag. The vector store itself is not modelled: a run ends
 * with the arguments the store would receive.
 */
module StartPopulation {
  import opened Wrappers
  import opened PyStrings
  import opened PyJson
  import opened PosixPath
  import opened EmbeddingRecords
  import opened AiChunks
  import PopulateDatabase

  // ---------------------------------------------------------------
  // int()
  // ---------------------------------------------------------------

  predicate IsDigit(c: char) {
    '0' <= c <= '9'
  }

  /** Decimal digits, where a single `_` may stand between two digits. */
  predicate DigitGroups(d: string) {
    && d != [] && IsDigit(d[0]) && IsDigit(d[|d| - 1])
    && (forall i :: 0 <= i < |d| ==> IsDigit(d[i]) || d[i] == '_')
    && (forall i :: 0 < i < |d| && d[i] == '_' ==> d[i - 1] != '_')
  }

  function WithoutUnderscores(d: string): (r: string)
    ensures |r| <= |d|
  {
    if d == [] then [] else (if d[0] == '_' then [] else [d[0]]) + WithoutUnderscores(d[1..])
  }

  /**
   * `int(s)` for a str `s` in base 10: surrounding whitespace is ignored,
   * one sign may lead, and the rest must be digit groups. None stands for
   * the ValueError.
   */
  function ParseInt(s: string): Option<int> {
    ParseTrimmed(Strip(s))
  }

  /** `int` on an already stripped text. */
  function ParseTrimmed(t: string): Option<int> {
    if t != [] && (t[0] == '-' || t[0] == '+') then
      if DigitGroups(t[1..]) then
        var n := DecimalValue(WithoutUnderscores(t[1..]));
        Some(if t[0] == '-' then -n else n)
      else None
    else if DigitGroups(t) then Some(DecimalValue(WithoutUnderscores(t)))
    else None
  }

  lemma {:induction false} NoUnderscores(d: string)
    requires '_' !in d
    ensures WithoutUnderscores(d) == d
  {
    if d != [] {
      assert '_' !in d[1..];
      NoUnderscores(d[1..]);
      assert d == [d[0]] + d[1..];
    }
  }

  /** A plain run of digits is one digit group, read as its decimal value. */
  lemma PlainDigits(d: string)
    requires d != [] && forall i :: 0 <= i < |d| ==> IsDigit(d[i])
    ensures DigitGroups(d) && ParseTrimmed(d) == Some(DecimalValue(d))
    ensures d[0] != '-' && d[0] != '+' && '-' !in d
    ensures !IsSpace(d[0]) && !IsSpace(d[|d| - 1])
  {
    DigitsShape(d);
    NoUnderscores(d);
  }

  /** A plain run of digits has no sign, no underscore and no whitespace at its ends. */
  lemma DigitsShape(d: string)
    requires d != [] && forall i :: 0 <= i < |d| ==> IsDigit(d[i])
    ensures DigitGroups(d) && '_' !in d && '-' !in d
    ensures d[0] != '-' && d[0] != '+' && !IsSpace(d[0]) && !IsSpace(d[|d| - 1])
  {
    assert '_' !in d && '-' !in d by {
      forall i | 0 <= i < |d| ensures d[i] != '_' && d[i] != '-' {
        assert IsDigit(d[i]);
      }
    }
    assert IsDigit(d[0]) && IsDigit(d[|d| - 1]);
  }

  /** `int` reads back what `str` writes, whatever whitespace surrounds it. */
  lemma ParseIntShown(p: string, i: int, q: string)
    requires AllSpace(p) && AllSpace(q)
    ensures ParseInt(p + IntToString(i) + q) == Some(i)
  {
    ShownTrimmed(i);
    StripPadded(p, IntToString(i), q);
  }

  /** `str(i)` reads back as `i` and has no whitespace at its ends. */
  lemma ShownTrimmed(i: int)
    ensures var g := IntToString(i); g != [] && !IsSpace(g[0]) && !IsSpace(g[|g| - 1]) && ParseTrimmed(g) == Some(i)
  {
    if i < 0 {
      NegativeShown(-i);
    } else {
      NatToStringSound(i);
      PlainDigits(NatToString(i));
    }
  }

  /** `str(-a)` is a minus sign before the digits of `a`, and `int` reads it back. */
  lemma NegativeShown(a: nat)
    requires a > 0
    ensures var g := "-" + NatToString(a); g[0] == '-' && !IsSpace(g[|g| - 1]) && ParseTrimmed(g) == Some(-(a as int))
  {
    var digits := NatToString(a);
    NatToStringSound(a);
    PlainDigits(digits);
    var g := "-" + digits;
    assert g[1..] == digits;
    assert g[|g| - 1] == digits[|digits| - 1];
  }

  /**
   * What `int` accepts: after stripping, a non-empty text with at most a
   * leading sign, then only digits and underscores, starting and ending
   * with a digit; a negative result needs the minus sign.
   */
  lemma ParseIntAccepts(s: string)
    requires ParseInt(s).Some?
    ensures var t := Strip(s);
      && t != []
      && (IsDigit(t[0]) || t[0] == '-' || t[0] == '+')
      && IsDigit(t[|t| - 1])
      && (forall i :: 0 < i < |t| ==> IsDigit(t[i]) || t[i] == '_')
      && (ParseInt(s).value < 0 ==> t[0] == '-')
  {
    var t := Strip(s);
    if t != [] && (t[0] == '-' || t[0] == '+') {
      assert forall i :: 0 < i < |t| ==> t[i] == t[1..][i - 1];
      WithoutUnderscoresDigits(t[1..]);
      DecimalValueNonNegative(WithoutUnderscores(t[1..]));
    } else {
      WithoutUnderscoresDigits(t);
      DecimalValueNonNegative(WithoutUnderscores(t));
    }
  }

  lemma {:induction false} DecimalValueNonNegative(s: string)
    requires forall i :: 0 <= i < |s| ==> IsDigit(s[i])
    ensures DecimalValue(s) >= 0
  {
    if s != [] {
      DecimalValueNonNegative(s[..|s| - 1]);
    }
  }

  lemma {:induction false} WithoutUnderscoresDigits(d: string)
    requires forall i :: 0 <= i < |d| ==> IsDigit(d[i]) || d[i] == '_'
    ensures forall i :: 0 <= i < |WithoutUnderscores(d)| ==> IsDigit(WithoutUnderscores(d)[i])
  {
    if d != [] {
      WithoutUnderscoresDigits(d[1..]);
    }
  }

  // ---------------------------------------------------------------
  // Settings
  // ---------------------------------------------------------------

  const DATA_PATH_KEY := "DATA_PATH"
  const DEFAULT_DATA_PATH := "podaci"
  const IMG_OUTPUT_DIR_KEY := "IMG_OUTPUT_DIR"
  const DEFAULT_IMG_OUTPUT_DIR := "izvucene_slike"

  const MIN_DIMENSION_KEY := "MIN_DIMENZIJA"
  const MIN_SIZE_KB_KEY := "MIN_VELICINA_KB"
  const DARK_THRESHOLD_KEY := "PRAG_TAMNE"
  const LIGHT_THRESHOLD_KEY := "PRAG_SVETLE"
  const MIN_PERCENT_KEY := "MINIMALNI_PROCENAT"
  const WAIT_KEY := "TIME_TO_WAIT"
  const CHUNK_SIZE_KEY := "CHUNK_SIZE"
  const CHUNK_OVERLAP_KEY := "CHUNK_OVERLAP"

  /** The integer settings of the first group and the float ones. */
  const TUNING_INT_KEYS := [MIN_DIMENSION_KEY, DARK_THRESHOLD_KEY, LIGHT_THRESHOLD_KEY, WAIT_KEY]
  const TUNING_FLOAT_KEYS := [MIN_SIZE_KB_KEY, MIN_PERCENT_KEY]

  /** `os.getenv(key, default)`. */
  function Setting(env: map<string, string>, key: string, default: string): string {
    if key in env then env[key] else default
  }

  /** `int(os.getenv(key, default))`; None for the ValueError. */
  function IntSetting(env: map<string, string>, key: string, default: int): Option<int> {
    if key in env then ParseInt(env[key]) else Some(default)
  }

  /** `float(os.getenv(key, default))`, with `float` on a str an oracle. */
  function FloatSetting(env: map<string, string>, parseFloat: string -> Option<real>, key: string, default: real): Option<real> {
    if key in env then parseFloat(env[key]) else Some(default)
  }

  /** The image-filter thresholds and the pause between model calls. */
  datatype Tuning = Tuning(minDimension: int, minSizeKb: real, darkThreshold: int, lightThreshold: int,
                           minPercent: real, waitSeconds: int)

  const DEFAULT_TUNING := Tuning(20, 2.0, 60, 195, 1.0, 5)

  /** The first `try` block: any ValueError resets all six values. */
  function TuningOf(env: map<string, string>, parseFloat: string -> Option<real>): Tuning {
    var minDimension := IntSetting(env, MIN_DIMENSION_KEY, 20);
    var minSizeKb := FloatSetting(env, parseFloat, MIN_SIZE_KB_KEY, 2.0);
    var darkThreshold := IntSetting(env, DARK_THRESHOLD_KEY, 60);
    var lightThreshold := IntSetting(env, LIGHT_THRESHOLD_KEY, 195);
    var minPercent := FloatSetting(env, parseFloat, MIN_PERCENT_KEY, 1.0);
    var waitSeconds := IntSetting(env, WAIT_KEY, 5);
    if minDimension.Some? && minSizeKb.Some? && darkThreshold.Some? && lightThreshold.Some?
       && minPercent.Some? && waitSeconds.Some?
    then Tuning(minDimension.value, minSizeKb.value, darkThreshold.value, lightThreshold.value,
                minPercent.value, waitSeconds.value)
    else DEFAULT_TUNING
  }

  /** With none of the keys set every value is its default. */
  lemma TuningUnset(env: map<string, string>, parseFloat: string -> Option<real>)
    requires forall k :: k in TUNING_INT_KEYS + TUNING_FLOAT_KEYS ==> k !in env
    ensures TuningOf(env, parseFloat) == DEFAULT_TUNING
  {
    TuningKeys();
    assert MIN_DIMENSION_KEY in TUNING_INT_KEYS + TUNING_FLOAT_KEYS;
    assert DARK_THRESHOLD_KEY in TUNING_INT_KEYS + TUNING_FLOAT_KEYS;
    assert LIGHT_THRESHOLD_KEY in TUNING_INT_KEYS + TUNING_FLOAT_KEYS;
    assert WAIT_KEY in TUNING_INT_KEYS + TUNING_FLOAT_KEYS;
    assert MIN_SIZE_KB_KEY in TUNING_INT_KEYS + TUNING_FLOAT_KEYS;
    assert MIN_PERCENT_KEY in TUNING_INT_KEYS + TUNING_FLOAT_KEYS;
  }

  /** One unreadable integer value discards the readable ones too. */
  lemma TuningIntFails(env: map<string, string>, parseFloat: string -> Option<real>, k: string)
    requires k in TUNING_INT_KEYS && k in env && ParseInt(env[k]).None?
    ensures TuningOf(env, parseFloat) == DEFAULT_TUNING
  {
    TuningKeys();
  }

  /** One unreadable float value discards the readable ones too. */
  lemma TuningFloatFails(env: map<string, string>, parseFloat: string -> Option<real>, k: string)
    requires k in TUNING_FLOAT_KEYS && k in env && parseFloat(env[k]).None?
    ensures TuningOf(env, parseFloat) == DEFAULT_TUNING
  {
    TuningKeys();
  }

  /** When every set value is readable, each setting is its own key's value or its default. */
  lemma TuningRead(env: map<string, string>, parseFloat: string -> Option<real>)
    requires forall k :: k in TUNING_INT_KEYS && k in env ==> ParseInt(env[k]).Some?
    requires forall k :: k in TUNING_FLOAT_KEYS && k in env ==> parseFloat(env[k]).Some?
    ensures var t := TuningOf(env, parseFloat);
      && (MIN_DIMENSION_KEY in env ==> Some(t.minDimension) == ParseInt(env[MIN_DIMENSION_KEY]))
      && (MIN_DIMENSION_KEY !in env ==> t.minDimension == 20)
      && (MIN_SIZE_KB_KEY in env ==> Some(t.minSizeKb) == parseFloat(env[MIN_SIZE_KB_KEY]))
      && (MIN_SIZE_KB_KEY !in env ==> t.minSizeKb == 2.0)
      && (DARK_THRESHOLD_KEY in env ==> Some(t.darkThreshold) == ParseInt(env[DARK_THRESHOLD_KEY]))
      && (DARK_THRESHOLD_KEY !in env ==> t.darkThreshold == 60)
      && (LIGHT_THRESHOLD_KEY in env ==> Some(t.lightThreshold) == ParseInt(env[LIGHT_THRESHOLD_KEY]))
      && (LIGHT_THRESHOLD_KEY !in env ==> t.lightThreshold == 195)
      && (MIN_PERCENT_KEY in env ==> Some(t.minPercent) == parseFloat(env[MIN_PERCENT_KEY]))
      && (MIN_PERCENT_KEY !in env ==> t.minPercent == 1.0)
      && (WAIT_KEY in env ==> Some(t.waitSeconds) == ParseInt(env[WAIT_KEY]))
      && (WAIT_KEY !in env ==> t.waitSeconds == 5)
  {
    TuningKeys();
  }

  /** The keys of the first group, one by one. */
  lemma TuningKeys()
    ensures TUNING_INT_KEYS[0] == MIN_DIMENSION_KEY && TUNING_INT_KEYS[1] == DARK_THRESHOLD_KEY
    ensures TUNING_INT_KEYS[2] == LIGHT_THRESHOLD_KEY && TUNING_INT_KEYS[3] == WAIT_KEY
    ensures TUNING_FLOAT_KEYS[0] == MIN_SIZE_KB_KEY && TUNING_FLOAT_KEYS[1] == MIN_PERCENT_KEY
    ensures |TUNING_INT_KEYS| == 4 && |TUNING_FLOAT_KEYS| == 2
  {
  }

  /** How the splitter cuts the extracted text. */
  datatype Chunking = Chunking(size: int, overlap: int)

  const DEFAULT_CHUNKING := Chunking(1000, 150)

  /** The second `try` block: either value unreadable resets both. */
  function ChunkingOf(env: map<string, string>): Chunking {
    var size := IntSetting(env, CHUNK_SIZE_KEY, 1000);
    var overlap := IntSetting(env, CHUNK_OVERLAP_KEY, 150);
    if size.Some? && overlap.Some? then Chunking(size.value, overlap.value) else DEFAULT_CHUNKING
  }

  /** Both chunking values come from their keys, or both are the defaults. */
  lemma ChunkingCases(env: map<string, string>)
    ensures CHUNK_SIZE_KEY !in env && CHUNK_OVERLAP_KEY !in env ==> ChunkingOf(env) == DEFAULT_CHUNKING
    ensures (CHUNK_SIZE_KEY in env && ParseInt(env[CHUNK_SIZE_KEY]).None?)
            || (CHUNK_OVERLAP_KEY in env && ParseInt(env[CHUNK_OVERLAP_KEY]).None?)
            ==> ChunkingOf(env) == DEFAULT_CHUNKING
    ensures CHUNK_SIZE_KEY in env && CHUNK_OVERLAP_KEY in env
            && ParseInt(env[CHUNK_SIZE_KEY]).Some? && ParseInt(env[CHUNK_OVERLAP_KEY]).Some?
            ==> ChunkingOf(env) == Chunking(ParseInt(env[CHUNK_SIZE_KEY]).value, ParseInt(env[CHUNK_OVERLAP_KEY]).value)
  {
  }

  /** A setting written as `str(n)`, padded with whitespace or not, is read as `n`. */
  lemma IntSettingWritten(env: map<string, string>, key: string, default: int, p: string, n: int, q: string)
    requires AllSpace(p) && AllSpace(q)
    requires key in env && env[key] == p + IntToString(n) + q
    ensures IntSetting(env, key, default) == Some(n)
  {
    ParseIntShown(p, n, q);
  }

  /** Chunking values written as `str(n)` are the ones the splitter gets. */
  lemma ChunkingWritten(env: map<string, string>, size: int, overlap: int)
    requires CHUNK_SIZE_KEY in env && env[CHUNK_SIZE_KEY] == IntToString(size)
    requires CHUNK_OVERLAP_KEY in env && env[CHUNK_OVERLAP_KEY] == " " + IntToString(overlap) + "\n"
    ensures ChunkingOf(env) == Chunking(size, overlap)
  {
    assert "" + IntToString(size) + "" == IntToString(size);
    IntSettingWritten(env, CHUNK_SIZE_KEY, 1000, "", size, "");
    IntSettingWritten(env, CHUNK_OVERLAP_KEY, 150, " ", overlap, "\n");
  }

  // ---------------------------------------------------------------
  // Subject and lesson of a file
  // ---------------------------------------------------------------

  /** The characters `data_path.strip('/\\')` removes. */
  const SEPARATORS: set<char> := {'/', '\\'}

  function LStripChars(s: string, cs: set<char>): (r: string)
    ensures |r| <= |s| && r == s[|s| - |r|..]
    ensures r != [] ==> r[0] !in cs
    decreases |s|
  {
    if s != [] && s[0] in cs then LStripChars(s[1..], cs) else s
  }

  function RStripChars(s: string, cs: set<char>): (r: string)
    ensures |r| <= |s| && r == s[..|r|]
    ensures r != [] ==> r[|r| - 1] !in cs
    decreases |s|
  {
    if s != [] && s[|s| - 1] in cs then RStripChars(s[..|s| - 1], cs) else s
  }

  /** `s.strip(chars)`. */
  function StripChars(s: string, cs: set<char>): string {
    RStripChars(LStripChars(s, cs), cs)
  }

  lemma {:induction false} RStripCharsSuffix(core: string, tail: string, cs: set<char>)
    requires core != [] && core[|core| - 1] !in cs
    requires forall i :: 0 <= i < |tail| ==> tail[i] in cs
    ensures RStripChars(core + tail, cs) == core
    decreases |tail|
  {
    if tail == [] {
      assert core + tail == core;
    } else {
      var s := core + tail;
      assert s[..|s| - 1] == core + tail[..|tail| - 1];
      RStripCharsSuffix(core, tail[..|tail| - 1], cs);
    }
  }

  /** Separators after a text that neither starts nor ends with one are all `strip` removes. */
  lemma StripCharsTrailing(core: string, tail: string, cs: set<char>)
    requires core != [] && core[0] !in cs && core[|core| - 1] !in cs
    requires forall i :: 0 <= i < |tail| ==> tail[i] in cs
    ensures StripChars(core + tail, cs) == core
  {
    assert (core + tail)[0] == core[0];
    RStripCharsSuffix(core, tail, cs);
  }

  /**
   * `(naziv_predmeta, naziv_lekcije)` for a PDF path: the lesson is the file
   * name, the subject the name of its folder unless the folder is blank or
   * has the data folder's own name.
   */
  function PdfNames(pdf: string, dataPath: string): (string, string) {
    var (folder, lesson) := PathSplit(pdf);
    var subject :=
      if Strip(folder) != [] && Basename(folder) != Basename(StripChars(dataPath, SEPARATORS))
      then Basename(folder) else "";
    (subject, lesson)
  }

  /**
   * The lesson is the file's basename; the subject is a single path
   * component, and never the data folder's own name.
   */
  lemma PdfNamesShape(pdf: string, dataPath: string)
    ensures var (subject, lesson) := PdfNames(pdf, dataPath);
      && lesson == Basename(pdf)
      && '/' !in subject && '/' !in lesson
      && (subject == "" || subject != Basename(StripChars(dataPath, SEPARATORS)))
      && ('/' !in pdf ==> subject == "")
  {
    SplitParts(pdf);
    if '/' !in pdf {
      StripTrims(PathSplit(pdf).0);
    }
  }

  /** A folder `root/subject` is not blank, does not end with `/`, and is named `subject`. */
  lemma SubjectFolder(root: string, subject: string)
    requires subject != [] && '/' !in subject && !AllSpace(subject)
    ensures var folder := PathJoin(root, subject);
      folder != [] && folder[|folder| - 1] != '/' && Basename(folder) == subject && Strip(folder) != []
  {
    var folder := PathJoin(root, subject);
    assert !IsAbsolute(subject);
    JoinBasename(root, subject);
    assert folder[|folder| - 1] == subject[|subject| - 1];
    var k :| 0 <= k < |subject| && !IsSpace(subject[k]);
    assert folder[|folder| - |subject| + k] == subject[k];
    StripTrims(folder);
  }

  /** A file inside a folder named `subject` gets that subject, wherever the folder is. */
  lemma FileInSubjectFolder(root: string, subject: string, name: string, dataPath: string)
    requires subject != [] && '/' !in subject && !AllSpace(subject)
    requires '/' !in name
    requires subject != Basename(StripChars(dataPath, SEPARATORS))
    ensures PdfNames(PathJoin(PathJoin(root, subject), name), dataPath) == (subject, name)
  {
    var folder := PathJoin(root, subject);
    SubjectFolder(root, subject);
    SplitJoined(folder, name);
  }

  /** A file directly in the data folder gets no subject, however many separators end the data path. */
  lemma FileAtDataRoot(core: string, tail: string, name: string)
    requires core != [] && core[0] !in SEPARATORS && core[|core| - 1] !in SEPARATORS
    requires forall i :: 0 <= i < |tail| ==> tail[i] in SEPARATORS
    requires '/' !in name
    ensures PdfNames(core + "/" + name, core + tail) == ("", name)
  {
    assert !IsAbsolute(name);
    assert PathJoin(core, name) == core + "/" + name;
    SplitJoined(core, name);
    StripCharsTrailing(core, tail, SEPARATORS);
  }

  // ---------------------------------------------------------------
  // What goes to the vector store
  // ---------------------------------------------------------------

  /** `i.get('metadata', []).get('keywords', [])`; None where the record or its metadata is not a dict. */
  function Keywords(record: Json): Option<Json> {
    if !record.JObj? then None
    else match Get(record.fields, METADATA_KEY, JArr([]))
      case JObj(m) => Some(Get(m, KEYWORDS_KEY, JArr([])))
      case _ => None
  }

  /** `rečnik['embedding_text']`; None for the KeyError or TypeError. */
  function EmbeddingTextOf(record: Json): Option<Json> {
    if record.JObj? then Lookup(record.fields, TEXT_KEY) else None
  }

  /** One entry of `metapodaci`, with the dict literal's key order. */
  function ChunkMetadata(keywords: Json, pdf: string, lesson: string, subject: string): Json {
    JObj([(KEYWORDS_KEY, keywords), (PopulateDatabase.SOURCE_KEY, JStr(pdf)),
          (PopulateDatabase.LESSON_KEY, JStr(lesson)), (PopulateDatabase.SUBJECT_KEY, JStr(subject))])
  }

  /** The `metapodaci` comprehension: one entry per record, or None where a record raises. */
  function Metadatas(records: seq<Json>, pdf: string, lesson: string, subject: string): (r: Option<seq<Json>>)
    ensures r.Some? <==> forall i :: 0 <= i < |records| ==> Keywords(records[i]).Some?
    ensures r.Some? ==>
      && |r.value| == |records|
      && forall i :: 0 <= i < |records| ==> r.value[i] == ChunkMetadata(Keywords(records[i]).value, pdf, lesson, subject)
  {
    if records == [] then Some([])
    else
      var init := records[..|records| - 1];
      var last := records[|records| - 1];
      assert forall i :: 0 <= i < |init| ==> init[i] == records[i];
      match Metadatas(init, pdf, lesson, subject)
      case None => None
      case Some(ms) =>
        match Keywords(last)
        case None => None
        case Some(k) => Some(ms + [ChunkMetadata(k, pdf, lesson, subject)])
  }

  /** `samo_embedding_tekstovi`: each record's embedding text, or None where a record lacks one. */
  function EmbeddingTexts(records: seq<Json>): (r: Option<seq<Json>>)
    ensures r.Some? <==> forall i :: 0 <= i < |records| ==> EmbeddingTextOf(records[i]).Some?
    ensures r.Some? ==>
      && |r.value| == |records|
      && forall i :: 0 <= i < |records| ==> r.value[i] == EmbeddingTextOf(records[i]).value
  {
    if records == [] then Some([])
    else
      var init := records[..|records| - 1];
      var last := records[|records| - 1];
      assert forall i :: 0 <= i < |init| ==> init[i] == records[i];
      match EmbeddingTexts(init)
      case None => None
      case Some(ts) =>
        match EmbeddingTextOf(last)
        case None => None
        case Some(t) => Some(ts + [t])
  }

  /** The loop that fills `samo_embedding_tekstovi`. */
  method CollectTexts(records: seq<Json>) returns (texts: Option<seq<Json>>)
    ensures texts == EmbeddingTexts(records)
  {
    var acc := [];
    for i := 0 to |records|
      invariant EmbeddingTexts(records[..i]) == Some(acc)
    {
      assert records[..i + 1][..i] == records[..i];
      var text := EmbeddingTextOf(records[i]);
      if text.None? {
        assert EmbeddingTexts(records[..i + 1]).None?;
        TextsStuck(records, i + 1);
        return None;
      }
      acc := acc + [text.value];
    }
    assert records[..|records|] == records;
    return Some(acc);
  }

  lemma {:induction false} TextsStuck(records: seq<Json>, i: nat)
    requires i <= |records| && EmbeddingTexts(records[..i]).None?
    ensures EmbeddingTexts(records).None?
  {
    var j :| 0 <= j < i && EmbeddingTextOf(records[..i][j]).None?;
    assert records[j] == records[..i][j];
  }

  /** Everything the model stage emits carries both an embedding text and keywords. */
  predicate Writable(record: Json) {
    Keywords(record).Some? && EmbeddingTextOf(record).Some?
  }

  /** A record built by `object_parser` reads back its own text and keywords. */
  lemma RecordJsonWritable(text: string, keywords: Json)
    ensures Keywords(RecordJson(text, keywords)) == Some(keywords)
    ensures EmbeddingTextOf(RecordJson(text, keywords)) == Some(JStr(text))
  {
    var r := RecordJson(text, keywords);
    assert TEXT_KEY != METADATA_KEY by {
      assert |TEXT_KEY| != |METADATA_KEY|;
    }
    assert r.fields[1..] == [(METADATA_KEY, JObj([(KEYWORDS_KEY, keywords)]))];
    assert Lookup(r.fields, METADATA_KEY) == Lookup(r.fields[1..], METADATA_KEY);
    assert Get(r.fields, METADATA_KEY, JArr([])) == JObj([(KEYWORDS_KEY, keywords)]);
    assert Lookup([(KEYWORDS_KEY, keywords)], KEYWORDS_KEY) == Some(keywords);
  }

  lemma RecordsWritable(xs: seq<Json>, show: Json -> string)
    requires Records(xs, show).Some?
    ensures forall k :: 0 <= k < |Records(xs, show).value| ==> Writable(Records(xs, show).value[k])
  {
    RecordsPerDict(xs, show);
    var rs := Records(xs, show).value;
    forall k | 0 <= k < |rs| ensures Writable(rs[k]) {
      var obj := Dicts(xs)[k];
      var names := QuestionNames(obj).value;
      var text := EmbeddingText(Render(Get(obj, DESCRIPTION_KEY, JStr("")), show), Join(names, " "),
                                Render(Get(obj, CONTEXT_KEY, JStr("")), show));
      assert rs[k] == RecordJson(text, Get(obj, KEYWORDS_KEY, JArr([])));
      RecordJsonWritable(text, Get(obj, KEYWORDS_KEY, JArr([])));
    }
  }

  lemma ParsedWritable(reply: string, decode: string -> Option<Json>, show: Json -> string)
    ensures forall k :: 0 <= k < |ObjectParser(reply, decode, show)| ==> Writable(ObjectParser(reply, decode, show)[k])
  {
    var t := Strip(reply);
    if t != [] {
      match decode(StripFences(t))
      case Some(JArr(xs)) =>
        if Records(xs, show).Some? {
          RecordsWritable(xs, show);
        }
      case _ =>
    }
  }

  lemma {:induction false} CollectedWritable(reqs: seq<ChunkRequest>, ai: ChunkRequest -> seq<Option<string>>,
                                             decode: string -> Option<Json>, show: Json -> string)
    requires Collected(reqs, ai, decode, show).Some?
    ensures forall k :: 0 <= k < |Collected(reqs, ai, decode, show).value| ==> Writable(Collected(reqs, ai, decode, show).value[k])
  {
    if reqs != [] {
      var init := reqs[..|reqs| - 1];
      CollectedWritable(init, ai, decode, show);
      var reply := Accepted(ai(reqs[|reqs| - 1])).value;
      ParsedWritable(reply, decode, show);
      var before := Collected(init, ai, decode, show).value;
      var parsed := ObjectParser(reply, decode, show);
      assert Collected(reqs, ai, decode, show).value == before + parsed;
    }
  }

  // ---------------------------------------------------------------
  // One run
  // ---------------------------------------------------------------

  /** The arguments of `ekstraktuj_i_podeli_tekst`. */
  datatype Extraction = Extraction(pdf: string, imgDir: string, chunkSize: int, chunkOverlap: int,
                                   minDimension: int, minSizeKb: real, darkThreshold: int,
                                   lightThreshold: int, minPercent: real)

  /** What the run reads from outside: `load_pdf_fiels`, the extraction, the model, `json.loads`, `str` and `float`. */
  datatype Oracles = Oracles(listPdfs: string -> seq<string>, extract: Extraction -> seq<string>,
                             ai: ChunkRequest -> seq<Option<string>>, decode: string -> Option<Json>,
                             show: Json -> string, parseFloat: string -> Option<real>)

  /** How `main` ends. */
  datatype Outcome =
    | ModelUnavailable                              // the embedding model did not load
    | NoFiles                                       // the data folder lists no PDF
    | Unfinished                                    // `get_ai_chunks` keeps retrying a chunk
    | PauseRefused                                  // `time.sleep` raised on a negative TIME_TO_WAIT
    | NothingChunked                                // the model stage returned no records
    | Raised                                        // building the metadata or the texts raised
    | Mismatched                                    // the store's length guard refused the write
    | Written(texts: seq<Json>, metadatas: seq<Json>) // what the vector store receives

  /** `kreiraj_ili_azuriraj_vektorsku_bazu`'s guard: the store is written only for equal lengths. */
  function Guarded(texts: seq<Json>, metadatas: seq<Json>): (o: Outcome)
    ensures o.Written? <==> |texts| == |metadatas|
    ensures o.Written? ==> o == Written(texts, metadatas)
  {
    if |texts| != |metadatas| then Mismatched else Written(texts, metadatas)
  }

  /** The extraction call for one PDF, with the tuning and chunking settings. */
  function ExtractionFor(pdf: string, imgDir: string, tuning: Tuning, chunking: Chunking): Extraction {
    Extraction(pdf, imgDir, chunking.size, chunking.overlap, tuning.minDimension,
               tuning.minSizeKb, tuning.darkThreshold, tuning.lightThreshold, tuning.minPercent)
  }

  /** Building the metadata and the texts of the records, then handing them to the store. */
  function Stored(records: seq<Json>, pdf: string, lesson: string, subject: string): Outcome {
    match Metadatas(records, pdf, lesson, subject)
    case None => Raised
    case Some(metadatas) =>
      match EmbeddingTexts(records)
      case None => Raised
      case Some(chunkTexts) => Guarded(chunkTexts, metadatas)
  }

  /** The body of the loop, for one PDF. */
  function Processed(pdf: string, dataPath: string, imgDir: string, tuning: Tuning, chunking: Chunking, o: Oracles): Outcome {
    var texts := o.extract(ExtractionFor(pdf, imgDir, tuning, chunking));
    match PassOf(texts, tuning.waitSeconds, imgDir, o.ai, o.decode, o.show)
    case StillRetrying => Unfinished
    case PauseRaised => PauseRefused
    case Finished(records) =>
      if records == [] then NothingChunked
      else
        var (subject, lesson) := PdfNames(pdf, dataPath);
        Stored(records, pdf, lesson, subject)
  }

  /** The loop over the listed PDFs, which stops after the first. */
  function FilesOutcome(files: seq<string>, dataPath: string, imgDir: string, tuning: Tuning, chunking: Chunking, o: Oracles): Outcome {
    if files == [] then NoFiles else Processed(files[0], dataPath, imgDir, tuning, chunking, o)
  }

  /** `main`. */
  function RunOutcome(env: map<string, string>, modelLoads: bool, o: Oracles): Outcome {
    var dataPath := Setting(env, DATA_PATH_KEY, DEFAULT_DATA_PATH);
    var imgDir := Setting(env, IMG_OUTPUT_DIR_KEY, DEFAULT_IMG_OUTPUT_DIR);
    if !modelLoads then ModelUnavailable
    else FilesOutcome(o.listPdfs(dataPath), dataPath, imgDir, TuningOf(env, o.parseFloat), ChunkingOf(env), o)
  }

  /** Only the first listed PDF is ever processed: the loop ends with an unconditional `break`. */
  lemma OnlyFirstFile(first: string, rest: seq<string>, other: seq<string>, dataPath: string, imgDir: string,
                      tuning: Tuning, chunking: Chunking, o: Oracles)
    ensures FilesOutcome([first] + rest, dataPath, imgDir, tuning, chunking, o)
         == FilesOutcome([first] + other, dataPath, imgDir, tuning, chunking, o)
         == Processed(first, dataPath, imgDir, tuning, chunking, o)
  {
  }

  /** Without the embedding model nothing is listed, extracted or asked. */
  lemma NoModelNoWork(env: map<string, string>, o: Oracles, other: Oracles)
    ensures RunOutcome(env, false, o) == RunOutcome(env, false, other) == ModelUnavailable
  {
  }

  /**
   * How one PDF ends. With a negative pause and at least one chunk, the
   * first chunk's first call is answered or raises and the sleep after it
   * raises: PauseRefused, unless that call never comes back. Otherwise it is
   * Unfinished exactly when the model stage keeps retrying, NothingChunked
   * exactly when that stage returns no records, and otherwise it is written. The metadata and texts never raise and the
   * length guard never refuses, because every record the model stage emits
   * has an embedding text and keywords. The store receives, per record in
   * order, its embedding text and a metadata entry with its keywords, the
   * PDF path, the lesson and the subject.
   */
  lemma ProcessedCases(pdf: string, dataPath: string, imgDir: string, tuning: Tuning, chunking: Chunking, o: Oracles)
    ensures var texts := o.extract(ExtractionFor(pdf, imgDir, tuning, chunking));
      var enriched := EnrichedRecords(texts, imgDir, o.ai, o.decode, o.show);
      var outcome := Processed(pdf, dataPath, imgDir, tuning, chunking, o);
      var (subject, lesson) := PdfNames(pdf, dataPath);
      var wait := tuning.waitSeconds;
      && (outcome == PauseRefused <==> wait < 0 && texts != [] && o.ai(Requests(texts, imgDir)[0]) != [])
      && (wait >= 0 ==> (outcome == Unfinished <==> enriched.None?))
      && (wait < 0 ==> (outcome == Unfinished <==> texts != [] && o.ai(Requests(texts, imgDir)[0]) == []))
      && (outcome == NothingChunked <==> (wait >= 0 || texts == []) && enriched == Some([]))
      && outcome != Raised && outcome != Mismatched
      && (outcome.Written? || outcome == Unfinished || outcome == NothingChunked || outcome == PauseRefused)
      && (outcome.Written? ==>
            && wait >= 0
            && enriched.Some?
            && var records := enriched.value;
            && records != []
            && |outcome.texts| == |outcome.metadatas| == |records|
            && (forall i :: 0 <= i < |records| ==> Some(outcome.texts[i]) == EmbeddingTextOf(records[i]))
            && (forall i :: 0 <= i < |records| ==>
                  && Keywords(records[i]).Some?
                  && outcome.metadatas[i] == ChunkMetadata(Keywords(records[i]).value, pdf, lesson, subject)))
  {
    var texts := o.extract(ExtractionFor(pdf, imgDir, tuning, chunking));
    var enriched := EnrichedRecords(texts, imgDir, o.ai, o.decode, o.show);
    if enriched.Some? && enriched.value != [] {
      CollectedWritable(Requests(texts, imgDir), o.ai, o.decode, o.show);
      var (subject, lesson) := PdfNames(pdf, dataPath);
      StoredWritten(enriched.value, pdf, lesson, subject);
    }
  }

  /**
   * A negative TIME_TO_WAIT is read like any other integer and ends the run
   * with the sleep's ValueError as soon as the first chunk's first call
   * comes back, whatever its reply.
   */
  lemma NegativePauseRaises(env: map<string, string>, o: Oracles, w: int)
    requires w < 0 && WAIT_KEY in env && env[WAIT_KEY] == IntToString(w)
    requires forall k :: k in TUNING_INT_KEYS && k in env ==> ParseInt(env[k]).Some?
    requires forall k :: k in TUNING_FLOAT_KEYS && k in env ==> o.parseFloat(env[k]).Some?
    ensures var dataPath := Setting(env, DATA_PATH_KEY, DEFAULT_DATA_PATH);
      var imgDir := Setting(env, IMG_OUTPUT_DIR_KEY, DEFAULT_IMG_OUTPUT_DIR);
      var tuning := TuningOf(env, o.parseFloat);
      var files := o.listPdfs(dataPath);
      && tuning.waitSeconds == w
      && (RunOutcome(env, true, o) == PauseRefused <==>
            && files != []
            && var texts := o.extract(ExtractionFor(files[0], imgDir, tuning, ChunkingOf(env)));
            && texts != [] && o.ai(Requests(texts, imgDir)[0]) != [])
  {
    WaitRead(env, o.parseFloat, w);
    var dataPath := Setting(env, DATA_PATH_KEY, DEFAULT_DATA_PATH);
    var imgDir := Setting(env, IMG_OUTPUT_DIR_KEY, DEFAULT_IMG_OUTPUT_DIR);
    var files := o.listPdfs(dataPath);
    if files != [] {
      ProcessedCases(files[0], dataPath, imgDir, TuningOf(env, o.parseFloat), ChunkingOf(env), o);
    }
  }

  /** `int(str(w))` is `w`, so the pause is the value written. */
  lemma WaitRead(env: map<string, string>, parseFloat: string -> Option<real>, w: int)
    requires WAIT_KEY in env && env[WAIT_KEY] == IntToString(w)
    requires forall k :: k in TUNING_INT_KEYS && k in env ==> ParseInt(env[k]).Some?
    requires forall k :: k in TUNING_FLOAT_KEYS && k in env ==> parseFloat(env[k]).Some?
    ensures TuningOf(env, parseFloat).waitSeconds == w
  {
    ParseIntShown("", w, "");
    assert "" + IntToString(w) + "" == IntToString(w);
    TuningRead(env, parseFloat);
  }

  /**
   * Records that all carry a text and keywords are written: per record, its
   * text and a metadata entry with its keywords, the PDF, the lesson and the subject.
   */
  lemma StoredWritten(records: seq<Json>, pdf: string, lesson: string, subject: string)
    requires forall k :: 0 <= k < |records| ==> Writable(records[k])
    ensures var outcome := Stored(records, pdf, lesson, subject);
      && outcome.Written?
      && |outcome.texts| == |outcome.metadatas| == |records|
      && (forall i :: 0 <= i < |records| ==> Some(outcome.texts[i]) == EmbeddingTextOf(records[i]))
      && (forall i :: 0 <= i < |records| ==>
            && Keywords(records[i]).Some?
            && outcome.metadatas[i] == ChunkMetadata(Keywords(records[i]).value, pdf, lesson, subject))
  {
    var metadatas := Metadatas(records, pdf, lesson, subject);
    var chunkTexts := EmbeddingTexts(records);
    assert metadatas.Some? && chunkTexts.Some?;
    assert Stored(records, pdf, lesson, subject) == Written(chunkTexts.value, metadatas.value);
  }

  /** One PDF, as the loop body runs it. */
  method ProcessFile(pdf: string, dataPath: string, imgDir: string, tuning: Tuning, chunking: Chunking, o: Oracles)
    returns (outcome: Outcome)
    ensures outcome == Processed(pdf, dataPath, imgDir, tuning, chunking, o)
  {
    var texts := o.extract(ExtractionFor(pdf, imgDir, tuning, chunking));
    var pass := GetAiChunks(texts, tuning.waitSeconds, imgDir, o.ai, o.decode, o.show);
    if pass.StillRetrying? {
      return Unfinished;
    }
    if pass.PauseRaised? {
      return PauseRefused;
    }
    var records := pass.records;
    if records == [] {
      return NothingChunked;
    }
    var (subject, lesson) := PdfNames(pdf, dataPath);
    var metadatas := Metadatas(records, pdf, lesson, subject);
    if metadatas.None? {
      return Raised;
    }
    var chunkTexts := CollectTexts(records);
    if chunkTexts.None? {
      return Raised;
    }
    outcome := Guarded(chunkTexts.value, metadatas.value);
  }

  /** `main`, with the loop over the listed PDFs and its `break`. */
  method Start(env: map<string, string>, modelLoads: bool, o: Oracles) returns (outcome: Outcome)
    ensures outcome == RunOutcome(env, modelLoads, o)
  {
    var dataPath := Setting(env, DATA_PATH_KEY, DEFAULT_DATA_PATH);
    var imgDir := Setting(env, IMG_OUTPUT_DIR_KEY, DEFAULT_IMG_OUTPUT_DIR);
    var tuning := TuningOf(env, o.parseFloat);
    if !modelLoads {
      return ModelUnavailable;
    }
    var chunking := ChunkingOf(env);
    var files := o.listPdfs(dataPath);
    outcome := NoFiles;
    for i := 0 to |files|
      invariant i == 0 && outcome == NoFiles
    {
      outcome := ProcessFile(files[i], dataPath, imgDir, tuning, chunking, o);
      break;
    }
  }
}
