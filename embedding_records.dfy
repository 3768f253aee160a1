/**
 * `object_parser`: the model's JSON reply for one chunk becomes a list of
 * embedding records. Each dict of the reply's top-level list gives one
 * record: an embedding text combining its description, the names of its
 * potential actions (the questions) and its original content, and metadata
 * holding only its keywords. Any exception on the way makes the whole result
 * empty. `json.loads` and `str()` of a non-string value are parameters.
 */
module EmbeddingRecords {
  import opened Wrappers
  import opened PyStrings
  import opened PyJson

  const OPEN_FENCE := "```json\n"
  const CLOSE_FENCE := "\n```"
  const TEXT_KEY := "embedding_text"
  const METADATA_KEY := "metadata"
  const KEYWORDS_KEY := "keywords"
  const CONTEXT_KEY := "context"
  const DESCRIPTION_KEY := "description"
  const ACTIONS_KEY := "potentialAction"
  const NAME_KEY := "name"
  const DESCRIPTION_LABEL := "Deskripcija: "
  const QUESTIONS_LABEL := "\n\nPitanja: "
  const CONTENT_LABEL := "\n\nOriginalni Sadr\U{017E}aj: "

  // ---------------------------------------------------------------
  // The code fence around the reply
  // ---------------------------------------------------------------

  predicate StartsWith(s: string, p: string) {
    |p| <= |s| && s[..|p|] == p
  }

  predicate EndsWith(s: string, q: string) {
    |q| <= |s| && s[|s| - |q|..] == q
  }

  /**
   * `re.sub(r'^\s*```json\n|\n```\s*$', '', t)` on a stripped `t`: the
   * opening fence can only match at the start, the closing one only at the
   * very end, and the closing one only where the opening match has not
   * already consumed its newline.
   */
  function StripFences(t: string): string {
    var from := if StartsWith(t, OPEN_FENCE) then |OPEN_FENCE| else 0;
    var to := if EndsWith(t, CLOSE_FENCE) && |t| - |CLOSE_FENCE| >= from then |t| - |CLOSE_FENCE| else |t|;
    t[from..to]
  }

  /** A reply fenced as the prompt asks, with any padding around it, is its body. */
  lemma FencedBody(p: string, body: string, q: string)
    requires AllSpace(p) && AllSpace(q)
    ensures var t := OPEN_FENCE + body + CLOSE_FENCE;
            Strip(p + t + q) == t && StripFences(t) == body
  {
    var t := OPEN_FENCE + body + CLOSE_FENCE;
    assert t[0] == '`' && t[|t| - 1] == '`';
    StripPadded(p, t, q);
    assert t[..|OPEN_FENCE|] == OPEN_FENCE;
    assert t[|t| - |CLOSE_FENCE|..] == CLOSE_FENCE;
    assert t[|OPEN_FENCE|..|t| - |CLOSE_FENCE|] == body;
  }

  /** An unfenced stripped reply is parsed as it is. */
  lemma UnfencedBody(t: string)
    requires Strip(t) == t && !StartsWith(t, OPEN_FENCE) && !EndsWith(t, CLOSE_FENCE)
    ensures StripFences(t) == t
  {
  }

  /** The fences go only at the ends: removing them cuts a prefix and a suffix and nothing else. */
  lemma FencesOnlyAtEnds(t: string)
    ensures exists i, j :: (0 <= i <= j <= |t| && StripFences(t) == t[i..j]
                            && (i == 0 || i == |OPEN_FENCE|) && (j == |t| || j == |t| - |CLOSE_FENCE|))
  {
    var from := if StartsWith(t, OPEN_FENCE) then |OPEN_FENCE| else 0;
    var to := if EndsWith(t, CLOSE_FENCE) && |t| - |CLOSE_FENCE| >= from then |t| - |CLOSE_FENCE| else |t|;
    assert from == 0 || from == |OPEN_FENCE|;
    assert to == |t| || to == |t| - |CLOSE_FENCE|;
    assert 0 <= from <= to <= |t|;
    assert StripFences(t) == t[from..to];
  }

  // ---------------------------------------------------------------
  // One record per dict
  // ---------------------------------------------------------------

  /** `f"{v}"`: a string as it is, anything else through `str()`. */
  function Render(v: Json, show: Json -> string): string {
    if v.JStr? then v.s else show(v)
  }

  /**
   * `[p.get('name', '') for p in ps]`, ready for `" ".join`: None where an
   * element is not a dict (no `get`) or a name is not a string (`join` raises).
   */
  function NamesOf(ps: seq<Json>): (r: Option<seq<string>>)
    ensures r.Some? ==> |r.value| == |ps|
  {
    if ps == [] then Some([])
    else match NamesOf(ps[..|ps| - 1])
      case None => None
      case Some(names) =>
        var p := ps[|ps| - 1];
        if p.JObj? && Get(p.fields, NAME_KEY, JStr("")).JStr?
        then Some(names + [Get(p.fields, NAME_KEY, JStr("")).s])
        else None
  }

  /** Every action is a dict whose name is a string (or absent). */
  predicate WellFormedActions(ps: seq<Json>) {
    forall k :: 0 <= k < |ps| ==> ps[k].JObj? && Get(ps[k].fields, NAME_KEY, JStr("")).JStr?
  }

  /** The names exist iff every action is well formed, and then they are the actions' names in order. */
  lemma {:induction false} NamesOfActions(ps: seq<Json>)
    ensures NamesOf(ps).Some? <==> WellFormedActions(ps)
    ensures NamesOf(ps).Some? ==>
      forall k :: 0 <= k < |ps| ==> NamesOf(ps).value[k] == Get(ps[k].fields, NAME_KEY, JStr("")).s
  {
    if ps != [] {
      var init := ps[..|ps| - 1];
      NamesOfActions(init);
      assert forall k :: 0 <= k < |init| ==> init[k] == ps[k];
    }
  }

  /** The question names of a dict's `potentialAction` (default `[]`), or None where listing them raises. */
  function QuestionNames(obj: Fields): Option<seq<string>> {
    match Iterated(Get(obj, ACTIONS_KEY, JArr([])))
    case None => None
    case Some(ps) => NamesOf(ps)
  }

  /** The embedding text for a description, the joined questions and the content. */
  function EmbeddingText(description: string, questions: string, content: string): string {
    DESCRIPTION_LABEL + description + QUESTIONS_LABEL + questions + CONTENT_LABEL + content
  }

  /** `{"embedding_text": text, "metadata": {"keywords": keywords}}`. */
  function RecordJson(text: string, keywords: Json): Json {
    JObj([(TEXT_KEY, JStr(text)), (METADATA_KEY, JObj([(KEYWORDS_KEY, keywords)]))])
  }

  /** The record for one dict, or None where building it raises. */
  function RecordOf(obj: Fields, show: Json -> string): Option<Json> {
    match QuestionNames(obj)
    case None => None
    case Some(names) =>
      var text := EmbeddingText(Render(Get(obj, DESCRIPTION_KEY, JStr("")), show), Join(names, " "),
                                Render(Get(obj, CONTEXT_KEY, JStr("")), show));
      Some(RecordJson(text, Get(obj, KEYWORDS_KEY, JArr([]))))
  }

  /**
   * A record reads back its text and its keywords, its metadata has no other
   * key, and the question names are recoverable from the joined questions
   * when none of them holds a space.
   */
  lemma RecordFields(obj: Fields, show: Json -> string)
    requires RecordOf(obj, show).Some?
    ensures var r := RecordOf(obj, show).value;
            var names := QuestionNames(obj).value;
            && r.JObj? && |r.fields| == 2
            && Lookup(r.fields, TEXT_KEY) == Some(JStr(EmbeddingText(
                 Render(Get(obj, DESCRIPTION_KEY, JStr("")), show), Join(names, " "),
                 Render(Get(obj, CONTEXT_KEY, JStr("")), show))))
            && Lookup(r.fields, METADATA_KEY) == Some(JObj([(KEYWORDS_KEY, Get(obj, KEYWORDS_KEY, JArr([])))]))
            && (names != [] && (forall k :: 0 <= k < |names| ==> ' ' !in names[k])
                ==> Split(Join(names, " "), " ") == names)
  {
    var names := QuestionNames(obj).value;
    if names != [] && (forall k :: 0 <= k < |names| ==> ' ' !in names[k]) {
      forall k | 0 <= k < |names| ensures CleanPiece(names[k], " ") {
        MissingCharNotContained(names[k], " ", 0);
      }
      SplitJoin(names, " ");
    }
    assert TEXT_KEY != METADATA_KEY by {
      assert |TEXT_KEY| != |METADATA_KEY|;
    }
  }

  /** A dict with none of the keys gives empty fields and no keywords. */
  lemma EmptyDictRecord(show: Json -> string)
    ensures RecordOf([], show) == Some(RecordJson(EmbeddingText("", "", ""), JArr([])))
  {
    assert NamesOf([]) == Some([]);
  }

  /** Building a record raises exactly when some question action is not a dict with a string name. */
  lemma RecordFails(obj: Fields, show: Json -> string)
    ensures RecordOf(obj, show).None? <==>
      match Iterated(Get(obj, ACTIONS_KEY, JArr([])))
      case None => true
      case Some(ps) => !WellFormedActions(ps)
  {
    match Iterated(Get(obj, ACTIONS_KEY, JArr([])))
    case None =>
    case Some(ps) => NamesOfActions(ps);
  }

  // ---------------------------------------------------------------
  // The whole list
  // ---------------------------------------------------------------

  /** The dicts of a list, in order. */
  function Dicts(xs: seq<Json>): (ds: seq<Fields>)
    ensures |ds| <= |xs|
  {
    if xs == [] then []
    else Dicts(xs[..|xs| - 1]) + (if xs[|xs| - 1].JObj? then [xs[|xs| - 1].fields] else [])
  }

  /** One step of the loop: skip a non-dict, append a dict's record, or keep a raised exception. */
  function AddRecord(acc: Option<seq<Json>>, x: Json, show: Json -> string): Option<seq<Json>> {
    match acc
    case None => None
    case Some(rs) =>
      if !x.JObj? then Some(rs)
      else match RecordOf(x.fields, show)
        case None => None
        case Some(r) => Some(rs + [r])
  }

  /** The records of a list's dicts, skipping everything else; None where any record raises. */
  function Records(xs: seq<Json>, show: Json -> string): Option<seq<Json>> {
    if xs == [] then Some([]) else AddRecord(Records(xs[..|xs| - 1], show), xs[|xs| - 1], show)
  }

  /** The records of a longer prefix are one more loop step. */
  lemma RecordsSnoc(xs: seq<Json>, i: nat, show: Json -> string)
    requires i < |xs|
    ensures Records(xs[..i + 1], show) == AddRecord(Records(xs[..i], show), xs[i], show)
  {
    assert xs[..i + 1][..i] == xs[..i];
  }

  /**
   * The records exist iff every dict's record does; then there is one per
   * dict, in the list's order.
   */
  lemma {:induction false} RecordsPerDict(xs: seq<Json>, show: Json -> string)
    ensures Records(xs, show).Some? <==> forall k :: 0 <= k < |Dicts(xs)| ==> RecordOf(Dicts(xs)[k], show).Some?
    ensures Records(xs, show).Some? ==>
      var rs := Records(xs, show).value;
      |rs| == |Dicts(xs)| && forall k :: 0 <= k < |rs| ==> RecordOf(Dicts(xs)[k], show) == Some(rs[k])
  {
    if xs != [] {
      var init := xs[..|xs| - 1];
      RecordsPerDict(init, show);
      var x := xs[|xs| - 1];
      var di := Dicts(init);
      var ds := Dicts(xs);
      assert ds == di + (if x.JObj? then [x.fields] else []);
      assert forall k :: 0 <= k < |di| ==> ds[k] == di[k];
      assert Records(xs, show) == AddRecord(Records(init, show), x, show);
      match Records(init, show)
      case None =>
        var k :| 0 <= k < |di| && RecordOf(di[k], show).None?;
        assert k < |ds| && RecordOf(ds[k], show).None?;
        assert !(forall j :: 0 <= j < |Dicts(xs)| ==> RecordOf(Dicts(xs)[j], show).Some?);
        assert Records(xs, show).None?;
      case Some(rs) =>
        if !x.JObj? {
          assert ds == di;
        } else {
          assert ds[|di|] == x.fields;
          match RecordOf(x.fields, show)
          case None =>
          case Some(r) =>
            var out := rs + [r];
            assert Records(xs, show) == Some(out);
            forall k | 0 <= k < |out| ensures RecordOf(ds[k], show) == Some(out[k]) {
              if k < |rs| {
                assert out[k] == rs[k];
              }
            }
        }
    }
  }

  /** Once a record raises, the rest of the list cannot bring the result back. */
  lemma {:induction false} RecordsAbort(xs: seq<Json>, i: nat, show: Json -> string)
    requires i <= |xs| && Records(xs[..i], show).None?
    ensures Records(xs, show).None?
    decreases |xs| - i
  {
    if i < |xs| {
      RecordsSnoc(xs, i, show);
      RecordsAbort(xs, i + 1, show);
    } else {
      assert xs[..i] == xs;
    }
  }

  /** `object_parser` on the model's reply. */
  function ObjectParser(reply: string, decode: string -> Option<Json>, show: Json -> string): seq<Json> {
    var t := Strip(reply);
    if t == [] then []
    else match decode(StripFences(t))
      case Some(JArr(xs)) => Records(xs, show).GetOr([])
      case _ => []
  }

  /** A blank reply, an undecodable one, or one that is not a list gives no records. */
  lemma NothingToParse(reply: string, decode: string -> Option<Json>, show: Json -> string)
    requires AllSpace(reply) || (Strip(reply) != [] && !(decode(StripFences(Strip(reply))).Some? && decode(StripFences(Strip(reply))).value.JArr?))
    ensures ObjectParser(reply, decode, show) == []
  {
    StripTrims(reply);
  }

  /** `object_parser` as the source runs it: a loop that skips non-dicts and gives up on the first exception. */
  method ParseObjects(reply: string, decode: string -> Option<Json>, show: Json -> string) returns (records: seq<Json>)
    ensures records == ObjectParser(reply, decode, show)
  {
    var t := Strip(reply);
    if t == [] {
      return [];
    }
    var parsed := decode(StripFences(t));
    if !(parsed.Some? && parsed.value.JArr?) {
      return [];
    }
    var xs := parsed.value.items;
    records := [];
    for i := 0 to |xs|
      invariant Records(xs[..i], show) == Some(records)
    {
      RecordsSnoc(xs, i, show);
      if xs[i].JObj? {
        var r := RecordOf(xs[i].fields, show);
        if r.None? {
          RecordsAbort(xs, i + 1, show);
          return [];
        }
        records := records + [r.value];
      }
    }
    assert xs[..|xs|] == xs;
  }
}
