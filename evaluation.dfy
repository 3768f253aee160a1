/**
 * The answer-grading service: a request for a (question, answer) pair is
 * served from a time-limited cache, or goes through a quick triage by the
 * language model (a verdict of 0 or 5 is final), or through detailed
 * grading against an equal-weight checklist the model generates. The model,
 * the JSON decoder and the document search are oracles; the clock is a
 * parameter.
 */
module Evaluation {
  import opened Wrappers
  import opened PyNumbers
  import opened PyStrings
  import opened PyJson

  /** The default lifetime of a cache entry, in seconds. */
  const DEFAULT_TTL_SECONDS := 1800

  const TRIAGE_KEY := "triage_rezultat"
  const RATIONALE_KEY := "obrazlo\U{017E}enje"
  const TRIAGE_SUMMARY := "Evaluacija zavr\U{0161}ena u fazi trija\U{017E}e."
  const ITEMS_KEY := "stavke_za_proveru"
  const TOTAL_KEY := "ukupno_osvojeno_poena"
  const ANALYSIS_KEY := "detaljna_analiza_po_stavkama"
  const SUGGESTIONS_KEY := "suggestedAnswer"
  const NAME_KEY := "name"

  const GRADE := "ocena_numericka"
  const GRADED_ITEMS := "ocenjene_stavke"
  const SUMMARY := "rezime_evaluacije"
  const ITEM := "stavka"
  const MAX_POINTS := "max_poena"

  const NO_CONTEXT := "Nije prona\U{0111}en relevantan kontekst putem paralelne pretrage."
  const CONTEXT_ERROR := "Gre\U{0161}ka pri dobijanju konteksta."
  const RESULT_SEPARATOR := "\n\n---\n\n"

  // ---------------------------------------------------------------
  // Points to grade
  // ---------------------------------------------------------------

  /** The grade 1..4 for points given in hundredths. */
  function Band(points: int): (grade: int)
    ensures 1 <= grade <= 4
  {
    if points >= 6500 then 4
    else if points >= 3900 then 3
    else if points >= 2000 then 2
    else 1
  }

  /** More points never give a lower grade. */
  lemma BandMonotone(p: int, q: int)
    requires p <= q
    ensures Band(p) <= Band(q)
  {
  }

  /** The thresholds 65, 39 and 20 are exactly where the grade steps up. */
  lemma BandThresholds(p: int)
    ensures Band(p) == 4 <==> p >= 6500
    ensures Band(p) >= 3 <==> p >= 3900
    ensures Band(p) >= 2 <==> p >= 2000
  {
  }

  // ---------------------------------------------------------------
  // Suggestion names
  // ---------------------------------------------------------------

  /** The `name` of one suggestion, kept when the suggestion is a dict and the name is truthy. */
  function SuggestionName(p: Json): seq<Json> {
    if p.JObj? && Lookup(p.fields, NAME_KEY).Some? && Truthy(Lookup(p.fields, NAME_KEY).value)
    then [Lookup(p.fields, NAME_KEY).value]
    else []
  }

  /** The kept names of a list of suggestions, in list order. */
  function SuggestionNames(xs: seq<Json>): (r: seq<Json>)
    ensures |r| <= |xs|
    ensures forall i :: 0 <= i < |r| ==> Truthy(r[i])
  {
    if xs == [] then [] else SuggestionName(xs[0]) + SuggestionNames(xs[1..])
  }

  /**
   * `izvadi_sugestije_kao_listu`: no `suggestedAnswer`, or anything but a
   * list under it, gives no names; a list gives its kept names.
   */
  function Suggestions(obj: Fields): (r: seq<Json>)
    ensures Lookup(obj, SUGGESTIONS_KEY).None? ==> r == []
    ensures Lookup(obj, SUGGESTIONS_KEY).Some? && !Lookup(obj, SUGGESTIONS_KEY).value.JArr? ==> r == []
    ensures Lookup(obj, SUGGESTIONS_KEY).Some? && Lookup(obj, SUGGESTIONS_KEY).value.JArr? ==>
      r == SuggestionNames(Lookup(obj, SUGGESTIONS_KEY).value.items)
  {
    match Get(obj, SUGGESTIONS_KEY, JArr([]))
    case JArr(xs) => SuggestionNames(xs)
    case _ => []
  }

  /** Filtering a concatenation is concatenating the filtered parts: order is kept and each element is judged alone. */
  lemma {:induction false} SuggestionNamesAppend(xs: seq<Json>, ys: seq<Json>)
    ensures SuggestionNames(xs + ys) == SuggestionNames(xs) + SuggestionNames(ys)
  {
    if xs == [] {
      assert xs + ys == ys;
    } else {
      assert (xs + ys)[1..] == xs[1..] + ys;
      SuggestionNamesAppend(xs[1..], ys);
    }
  }

  /** A name is kept exactly when some suggestion is a dict whose `name` is that truthy value. */
  lemma {:induction false} SuggestionNamesMembers(xs: seq<Json>, n: Json)
    ensures n in SuggestionNames(xs) <==>
      exists p :: p in xs && p.JObj? && Lookup(p.fields, NAME_KEY) == Some(n) && Truthy(n)
  {
    if xs != [] {
      SuggestionNamesMembers(xs[1..], n);
      assert xs == [xs[0]] + xs[1..];
      if n in SuggestionNames(xs[1..]) {
        var p :| p in xs[1..] && p.JObj? && Lookup(p.fields, NAME_KEY) == Some(n) && Truthy(n);
        assert p in xs;
      }
      if exists p :: p in xs && p.JObj? && Lookup(p.fields, NAME_KEY) == Some(n) && Truthy(n) {
        var p :| p in xs && p.JObj? && Lookup(p.fields, NAME_KEY) == Some(n) && Truthy(n);
        if p != xs[0] {
          assert p in xs[1..];
        }
      }
    }
  }

  /** A dict with a truthy name contributes that name; anything else contributes nothing. */
  lemma SuggestionNamesSingle(p: Json)
    ensures SuggestionNames([p]) == SuggestionName(p)
  {
    assert [p][1..] == [];
  }

  // ---------------------------------------------------------------
  // Model replies
  // ---------------------------------------------------------------

  predicate IsTagChar(c: char) {
    'a' <= c <= 'z' || c == '-'
  }

  /** The length of the leading run of `[a-z-]` characters. */
  function TagRun(s: string): (n: nat)
    ensures n <= |s|
    ensures forall i :: 0 <= i < n ==> IsTagChar(s[i])
    ensures n < |s| ==> !IsTagChar(s[n])
  {
    if s == [] || !IsTagChar(s[0]) then 0 else 1 + TagRun(s[1..])
  }

  /** The length of an opening fence "```tag\n" at the start of `s`, or 0. */
  function OpenFenceLength(s: string): (k: nat)
    ensures k <= |s|
  {
    if |s| >= 3 && s[..3] == "```" then
      var k := 3 + TagRun(s[3..]);
      if k < |s| && s[k] == '\n' then k + 1 else 0
    else 0
  }

  /**
   * A model reply as handed to the JSON decoder: stripped, then without an
   * opening "```tag\n" fence and without a closing "\n```" fence.
   */
  function CleanReply(reply: string): string {
    var s := Strip(reply);
    var k := OpenFenceLength(s);
    if |s| - k >= 4 && s[|s| - 4..] == "\n```" then s[k..|s| - 4] else s[k..]
  }

  /** A string with no whitespace at either end is its own strip, so it is not blank. */
  lemma NotBlank(s: string)
    requires s != [] && !IsSpace(s[0]) && !IsSpace(s[|s| - 1])
    ensures Strip(s) == s && Strip(s) != []
  {
    assert [] + s + [] == s;
    StripPadded([], s, []);
  }

  lemma {:induction false} TagRunOfTag(tag: string, rest: string)
    requires forall i :: 0 <= i < |tag| ==> IsTagChar(tag[i])
    requires rest != [] && !IsTagChar(rest[0])
    ensures TagRun(tag + rest) == |tag|
  {
    if tag != [] {
      assert (tag + rest)[1..] == tag[1..] + rest;
      TagRunOfTag(tag[1..], rest);
    }
  }

  lemma FencedOpening(tag: string, body: string)
    requires forall i :: 0 <= i < |tag| ==> IsTagChar(tag[i])
    ensures OpenFenceLength("```" + tag + "\n" + body + "\n```") == |tag| + 4
  {
    var s := "```" + tag + "\n" + body + "\n```";
    var rest := "\n" + body + "\n```";
    assert s[3..] == tag + rest;
    TagRunOfTag(tag, rest);
    assert s[..3] == "```";
    assert s[3 + |tag|] == '\n';
  }

  /** A body fenced as the model is asked to fence it comes back exactly, whatever it contains. */
  lemma CleanFenced(tag: string, body: string)
    requires forall i :: 0 <= i < |tag| ==> IsTagChar(tag[i])
    ensures CleanReply("```" + tag + "\n" + body + "\n```") == body
  {
    var s := "```" + tag + "\n" + body + "\n```";
    NotBlank(s);
    FencedOpening(tag, body);
    assert s[|s| - 4..] == "\n```";
    assert s[|tag| + 4..|s| - 4] == body;
  }

  /** A reply with no fence and no surrounding whitespace is passed on as it is. */
  lemma CleanUnfenced(body: string)
    requires body == [] || (!IsSpace(body[0]) && !IsSpace(body[|body| - 1]))
    requires |body| < 3 || body[..3] != "```"
    requires |body| < 4 || body[|body| - 4..] != "\n```"
    ensures CleanReply(body) == body
  {
    if body != [] {
      NotBlank(body);
    }
  }

  // ---------------------------------------------------------------
  // Context
  // ---------------------------------------------------------------

  /** What the document search gave: an exception, a value that is not a list, or a list of results shown with `str`. */
  datatype SearchOutcome = SearchRaised | SearchNotList | SearchList(rendered: seq<string>)

  /** Both fixed notices are non-blank. */
  lemma NoticesNotBlank()
    ensures Strip(NO_CONTEXT) != [] && Strip(CONTEXT_ERROR) != []
  {
    assert NO_CONTEXT[|NO_CONTEXT| - 1] == '.' && CONTEXT_ERROR[|CONTEXT_ERROR| - 1] == '.';
    StripTrims(NO_CONTEXT);
    StripTrims(CONTEXT_ERROR);
  }

  /**
   * The context handed to the grading model: the rendered results joined by the
   * separator, or a fixed notice when there is nothing usable; it is never blank.
   */
  function SelectContext(outcome: SearchOutcome): (context: string)
    ensures Strip(context) != []
    ensures outcome.SearchRaised? ==> context == CONTEXT_ERROR
    ensures outcome.SearchNotList? ==> context == NO_CONTEXT
    ensures outcome.SearchList? ==>
              context == (if outcome.rendered != [] && Strip(Join(outcome.rendered, RESULT_SEPARATOR)) != []
                          then Join(outcome.rendered, RESULT_SEPARATOR) else NO_CONTEXT)
  {
    NoticesNotBlank();
    match outcome
    case SearchRaised => CONTEXT_ERROR
    case SearchNotList => NO_CONTEXT
    case SearchList(rendered) =>
      if rendered == [] then NO_CONTEXT
      else
        var joined := Join(rendered, RESULT_SEPARATOR);
        if Strip(joined) == [] then NO_CONTEXT else joined
  }

  /** With two or more results the first one comes first, then the separator, then the rest in search order. */
  lemma ContextOrder(rendered: seq<string>)
    requires |rendered| >= 2
    ensures Join(rendered, RESULT_SEPARATOR) == rendered[0] + RESULT_SEPARATOR + Join(rendered[1..], RESULT_SEPARATOR)
  {
  }

  // ---------------------------------------------------------------
  // Checklist
  // ---------------------------------------------------------------

  /**
   * `round(100 / n, 2)` in hundredths. The binary float nearest to 100/n is
   * an exact tie of the decimal rounding only when it equals 100/n; the two
   * ties it misses are n = 4000 and n = 20000, where the float lies just above
   * the tie and rounds up.
   */
  function Share(n: int): (h: int)
    requires n > 0
    ensures Abs(2 * (10000 - n * h)) <= n
  {
    if n == 4000 then 3 else if n == 20000 then 1 else RoundDiv(10000, n)
  }

  /** One weighted checklist entry. */
  function ChecklistEntry(item: Json, share: int): Json {
    JObj([(ITEM, item), (MAX_POINTS, JNum(share))])
  }

  /** The checklist: one entry per generated item, in order, all carrying the same share. */
  function Checklist(items: seq<Json>): (entries: seq<Json>)
    requires items != []
    ensures |entries| == |items|
    ensures forall i :: 0 <= i < |items| ==>
      && entries[i].JObj?
      && Lookup(entries[i].fields, ITEM) == Some(items[i])
      && Lookup(entries[i].fields, MAX_POINTS) == Some(JNum(Share(|items|)))
  {
    seq(|items|, i requires 0 <= i < |items| => ChecklistEntry(items[i], Share(|items|)))
  }

  /** The sum of the `max_poena` values of a list of entries. */
  function WeightSum(entries: seq<Json>): int {
    if entries == [] then 0
    else
      var w := if entries[0].JObj? then Lookup(entries[0].fields, MAX_POINTS) else None;
      (if w.Some? && w.value.JNum? then w.value.hundredths else 0) + WeightSum(entries[1..])
  }

  lemma {:induction false} WeightSumEqual(entries: seq<Json>, share: int)
    requires forall i :: 0 <= i < |entries| ==> entries[i].JObj? && Lookup(entries[i].fields, MAX_POINTS) == Some(JNum(share))
    ensures WeightSum(entries) == |entries| * share
  {
    if entries != [] {
      WeightSumEqual(entries[1..], share);
    }
  }

  /** The weights of a checklist add up to 100 points, off by at most half a hundredth per item. */
  lemma ChecklistTotal(items: seq<Json>)
    requires items != []
    ensures Abs(2 * (10000 - WeightSum(Checklist(items)))) <= |items|
  {
    WeightSumEqual(Checklist(items), Share(|items|));
  }

  /** The items of the generated checklist, or None when the reply fails or the list is empty. */
  function ChecklistItems(decode: string -> Option<Json>, reply: Option<string>): (items: Option<seq<Json>>)
    ensures items.Some? ==> items.value != []
  {
    match DecodedDict(decode, reply)
    case None => None
    case Some(data) =>
      var listed := Get(data, ITEMS_KEY, JArr([]));
      if !Truthy(listed) then None
      else
        match Iterated(listed)
        case None => None
        case Some(elems) => if elems == [] then None else Some(elems)
  }

  // ---------------------------------------------------------------
  // The request handler
  // ---------------------------------------------------------------

  datatype Request = Request(question: string, answer: string, lesson: Option<string>, subject: Option<string>)

  /** The collaborators the handler calls: each model prompt, the decoder and the search. */
  datatype Oracles = Oracles(
    triage: (string, string) -> Option<string>,
    checklist: string -> Option<string>,
    grade: (string, seq<Json>, string) -> Option<string>,
    search: Request -> SearchOutcome,
    decode: string -> Option<Json>)

  datatype Stage = NoDatabase | TriageStage | ChecklistStage | GradingStage

  /** The HTTP reply: a JSON body, or an error status with the stage that raised it. */
  datatype Reply = Served(body: Json) | Failed(status: int, stage: Stage)

  /** A reply and, when the handler caches it, the data stored under the request's key. */
  datatype Outcome = Outcome(reply: Reply, stored: Option<Json>)

  datatype CacheEntry = CacheEntry(data: Json, timestamp: real)

  /** The cache key of a request. */
  function CacheKey(question: string, answer: string): string {
    question + "::" + answer
  }

  /** Distinct requests can share a key: the separator may occur inside the question or the answer. */
  lemma CacheKeyCollides()
    ensures CacheKey("a::", "b") == CacheKey("a", "::b")
  {
  }

  /** An entry for the key exists and is younger than the lifetime. */
  predicate Fresh(cache: map<string, CacheEntry>, key: string, now: real, ttl: int) {
    key in cache && now - cache[key].timestamp < ttl as real
  }

  /** A reply decoded into a dict, or None where the call, the decoding or a `.get` on a non-dict raises. */
  function DecodedDict(decode: string -> Option<Json>, reply: Option<string>): Option<Fields> {
    match reply
    case None => None
    case Some(text) =>
      match decode(CleanReply(text))
      case Some(JObj(fields)) => Some(fields)
      case _ => None
  }

  /** The triage verdicts that end the evaluation at once. */
  predicate Extreme(verdict: Option<Json>) {
    verdict.Some? && (EqualsInt(verdict.value, 0) || EqualsInt(verdict.value, 5))
  }

  /** The body for an extreme triage verdict. */
  function TriageBody(verdict: Json, triage: Fields): Json {
    JObj([(GRADE, verdict), (GRADED_ITEMS, JArr([])), (SUMMARY, Get(triage, RATIONALE_KEY, JStr(TRIAGE_SUMMARY)))])
  }

  /** The closing sentence of a detailed evaluation. */
  function GradedSummary(total: int): string {
    "Odgovor je detaljno analiziran. Osvojeno je " + Fixed2(total) + "/100 poena, \U{0161}to odgovara oceni "
    + IntToString(Band(total)) + "."
  }

  /** The body for a detailed evaluation with the given total points. */
  function GradedBody(total: int, analysis: Json): Json {
    JObj([(GRADE, JNum(100 * Band(total))), (GRADED_ITEMS, analysis), (SUMMARY, JStr(GradedSummary(total)))])
  }

  /** The detailed grade from the grading model's decoded analysis. */
  function Scored(analysis: Fields): Outcome {
    match NumericValue(Get(analysis, TOTAL_KEY, JNum(0)))
    case None => Outcome(Failed(500, GradingStage), None)
    case Some(total) =>
      var body := GradedBody(total, Get(analysis, ANALYSIS_KEY, JArr([])));
      Outcome(Served(body), Some(body))
  }

  /** Detailed grading of the answer against the checklist of `items` and the selected context. */
  function Detailed(req: Request, o: Oracles, items: seq<Json>): Outcome
    requires items != []
  {
    match DecodedDict(o.decode, o.grade(req.answer, Checklist(items), SelectContext(o.search(req))))
    case None => Outcome(Failed(500, GradingStage), None)
    case Some(analysis) => Scored(analysis)
  }

  /** What follows a decoded triage: the short circuit, or the checklist and detailed grading. */
  function AfterTriage(req: Request, o: Oracles, triage: Fields): Outcome {
    var verdict := Lookup(triage, TRIAGE_KEY);
    if Extreme(verdict) then
      var body := TriageBody(verdict.value, triage);
      Outcome(Served(body), Some(body))
    else
      match ChecklistItems(o.decode, o.checklist(req.question))
      case None => Outcome(Failed(500, ChecklistStage), None)
      case Some(items) => Detailed(req, o, items)
  }

  /** Everything after the cache lookup: triage, then context, checklist and detailed grading. */
  function Grade(req: Request, o: Oracles): Outcome {
    match DecodedDict(o.decode, o.triage(req.question, req.answer))
    case None => Outcome(Failed(500, TriageStage), None)
    case Some(triage) => AfterTriage(req, o, triage)
  }

  /** One request against a cache, a database flag and a lifetime, at time `now`. */
  function Handle(cache: map<string, CacheEntry>, dbLoaded: bool, ttl: int, req: Request, now: real, o: Oracles): Outcome {
    if !dbLoaded then Outcome(Failed(503, NoDatabase), None)
    else if Fresh(cache, CacheKey(req.question, req.answer), now, ttl)
    then Outcome(Served(cache[CacheKey(req.question, req.answer)].data), None)
    else Grade(req, o)
  }

  // ---------------------------------------------------------------
  // Properties of the handler
  // ---------------------------------------------------------------

  /** The three keys of a response body are distinct, so each reads back its own value. */
  lemma ResponseFields(grade: Json, items: Json, summary: Json)
    ensures var f := [(GRADE, grade), (GRADED_ITEMS, items), (SUMMARY, summary)];
            Lookup(f, GRADE) == Some(grade) && Lookup(f, GRADED_ITEMS) == Some(items) && Lookup(f, SUMMARY) == Some(summary)
  {
    var f := [(GRADE, grade), (GRADED_ITEMS, items), (SUMMARY, summary)];
    assert GRADE[|GRADE| - 1] != GRADED_ITEMS[|GRADED_ITEMS| - 1];
    assert |SUMMARY| != |GRADE| && |SUMMARY| != |GRADED_ITEMS|;
    assert f[1..] == [(GRADED_ITEMS, items), (SUMMARY, summary)];
    assert f[1..][1..] == [(SUMMARY, summary)];
    assert Lookup(f, GRADED_ITEMS) == Lookup(f[1..], GRADED_ITEMS);
    assert Lookup(f, SUMMARY) == Lookup(f[1..], SUMMARY) == Lookup(f[1..][1..], SUMMARY);
  }

  /** A fresh entry is served as stored, whatever the collaborators would say, and nothing is written. */
  lemma CacheHit(cache: map<string, CacheEntry>, ttl: int, req: Request, now: real, o: Oracles)
    requires Fresh(cache, CacheKey(req.question, req.answer), now, ttl)
    ensures Handle(cache, true, ttl, req, now, o) == Outcome(Served(cache[CacheKey(req.question, req.answer)].data), None)
  {
  }

  /** Without a fresh entry the cache makes no difference: an expired entry is as good as none. */
  lemma StaleEntryIgnored(c1: map<string, CacheEntry>, c2: map<string, CacheEntry>, ttl: int, req: Request, now: real, o: Oracles)
    requires !Fresh(c1, CacheKey(req.question, req.answer), now, ttl)
    requires !Fresh(c2, CacheKey(req.question, req.answer), now, ttl)
    ensures Handle(c1, true, ttl, req, now, o) == Handle(c2, true, ttl, req, now, o)
  {
  }

  /** Only served bodies are stored, and what is stored is what is served. */
  lemma StoredIsServed(cache: map<string, CacheEntry>, dbLoaded: bool, ttl: int, req: Request, now: real, o: Oracles)
    ensures var out := Handle(cache, dbLoaded, ttl, req, now, o);
            out.stored.Some? ==> out.reply == Served(out.stored.value)
    ensures Handle(cache, dbLoaded, ttl, req, now, o).reply.Failed? ==> Handle(cache, dbLoaded, ttl, req, now, o).stored.None?
  {
  }

  /**
   * An extreme triage verdict is the answer: its grade is the verdict, there
   * are no graded items, the summary is the model's rationale or the default,
   * and neither the search nor the checklist nor the grading model is consulted.
   */
  lemma TriageShortCircuit(req: Request, o: Oracles, o2: Oracles, triage: Fields)
    requires DecodedDict(o.decode, o.triage(req.question, req.answer)) == Some(triage)
    requires Extreme(Lookup(triage, TRIAGE_KEY))
    requires o2.triage == o.triage && o2.decode == o.decode
    ensures var out := Grade(req, o);
            && out == Grade(req, o2)
            && out.reply.Served? && out.stored == Some(out.reply.body)
            && Lookup(out.reply.body.fields, GRADE) == Lookup(triage, TRIAGE_KEY)
            && Lookup(out.reply.body.fields, GRADED_ITEMS) == Some(JArr([]))
            && Lookup(out.reply.body.fields, SUMMARY) == Some(Get(triage, RATIONALE_KEY, JStr(TRIAGE_SUMMARY)))
  {
    assert Grade(req, o) == AfterTriage(req, o, triage);
    assert Grade(req, o2) == AfterTriage(req, o2, triage);
    ResponseFields(Lookup(triage, TRIAGE_KEY).value, JArr([]), Get(triage, RATIONALE_KEY, JStr(TRIAGE_SUMMARY)));
  }

  /** An empty or unusable checklist is an error of the checklist stage, and nothing is graded or stored. */
  lemma EmptyChecklistFails(req: Request, o: Oracles, triage: Fields)
    requires DecodedDict(o.decode, o.triage(req.question, req.answer)) == Some(triage)
    requires !Extreme(Lookup(triage, TRIAGE_KEY))
    requires ChecklistItems(o.decode, o.checklist(req.question)).None?
    ensures Grade(req, o) == Outcome(Failed(500, ChecklistStage), None)
  {
  }

  /** The detailed body carries the band of the total (1 when the total is missing) and the grading model's analysis. */
  lemma GradedByBand(analysis: Fields)
    requires NumericValue(Get(analysis, TOTAL_KEY, JNum(0))).Some?
    ensures var total := NumericValue(Get(analysis, TOTAL_KEY, JNum(0))).value;
            var out := Scored(analysis);
            && out.reply.Served? && out.stored == Some(out.reply.body)
            && Lookup(out.reply.body.fields, GRADE) == Some(JNum(100 * Band(total)))
            && Lookup(out.reply.body.fields, GRADED_ITEMS) == Some(Get(analysis, ANALYSIS_KEY, JArr([])))
            && Lookup(out.reply.body.fields, SUMMARY) == Some(JStr(GradedSummary(total)))
            && (Lookup(analysis, TOTAL_KEY).None? ==> Lookup(out.reply.body.fields, GRADE) == Some(JNum(100)))
  {
    var total := NumericValue(Get(analysis, TOTAL_KEY, JNum(0))).value;
    ResponseFields(JNum(100 * Band(total)), Get(analysis, ANALYSIS_KEY, JArr([])), JStr(GradedSummary(total)));
    if Lookup(analysis, TOTAL_KEY).None? {
      assert total == 0;
      assert Band(0) == 1;
    }
  }

  /**
   * After detailed grading the grade is the band of the total, the grading model saw
   * the equal-weight checklist and the selected context, and the body is stored.
   */
  lemma DetailedRoute(req: Request, o: Oracles, triage: Fields, items: seq<Json>, analysis: Fields)
    requires DecodedDict(o.decode, o.triage(req.question, req.answer)) == Some(triage)
    requires !Extreme(Lookup(triage, TRIAGE_KEY))
    requires ChecklistItems(o.decode, o.checklist(req.question)) == Some(items)
    requires DecodedDict(o.decode, o.grade(req.answer, Checklist(items), SelectContext(o.search(req)))) == Some(analysis)
    ensures Grade(req, o) == Scored(analysis)
  {
    assert Grade(req, o) == AfterTriage(req, o, triage);
    assert AfterTriage(req, o, triage) == Detailed(req, o, items);
  }

  /** A body cached at `now` is served again, unchanged, to the same question and answer until the lifetime runs out. */
  lemma RepeatWithinLifetime(cache: map<string, CacheEntry>, ttl: int, req: Request, now: real, o: Oracles,
                             req2: Request, later: real, o2: Oracles)
    requires Handle(cache, true, ttl, req, now, o).stored.Some?
    requires req2.question == req.question && req2.answer == req.answer
    requires now <= later < now + ttl as real
    ensures var d := Handle(cache, true, ttl, req, now, o).stored.value;
            Handle(cache[CacheKey(req.question, req.answer) := CacheEntry(d, now)], true, ttl, req2, later, o2)
              == Outcome(Served(d), None)
  {
  }

  // ---------------------------------------------------------------
  // The service
  // ---------------------------------------------------------------

  /** Builds the checklist entry by entry. */
  method BuildChecklist(items: seq<Json>) returns (entries: seq<Json>)
    requires items != []
    ensures entries == Checklist(items)
  {
    var share := Share(|items|);
    entries := [];
    for i := 0 to |items|
      invariant entries == Checklist(items)[..i]
    {
      entries := entries + [ChecklistEntry(items[i], share)];
    }
  }

  /** The stages after the cache lookup, run one after the other; the first failure ends the request. */
  method GradeStages(req: Request, o: Oracles) returns (out: Outcome)
    ensures out == Grade(req, o)
  {
    var triage := DecodedDict(o.decode, o.triage(req.question, req.answer));
    if triage.None? {
      return Outcome(Failed(500, TriageStage), None);
    }
    var verdict := Lookup(triage.value, TRIAGE_KEY);
    if Extreme(verdict) {
      var body := TriageBody(verdict.value, triage.value);
      return Outcome(Served(body), Some(body));
    }
    var context := SelectContext(o.search(req));
    var items := ChecklistItems(o.decode, o.checklist(req.question));
    if items.None? {
      return Outcome(Failed(500, ChecklistStage), None);
    }
    var checklist := BuildChecklist(items.value);
    var analysis := DecodedDict(o.decode, o.grade(req.answer, checklist, context));
    if analysis.None? {
      return Outcome(Failed(500, GradingStage), None);
    }
    var total := NumericValue(Get(analysis.value, TOTAL_KEY, JNum(0)));
    if total.None? {
      return Outcome(Failed(500, GradingStage), None);
    }
    var body := GradedBody(total.value, Get(analysis.value, ANALYSIS_KEY, JArr([])));
    return Outcome(Served(body), Some(body));
  }

  /** The running service: its evaluation cache and whether the vector store was loaded at startup. */
  class EvaluationService {
    var cache: map<string, CacheEntry>
    const dbLoaded: bool
    const ttl: int

    constructor (dbLoaded: bool, ttl: int)
      ensures this.cache == map[] && this.dbLoaded == dbLoaded && this.ttl == ttl
    {
      this.cache := map[];
      this.dbLoaded := dbLoaded;
      this.ttl := ttl;
    }

    /** Handles one request: the reply is `Handle`'s, and the cache gains exactly the entry `Handle` stores. */
    method Evaluate(req: Request, now: real, o: Oracles) returns (reply: Reply)
      modifies this
      ensures reply == Handle(old(cache), dbLoaded, ttl, req, now, o).reply
      ensures cache == match Handle(old(cache), dbLoaded, ttl, req, now, o).stored
                       case None => old(cache)
                       case Some(d) => old(cache)[CacheKey(req.question, req.answer) := CacheEntry(d, now)]
    {
      if !dbLoaded {
        return Failed(503, NoDatabase);
      }
      var key := CacheKey(req.question, req.answer);
      if key in cache && now - cache[key].timestamp < ttl as real {
        return Served(cache[key].data);
      }
      var out := GradeStages(req, o);
      if out.stored.Some? {
        cache := cache[key := CacheEntry(out.stored.value, now)];
      }
      return out.reply;
    }
  }
}
