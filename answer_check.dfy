/**
 * The two routes of the RAG answer server: `/pitanje` answers a question from
 * the retrieved context, and `/proveri-odgovor` has a model grade an existing
 * answer against that context and splits its reply into a grade and an
 * explanation at the markers `OCENA:` and `OBJAŠNJENJE:`. The models (the
 * rephrasing, answering and checking calls) and the vector search are
 * parameters.
 */
module AnswerCheck {
  import opened Wrappers
  import opened PyStrings

  const GRADE_MARKER := "OCENA:"
  const EXPLANATION_MARKER := "OBJA\U{0160}NJENJE:"
  /** The grade reported when the reply does not have both markers. */
  const PARSE_ERROR := "GRE\U{0160}KA_U_PARSIRANJU"
  /** Retrieved page contents are joined with this line. */
  const CONTEXT_SEPARATOR := "\n---\n"
  /** How many pages each route retrieves. */
  const ASK_RESULTS := 4
  const CHECK_RESULTS := 5

  // ---------------------------------------------------------------
  // Parsing the checker's reply
  // ---------------------------------------------------------------

  datatype Verdict = Verdict(grade: string, explanation: string)

  /**
   * `reply.split("OCENA:")[1].split("OBJAŠNJENJE:")[0].strip()` and
   * `reply.split("OBJAŠNJENJE:")[1].strip()`; either index failing is the
   * IndexError that gives the error grade and the whole reply.
   */
  function ParseVerdict(reply: string): Verdict {
    var byGrade := Split(reply, GRADE_MARKER);
    var byExplanation := Split(reply, EXPLANATION_MARKER);
    if |byGrade| < 2 || |byExplanation| < 2 then Verdict(PARSE_ERROR, reply)
    else Verdict(Strip(Split(byGrade[1], EXPLANATION_MARKER)[0]), Strip(byExplanation[1]))
  }

  /** The reply the prompt asks for: a grade line, then an explanation line. */
  function Formatted(grade: string, explanation: string): string {
    GRADE_MARKER + " " + grade + "\n" + EXPLANATION_MARKER + " " + explanation
  }

  /** Already stripped at both ends. */
  predicate Trimmed(s: string) {
    s == [] || (!IsSpace(s[0]) && !IsSpace(s[|s| - 1]))
  }

  /**
   * The error value comes back, with the whole reply as explanation, exactly
   * when one of the markers is missing: a parsed explanation always lies
   * strictly inside the reply.
   */
  lemma ParseFallback(reply: string)
    ensures !Contains(reply, GRADE_MARKER) || !Contains(reply, EXPLANATION_MARKER)
            <==> ParseVerdict(reply) == Verdict(PARSE_ERROR, reply)
  {
    SplitSecond(reply, GRADE_MARKER);
    SplitSecond(reply, EXPLANATION_MARKER);
    if Contains(reply, GRADE_MARKER) && Contains(reply, EXPLANATION_MARKER) {
      var piece := Split(reply, EXPLANATION_MARKER)[1];
      assert |piece| <= |reply| - |EXPLANATION_MARKER|;
      assert |Strip(piece)| <= |piece|;
    }
  }

  /**
   * With both markers present, the grade is the text after the first
   * `OCENA:`, cut at the next `OCENA:` and then at the first `OBJAŠNJENJE:`,
   * stripped; the explanation is the text between the first and the second
   * `OBJAŠNJENJE:` (or the end), stripped. The grade holds neither marker and
   * the explanation does not hold `OBJAŠNJENJE:`.
   */
  lemma ParseSuccess(reply: string)
    requires Contains(reply, GRADE_MARKER) && Contains(reply, EXPLANATION_MARKER)
    ensures var v := ParseVerdict(reply);
            && v.grade == Strip(Before(Before(After(reply, GRADE_MARKER).value, GRADE_MARKER), EXPLANATION_MARKER))
            && v.explanation == Strip(Before(After(reply, EXPLANATION_MARKER).value, EXPLANATION_MARKER))
            && !Contains(v.grade, GRADE_MARKER) && !Contains(v.grade, EXPLANATION_MARKER)
            && !Contains(v.explanation, EXPLANATION_MARKER)
  {
    SplitSecond(reply, GRADE_MARKER);
    SplitSecond(reply, EXPLANATION_MARKER);
    var between := Before(After(reply, GRADE_MARKER).value, GRADE_MARKER);
    SplitHead(between, EXPLANATION_MARKER);
    var piece := Before(between, EXPLANATION_MARKER);
    var grade := Strip(piece);
    StripTrims(piece);
    if Contains(grade, EXPLANATION_MARKER) {
      ContainsTrans(piece, grade, EXPLANATION_MARKER);
    }
    if Contains(grade, GRADE_MARKER) {
      ContainsTrans(piece, grade, GRADE_MARKER);
      PrefixSuffixContained(between, |piece|);
      ContainsTrans(between, piece, GRADE_MARKER);
    }
    var explained := Before(After(reply, EXPLANATION_MARKER).value, EXPLANATION_MARKER);
    StripTrims(explained);
    if Contains(Strip(explained), EXPLANATION_MARKER) {
      ContainsTrans(explained, Strip(explained), EXPLANATION_MARKER);
    }
  }

  /** `OCENA:` cannot start inside `OBJAŠNJENJE:`, whatever follows it. */
  lemma NoGradeMarkerInExplanationMarker(y: string, j: int)
    requires 0 <= j < |EXPLANATION_MARKER|
    ensures !OccursAt(EXPLANATION_MARKER + y, GRADE_MARKER, j)
  {
    var s := EXPLANATION_MARKER + y;
    if j + |GRADE_MARKER| <= |s| {
      var w := s[j..j + |GRADE_MARKER|];
      assert w[0] == EXPLANATION_MARKER[j] && w[1] == s[j + 1];
      if j == 0 {
        assert w[1] == 'B' != GRADE_MARKER[1];
      } else {
        assert EXPLANATION_MARKER[j] != 'O';
        assert w[0] != GRADE_MARKER[0];
      }
    }
  }

  /**
   * The explanation marker, a space and `y` hold no grade marker before the
   * first one of `y` (used for the grade's side of the round trip).
   */
  lemma GradeSideAfterMarker(x: string, g: string, y: string)
    requires x == " " + g + "\n" && !Contains(g, GRADE_MARKER)
    ensures forall j :: 0 <= j < |x| + |EXPLANATION_MARKER| ==> !OccursAt(x + (EXPLANATION_MARKER + y), GRADE_MARKER, j)
  {
    assert ' ' !in GRADE_MARKER && '\n' !in GRADE_MARKER;
    assert !Contains(x, GRADE_MARKER) by {
      assert x == [] + [' '] + (g + ['\n'] + []);
      ContainsAcrossChar([], ' ', g + ['\n'] + [], GRADE_MARKER);
      ContainsAcrossChar(g, '\n', [], GRADE_MARKER);
    }
    forall j | 0 <= j < |x| + |EXPLANATION_MARKER|
      ensures !OccursAt(x + (EXPLANATION_MARKER + y), GRADE_MARKER, j)
    {
      if j < |x| {
        OccurrenceInPrefix(x, EXPLANATION_MARKER + y, GRADE_MARKER, j);
        assert x[|x| - 1] == '\n';
      } else {
        OccurrenceInSuffix(x, EXPLANATION_MARKER + y, GRADE_MARKER, j);
        NoGradeMarkerInExplanationMarker(y, j - |x|);
      }
    }
  }

  /** In the demanded format, `split("OCENA:")[1]` is the text after the grade marker up to any further one. */
  lemma GradeBetweenMarkers(g: string, e: string)
    ensures var t := (" " + g + "\n") + (EXPLANATION_MARKER + (" " + e));
            |Split(Formatted(g, e), GRADE_MARKER)| >= 2 && Split(Formatted(g, e), GRADE_MARKER)[1] == Before(t, GRADE_MARKER)
  {
    var t := (" " + g + "\n") + (EXPLANATION_MARKER + (" " + e));
    assert Formatted(g, e) == [] + GRADE_MARKER + t;
    assert !Contains([], GRADE_MARKER);
    SplitAfterFreePrefix([], GRADE_MARKER, t);
    SplitHead(t, GRADE_MARKER);
  }

  /** Cutting at the next grade marker leaves the explanation marker in place. */
  lemma CutKeepsExplanationMarker(x: string, g: string, y: string)
    requires x == " " + g + "\n" && !Contains(g, GRADE_MARKER)
    ensures var b := Before(x + (EXPLANATION_MARKER + y), GRADE_MARKER);
            |b| >= |x| + |EXPLANATION_MARKER| && b == x + EXPLANATION_MARKER + b[|x| + |EXPLANATION_MARKER|..]
  {
    var t := x + (EXPLANATION_MARKER + y);
    var b := Before(t, GRADE_MARKER);
    GradeSideAfterMarker(x, g, y);
    var k := |x| + |EXPLANATION_MARKER|;
    assert |b| >= k by {
      match Find(t, GRADE_MARKER)
      case None =>
      case Some(i) =>
        assert OccursAt(t, GRADE_MARKER, i);
    }
    assert b == t[..|b|];
    assert b[..|x|] == x && b[|x|..k] == EXPLANATION_MARKER;
  }

  /** The text after the grade marker, cut at any further one, then at the explanation marker, is the padded grade. */
  lemma GradePiece(x: string, g: string, y: string)
    requires x == " " + g + "\n" && Trimmed(g)
    requires !Contains(g, GRADE_MARKER) && !Contains(g, EXPLANATION_MARKER)
    ensures Strip(Split(Before(x + (EXPLANATION_MARKER + y), GRADE_MARKER), EXPLANATION_MARKER)[0]) == g
  {
    var b := Before(x + (EXPLANATION_MARKER + y), GRADE_MARKER);
    var k := |x| + |EXPLANATION_MARKER|;
    CutKeepsExplanationMarker(x, g, y);
    assert CleanPiece(x, EXPLANATION_MARKER) by {
      assert ' ' !in EXPLANATION_MARKER && '\n' !in EXPLANATION_MARKER;
      assert x == [] + [' '] + (g + ['\n'] + []);
      ContainsAcrossChar([], ' ', g + ['\n'] + [], EXPLANATION_MARKER);
      ContainsAcrossChar(g, '\n', [], EXPLANATION_MARKER);
    }
    SplitAfterFreePrefix(x, EXPLANATION_MARKER, b[k..]);
    StripPadded(" ", g, "\n");
  }

  /** The grade's side of the round trip: the text between the markers, stripped, is the grade. */
  lemma GradeRoundTrip(g: string, e: string)
    requires Trimmed(g)
    requires !Contains(g, GRADE_MARKER) && !Contains(g, EXPLANATION_MARKER)
    ensures |Split(Formatted(g, e), GRADE_MARKER)| >= 2
    ensures Strip(Split(Split(Formatted(g, e), GRADE_MARKER)[1], EXPLANATION_MARKER)[0]) == g
  {
    GradeBetweenMarkers(g, e);
    GradePiece(" " + g + "\n", g, " " + e);
  }

  /** The explanation's side of the round trip: everything after the only `OBJAŠNJENJE:`, stripped. */
  lemma {:induction false} ExplanationRoundTrip(g: string, e: string)
    requires Trimmed(e)
    requires !Contains(g, EXPLANATION_MARKER) && !Contains(e, EXPLANATION_MARKER)
    ensures |Split(Formatted(g, e), EXPLANATION_MARKER)| >= 2
    ensures Strip(Split(Formatted(g, e), EXPLANATION_MARKER)[1]) == e
  {
    var r := Formatted(g, e);
    var head := GRADE_MARKER + " " + g + "\n";
    var y := " " + e;
    assert ' ' !in EXPLANATION_MARKER && '\n' !in EXPLANATION_MARKER;
    assert r == head + EXPLANATION_MARKER + y;
    assert CleanPiece(head, EXPLANATION_MARKER) by {
      assert head == GRADE_MARKER + [' '] + (g + ['\n'] + []);
      ContainsAcrossChar(GRADE_MARKER, ' ', g + ['\n'] + [], EXPLANATION_MARKER);
      ContainsAcrossChar(g, '\n', [], EXPLANATION_MARKER);
      assert head[|head| - 1] == '\n';
    }
    SplitAfterFreePrefix(head, EXPLANATION_MARKER, y);
    assert !Contains(y, EXPLANATION_MARKER) by {
      assert y == [] + [' '] + e;
      ContainsAcrossChar([], ' ', e, EXPLANATION_MARKER);
    }
    SplitAbsent(y, EXPLANATION_MARKER);
    StripPadded(" ", e, "");
    assert " " + e + "" == y;
  }

  /**
   * The format the checking prompt demands parses back to its grade and
   * explanation, when both are stripped, the grade holds neither marker and
   * the explanation does not hold `OBJAŠNJENJE:`.
   */
  lemma FormatRoundTrip(g: string, e: string)
    requires Trimmed(g) && Trimmed(e)
    requires !Contains(g, GRADE_MARKER) && !Contains(g, EXPLANATION_MARKER)
    requires !Contains(e, EXPLANATION_MARKER)
    ensures ParseVerdict(Formatted(g, e)) == Verdict(g, e)
  {
    GradeRoundTrip(g, e);
    ExplanationRoundTrip(g, e);
  }

  // ---------------------------------------------------------------
  // The two routes
  // ---------------------------------------------------------------

  /** The collaborators: the model behind each prompt, and the vector search. */
  datatype Assistant = Assistant(
    rephrase: string -> string,                    // the rephrasing prompt for a question
    search: (string, nat) -> seq<string>,          // page contents of the k nearest chunks
    answer: (string, string) -> string,            // the answering prompt for a context and a question
    check: (string, string, string) -> string)     // the checking prompt for a question, a context and an answer

  /** A route either refuses with 503 (no vector database) or serves a body. */
  datatype Response<T> = Unavailable | Ok(body: T)

  datatype AskReply = AskReply(answer: string, question: string, rephrased: string, context: string)

  datatype CheckReply = CheckReply(grade: string, explanation: string, question: string,
                                   answer: string, context: string)

  /** The retrieved pages for the k nearest chunks, one context text. */
  function Context(a: Assistant, query: string, k: nat): string {
    Join(a.search(query, k), CONTEXT_SEPARATOR)
  }

  /** `/pitanje`: rephrase, retrieve four pages, answer from them. */
  function Ask(dbLoaded: bool, question: string, a: Assistant): Response<AskReply> {
    if !dbLoaded then Unavailable
    else
      var rephrased := Strip(a.rephrase(question));
      var context := Context(a, rephrased, ASK_RESULTS);
      Ok(AskReply(a.answer(context, question), question, rephrased, context))
  }

  /** `/proveri-odgovor`: rephrase, retrieve five pages, have the answer checked, parse the verdict. */
  function CheckAnswer(dbLoaded: bool, question: string, answer: string, a: Assistant): Response<CheckReply> {
    if !dbLoaded then Unavailable
    else
      var context := Context(a, Strip(a.rephrase(question)), CHECK_RESULTS);
      var verdict := ParseVerdict(a.check(question, context, answer));
      Ok(CheckReply(verdict.grade, verdict.explanation, question, answer, context))
  }

  /**
   * No database, no answer. Otherwise the reply quotes the question as asked,
   * answers from the context it reports, and the context is recoverable as
   * the retrieved pages in search order whenever no page contains the
   * separator line or ends in one of its characters.
   */
  lemma AskServes(dbLoaded: bool, question: string, a: Assistant)
    ensures Ask(dbLoaded, question, a).Ok? <==> dbLoaded
    ensures dbLoaded ==>
      var r := Ask(dbLoaded, question, a).body;
      var pages := a.search(r.rephrased, ASK_RESULTS);
      && r.question == question
      && r.answer == a.answer(r.context, question)
      && (pages == [] ==> r.context == [])
      && (pages != [] && (forall k :: 0 <= k < |pages| ==> CleanPiece(pages[k], CONTEXT_SEPARATOR))
          ==> Split(r.context, CONTEXT_SEPARATOR) == pages)
  {
    if dbLoaded {
      var r := Ask(dbLoaded, question, a).body;
      var pages := a.search(r.rephrased, ASK_RESULTS);
      if pages != [] && (forall k :: 0 <= k < |pages| ==> CleanPiece(pages[k], CONTEXT_SEPARATOR)) {
        SplitJoin(pages, CONTEXT_SEPARATOR);
      }
    }
  }

  /**
   * No database, no verdict. Otherwise the reply echoes the question and the
   * answer unchanged, reports the context the checker saw (recoverable as the
   * retrieved pages, as for `/pitanje`), and its grade and explanation are
   * the parsed verdict of the checker's reply.
   */
  lemma CheckEchoes(dbLoaded: bool, question: string, answer: string, a: Assistant)
    ensures CheckAnswer(dbLoaded, question, answer, a).Ok? <==> dbLoaded
    ensures dbLoaded ==>
      var r := CheckAnswer(dbLoaded, question, answer, a).body;
      var pages := a.search(Strip(a.rephrase(question)), CHECK_RESULTS);
      && r.question == question && r.answer == answer
      && Verdict(r.grade, r.explanation) == ParseVerdict(a.check(question, r.context, answer))
      && (pages != [] && (forall k :: 0 <= k < |pages| ==> CleanPiece(pages[k], CONTEXT_SEPARATOR))
          ==> Split(r.context, CONTEXT_SEPARATOR) == pages)
  {
    if dbLoaded {
      var pages := a.search(Strip(a.rephrase(question)), CHECK_RESULTS);
      if pages != [] && (forall k :: 0 <= k < |pages| ==> CleanPiece(pages[k], CONTEXT_SEPARATOR)) {
        SplitJoin(pages, CONTEXT_SEPARATOR);
      }
    }
  }

  /** A checker that answers in the demanded format is reported faithfully. */
  lemma CheckRoundTrip(question: string, answer: string, a: Assistant, g: string, e: string)
    requires Trimmed(g) && Trimmed(e)
    requires !Contains(g, GRADE_MARKER) && !Contains(g, EXPLANATION_MARKER)
    requires !Contains(e, EXPLANATION_MARKER)
    requires a.check(question, Context(a, Strip(a.rephrase(question)), CHECK_RESULTS), answer) == Formatted(g, e)
    ensures var r := CheckAnswer(true, question, answer, a).body;
            r.grade == g && r.explanation == e
  {
    FormatRoundTrip(g, e);
  }
}
