/**
 * The bonus adjuster of the AI backend: given the parsed evaluation of an
 * answer it counts the graded items by category, awards up to twenty points
 * and writes the capped final score back into the same document. Every
 * failure (a value of the wrong type anywhere on the way) is caught and the
 * document is returned as it stands at that moment, which may already be
 * partly updated.
 */
module Bonus {
  import opened Wrappers
  import opened PyStrings
  import opened PyJson
  import opened PyNumbers

  const EVALUATION := "evaluacija"
  const ITEMS := "2_ocenjene_stavke"
  const PRELIMINARY := "3_preliminarni_obracun"
  const VALIDATION := "4_finalna_validacija"
  const RESULT := "finalni_rezultat"
  const PRELIMINARY_SCORE := "preliminarna_ocena"
  const CATEGORY := "kategorija"
  const FINAL_SCORE := "konacna_ocena"
  const JUSTIFICATION := "obrazlozenje"
  const NUMERIC := "ocena_numericka"
  const TEXTUAL := "ocena_tekstualna"
  const SUMMARY := "rezime_evaluacije"

  const FULLY := "potpuno_ta\U{010D}an"
  const MOSTLY := "uglavnom_ta\U{010D}an"

  const NOTE_NONE := "Bonus nije primenjen."
  const NOTE_COVERED := "Bonus od 5 poena dodat jer su sve stavke 'pokriveno' ili 'potpuno_pokriveno'."
  const NOTE_DOMINANT := "Ukupni bonus od 10 poena dodat (5 za pokrivenost + 5 za dominaciju 'potpuno_pokriveno')."

  /** 100 points, in hundredths. */
  const MAX_SCORE := 10000

  /** How many graded items fell into each category. */
  datatype Tally = Tally(fully: nat, mostly: nat, other: nat)

  predicate AllDicts(xs: seq<Json>) {
    forall i :: 0 <= i < |xs| ==> xs[i].JObj?
  }

  /** Tallies one item: only the two exact category strings escape "other". */
  function Counted(t: Tally, item: Fields): Tally {
    var category := Lookup(item, CATEGORY);
    if category == Some(JStr(FULLY)) then t.(fully := t.fully + 1)
    else if category == Some(JStr(MOSTLY)) then t.(mostly := t.mostly + 1)
    else t.(other := t.other + 1)
  }

  /** The tally of a list of item dicts, built in list order. */
  function TallyOf(xs: seq<Json>): Tally
    requires AllDicts(xs)
  {
    if xs == [] then Tally(0, 0, 0)
    else Counted(TallyOf(xs[..|xs| - 1]), xs[|xs| - 1].fields)
  }

  /** Every item lands in exactly one category. */
  lemma {:induction false} TallyTotal(xs: seq<Json>)
    requires AllDicts(xs)
    ensures TallyOf(xs).fully + TallyOf(xs).mostly + TallyOf(xs).other == |xs|
  {
    if xs != [] {
      TallyTotal(xs[..|xs| - 1]);
    }
  }

  /** Counting a concatenation adds the counts: the tally ignores how the items are split. */
  lemma {:induction false} TallyAppend(xs: seq<Json>, ys: seq<Json>)
    requires AllDicts(xs) && AllDicts(ys)
    ensures AllDicts(xs + ys)
    ensures TallyOf(xs + ys) == Tally(TallyOf(xs).fully + TallyOf(ys).fully,
                                      TallyOf(xs).mostly + TallyOf(ys).mostly,
                                      TallyOf(xs).other + TallyOf(ys).other)
  {
    assert AllDicts(xs + ys) by {
      forall i | 0 <= i < |xs + ys| ensures (xs + ys)[i].JObj? {
        if i < |xs| { assert (xs + ys)[i] == xs[i]; } else { assert (xs + ys)[i] == ys[i - |xs|]; }
      }
    }
    if ys != [] {
      var init := ys[..|ys| - 1];
      assert (xs + ys)[..|xs + ys| - 1] == xs + init;
      assert (xs + ys)[|xs + ys| - 1] == ys[|ys| - 1];
      TallyAppend(xs, init);
    } else {
      assert xs + ys == xs;
    }
  }

  /** Condition A: at most one item outside the two accepted categories. */
  predicate ConditionA(t: Tally) { t.other < 2 }

  /** Condition B: A holds and fully correct items are at least as many as mostly correct ones. */
  predicate ConditionB(t: Tally) { ConditionA(t) && t.fully >= t.mostly }

  /** The awarded bonus: ten points for A and ten more for B. */
  function BonusPoints(t: Tally): (b: nat)
    ensures b == 0 || b == 10 || b == 20
    ensures b == 0 <==> !ConditionA(t)
    ensures b == 20 <==> ConditionB(t)
  {
    (if ConditionA(t) then 10 else 0) + (if ConditionB(t) then 10 else 0)
  }

  /** The justification written next to the final score: the last condition that held decides it. */
  function BonusNote(t: Tally): string {
    if ConditionB(t) then NOTE_DOMINANT else if ConditionA(t) then NOTE_COVERED else NOTE_NONE
  }

  /** The sentence appended to the evaluation summary. */
  function SummarySuffix(bonus: nat): string {
    " Primenjen je bonus od " + IntToString(bonus) + " poena."
  }

  /** Python's `round` to an integer on a value in hundredths. */
  function RoundHalfEven(h: int): int {
    RoundDiv(h, 100)
  }

  /** The two writes into the validation block. */
  function ValidationWrites(v: Fields, final: int, note: string): Fields {
    Store(Store(v, FINAL_SCORE, JNum(final)), JUSTIFICATION, JStr(note))
  }

  /** `summary += suffix`: a string grows, a list is extended by the suffix's characters, anything else raises. */
  function Appended(summary: Json, suffix: string): Option<Json> {
    match summary
    case JStr(s) => Some(JStr(s + suffix))
    case JArr(xs) => Some(JArr(xs + Iterated(JStr(suffix)).value))
    case _ => None
  }

  /** The writes into the final-result block; a summary `+=` that raises leaves the two score writes in place. */
  function ResultWrites(r: Fields, final: int, bonus: nat): Fields {
    var rounded := RoundHalfEven(final);
    var scored := Store(Store(r, NUMERIC, JNum(100 * rounded)), TEXTUAL, JStr(IntToString(rounded) + "/100"));
    match Lookup(r, SUMMARY)
    case None => scored
    case Some(summary) =>
      match Appended(summary, SummarySuffix(bonus))
      case None => scored
      case Some(grown) => Store(scored, SUMMARY, grown)
  }

  /** What the adjuster has computed once it starts writing. */
  datatype Plan = Plan(final: int, note: string, bonus: nat)

  /**
   * The reads and checks before the first write: None where the adjuster
   * returns the document untouched (nothing to count, no bonus, or a value of
   * the wrong type raising before any write).
   */
  function BonusPlan(podaci: Json): (p: Option<Plan>)
    ensures p.Some? ==> podaci.JObj?
  {
    if !podaci.JObj? then None else
    var top := podaci.fields;
    var evaluation := Get(top, EVALUATION, JObj([]));
    if !evaluation.JObj? then None else
    var ev := evaluation.fields;
    var items := Get(ev, ITEMS, JArr([]));
    var prelimBlock := Get(ev, PRELIMINARY, JObj([]));
    var validation := Get(ev, VALIDATION, JObj([]));
    if !prelimBlock.JObj? then None else
    var prelim := Get(prelimBlock.fields, PRELIMINARY_SCORE, JNum(0));
    if !Truthy(items) then None else
    var elems := Iterated(items);
    if elems.None? || !AllDicts(elems.value) then None else
    var t := TallyOf(elems.value);
    var bonus := BonusPoints(t);
    if bonus == 0 || NumericValue(prelim).None? || !validation.JObj? then None
    else Some(Plan(Min(NumericValue(prelim).value + 100 * bonus, MAX_SCORE), BonusNote(t), bonus))
  }

  /**
   * The writes: into the validation block if the evaluation holds one, then
   * into the result block if the document holds one that is a dict. A block
   * that was absent is a fresh default, so writes into it are lost.
   */
  function WriteBack(top: Fields, p: Plan): Fields {
    var evaluation := Get(top, EVALUATION, JObj([]));
    var ev := if evaluation.JObj? then evaluation.fields else [];
    var validation := Get(ev, VALIDATION, JObj([]));
    var result := Get(top, RESULT, JObj([]));
    var top1 :=
      if HasKey(ev, VALIDATION) && validation.JObj?
      then Store(top, EVALUATION, JObj(Store(ev, VALIDATION, JObj(ValidationWrites(validation.fields, p.final, p.note)))))
      else top;
    if result.JObj? && HasKey(top, RESULT)
    then Store(top1, RESULT, JObj(ResultWrites(result.fields, p.final, p.bonus)))
    else top1
  }

  /** The document after the bonus adjuster, in every case including the caught failures. */
  function BonusOutcome(podaci: Json): Json {
    match BonusPlan(podaci)
    case None => podaci
    case Some(p) => JObj(WriteBack(podaci.fields, p))
  }

  /** One dict step on an optional value: `d[key]` where `d` is a dict holding `key`. */
  function Child(o: Option<Json>, key: string): Option<Json> {
    match o
    case None => None
    case Some(v) => if v.JObj? then Lookup(v.fields, key) else None
  }

  /** The value reached from `o` along a path of dict keys. */
  function Walk(o: Option<Json>, path: seq<string>): Option<Json>
    decreases |path|
  {
    if path == [] then o else Walk(Child(o, path[0]), path[1..])
  }

  /** The value at a path of dict keys. */
  function At(v: Json, path: seq<string>): Option<Json> {
    Walk(Some(v), path)
  }

  lemma AtSteps(v: Json, a: string, b: string, c: string)
    ensures At(v, [a]) == Child(Some(v), a)
    ensures At(v, [a, b]) == Child(Child(Some(v), a), b)
    ensures At(v, [a, b, c]) == Child(Child(Child(Some(v), a), b), c)
  {
    var ca := Child(Some(v), a);
    var cb := Child(ca, b);
    assert [a][1..] == [] && [b][1..] == [] && [c][1..] == [];
    assert [a, b][1..] == [b] && [b, c][1..] == [c] && [a, b, c][1..] == [b, c];
    assert Walk(cb, [c]) == Walk(Child(cb, c), []);
    assert Walk(ca, [b]) == Walk(cb, []);
    assert Walk(ca, [b, c]) == Walk(cb, [c]);
    assert Walk(Some(v), [a]) == Walk(ca, []);
    assert Walk(Some(v), [a, b]) == Walk(ca, [b]);
    assert Walk(Some(v), [a, b, c]) == Walk(ca, [b, c]);
  }

  /** Counts the items' categories; fails exactly where Python's loop would raise. */
  method CountCategories(items: Json) returns (ok: bool, t: Tally)
    ensures ok <==> Iterated(items).Some? && AllDicts(Iterated(items).value)
    ensures ok ==> t == TallyOf(Iterated(items).value)
  {
    t := Tally(0, 0, 0);
    var elems := Iterated(items);
    if elems.None? {
      return false, t;
    }
    var xs := elems.value;
    var i := 0;
    while i < |xs|
      invariant 0 <= i <= |xs|
      invariant AllDicts(xs[..i])
      invariant t == TallyOf(xs[..i])
    {
      if !xs[i].JObj? {
        return false, t;
      }
      var category := Lookup(xs[i].fields, CATEGORY);
      if category == Some(JStr(FULLY)) {
        t := t.(fully := t.fully + 1);
      } else if category == Some(JStr(MOSTLY)) {
        t := t.(mostly := t.mostly + 1);
      } else {
        t := t.(other := t.other + 1);
      }
      assert xs[..i + 1][..i] == xs[..i];
      i := i + 1;
    }
    assert xs[..i] == xs;
    ok := true;
  }

  /** Accumulates the bonus and its justification condition by condition. */
  method ComputeBonus(t: Tally) returns (points: nat, note: string)
    ensures points == BonusPoints(t) && note == BonusNote(t)
  {
    var conditionA := t.other < 2;
    var conditionB := conditionA && t.fully >= t.mostly;
    points := 0;
    note := NOTE_NONE;
    if conditionA {
      points := points + 10;
      note := NOTE_COVERED;
    }
    if conditionB {
      points := points + 10;
      note := NOTE_DOMINANT;
    }
  }

  /** The parsed evaluation, updated in place by the adjuster. */
  class EvaluationDocument {
    var root: Json

    constructor (podaci: Json)
      ensures root == podaci
    {
      root := podaci;
    }

    method ApplyBonus()
      modifies this
      ensures root == BonusOutcome(old(root))
    {
      var planned, plan := PlanBonus();
      if planned {
        WriteBonus(plan);
      }
    }

    /** The reads and checks before the first write, on the document as it stands. */
    method PlanBonus() returns (planned: bool, plan: Plan)
      ensures planned <==> BonusPlan(root).Some?
      ensures planned ==> plan == BonusPlan(root).value
    {
      plan := Plan(0, "", 0);
      if !root.JObj? {
        return false, plan;
      }
      var top := root.fields;
      var evaluation := Get(top, EVALUATION, JObj([]));
      if !evaluation.JObj? {
        return false, plan;
      }
      var ev := evaluation.fields;
      var items := Get(ev, ITEMS, JArr([]));
      var prelimBlock := Get(ev, PRELIMINARY, JObj([]));
      var validation := Get(ev, VALIDATION, JObj([]));
      if !prelimBlock.JObj? {
        return false, plan;
      }
      var prelim := Get(prelimBlock.fields, PRELIMINARY_SCORE, JNum(0));
      if !Truthy(items) {
        return false, plan;
      }
      var counted, t := CountCategories(items);
      if !counted {
        return false, plan;
      }
      var bonus, note := ComputeBonus(t);
      if bonus == 0 {
        return false, plan;
      }
      var p := NumericValue(prelim);
      if p.None? || !validation.JObj? {
        return false, plan;
      }
      return true, Plan(Min(p.value + 100 * bonus, MAX_SCORE), note, bonus);
    }

    /** The writes, in the order the adjuster makes them. */
    method WriteBonus(plan: Plan)
      requires root.JObj?
      modifies this
      ensures root == JObj(WriteBack(old(root).fields, plan))
    {
      var top := root.fields;
      var evaluation := Get(top, EVALUATION, JObj([]));
      var ev := if evaluation.JObj? then evaluation.fields else [];
      var validation := Get(ev, VALIDATION, JObj([]));
      var result := Get(top, RESULT, JObj([]));
      // a validation block that was absent is a fresh default: writing to it changes nothing
      if HasKey(ev, VALIDATION) && validation.JObj? {
        var written := ValidationWrites(validation.fields, plan.final, plan.note);
        root := JObj(Store(top, EVALUATION, JObj(Store(ev, VALIDATION, JObj(written)))));
      }
      if !result.JObj? || !HasKey(top, RESULT) {
        return;
      }
      root := JObj(Store(root.fields, RESULT, JObj(ResultWrites(result.fields, plan.final, plan.bonus))));
    }
  }

  /** Nothing is written when there are no graded items, or when two or more fall outside both accepted categories. */
  lemma NoBonusNoChange(podaci: Json)
    ensures At(podaci, [EVALUATION, ITEMS]) == Some(JArr([])) ==> BonusOutcome(podaci) == podaci
    ensures (forall items :: At(podaci, [EVALUATION, ITEMS]) == Some(JArr(items)) && AllDicts(items) ==>
               TallyOf(items).other >= 2) ==> BonusOutcome(podaci) == podaci
  {
    AtSteps(podaci, EVALUATION, ITEMS, ITEMS);
  }

  /**
   * The bonus applies to a document: dict-shaped blocks where the code reads
   * them, a non-empty list of item dicts earning a bonus, a numeric
   * preliminary score, and a validation block present in the evaluation.
   */
  predicate Applies(podaci: Json, items: seq<Json>, pf: Fields, v: Fields) {
    && At(podaci, [EVALUATION, ITEMS]) == Some(JArr(items))
    && items != [] && AllDicts(items) && BonusPoints(TallyOf(items)) > 0
    && At(podaci, [EVALUATION, PRELIMINARY]) == Some(JObj(pf))
    && NumericValue(Get(pf, PRELIMINARY_SCORE, JNum(0))).Some?
    && At(podaci, [EVALUATION, VALIDATION]) == Some(JObj(v))
  }

  /** The capped final score such a document receives, in hundredths: never above 100, and above a preliminary score below 100. */
  function FinalScore(items: seq<Json>, pf: Fields): (f: int)
    requires AllDicts(items) && NumericValue(Get(pf, PRELIMINARY_SCORE, JNum(0))).Some?
    ensures f <= MAX_SCORE
    ensures BonusPoints(TallyOf(items)) > 0 && NumericValue(Get(pf, PRELIMINARY_SCORE, JNum(0))).value < MAX_SCORE ==>
              NumericValue(Get(pf, PRELIMINARY_SCORE, JNum(0))).value < f
    ensures f == MAX_SCORE || f == NumericValue(Get(pf, PRELIMINARY_SCORE, JNum(0))).value + 100 * BonusPoints(TallyOf(items))
  {
    Min(NumericValue(Get(pf, PRELIMINARY_SCORE, JNum(0))).value + 100 * BonusPoints(TallyOf(items)), MAX_SCORE)
  }

  /** Such a document goes on to the writes with the capped score, the justification and the bonus. */
  lemma AppliedPlan(podaci: Json, items: seq<Json>, pf: Fields, v: Fields)
    requires Applies(podaci, items, pf, v)
    ensures BonusPlan(podaci) == Some(Plan(FinalScore(items, pf), BonusNote(TallyOf(items)), BonusPoints(TallyOf(items))))
  {
    AtSteps(podaci, EVALUATION, ITEMS, ITEMS);
    AtSteps(podaci, EVALUATION, PRELIMINARY, ITEMS);
    AtSteps(podaci, EVALUATION, VALIDATION, ITEMS);
  }

  /** A score written into a result block reads back, whatever happens to the summary. */
  lemma ResultWritesRead(r: Fields, final: int, bonus: nat)
    ensures Lookup(ResultWrites(r, final, bonus), NUMERIC) == Some(JNum(100 * RoundHalfEven(final)))
    ensures Lookup(ResultWrites(r, final, bonus), TEXTUAL) == Some(JStr(IntToString(RoundHalfEven(final)) + "/100"))
    ensures Lookup(r, SUMMARY).Some? ==>
              Lookup(ResultWrites(r, final, bonus), SUMMARY) ==
              Some(Appended(Lookup(r, SUMMARY).value, SummarySuffix(bonus)).GetOr(Lookup(r, SUMMARY).value))
    ensures Lookup(r, SUMMARY).None? ==> Lookup(ResultWrites(r, final, bonus), SUMMARY).None?
    ensures forall key :: key != NUMERIC && key != TEXTUAL && key != SUMMARY ==>
              Lookup(ResultWrites(r, final, bonus), key) == Lookup(r, key)
  {
    var rounded := RoundHalfEven(final);
    var numbered := Store(r, NUMERIC, JNum(100 * rounded));
    var scored := Store(numbered, TEXTUAL, JStr(IntToString(rounded) + "/100"));
    StoreLookup(numbered, TEXTUAL, JStr(IntToString(rounded) + "/100"), NUMERIC);
    StoreLookup(r, NUMERIC, JNum(100 * rounded), SUMMARY);
    StoreLookup(numbered, TEXTUAL, JStr(IntToString(rounded) + "/100"), SUMMARY);
    forall key | key != NUMERIC && key != TEXTUAL
      ensures Lookup(scored, key) == Lookup(r, key)
    {
      StoreLookup(r, NUMERIC, JNum(100 * rounded), key);
      StoreLookup(numbered, TEXTUAL, JStr(IntToString(rounded) + "/100"), key);
    }
    var summary := Lookup(r, SUMMARY);
    if summary.Some? && Appended(summary.value, SummarySuffix(bonus)).Some? {
      var grown := Appended(summary.value, SummarySuffix(bonus)).value;
      StoreLookup(scored, SUMMARY, grown, NUMERIC);
      StoreLookup(scored, SUMMARY, grown, TEXTUAL);
      forall key | key != NUMERIC && key != TEXTUAL && key != SUMMARY
        ensures Lookup(Store(scored, SUMMARY, grown), key) == Lookup(r, key)
      {
        StoreLookup(scored, SUMMARY, grown, key);
      }
    }
  }

  /** Both writes into a validation block read back, nothing else in it changes, and writing twice is writing once. */
  lemma ValidationWritesRead(v: Fields, final: int, note: string)
    ensures Lookup(ValidationWrites(v, final, note), FINAL_SCORE) == Some(JNum(final))
    ensures Lookup(ValidationWrites(v, final, note), JUSTIFICATION) == Some(JStr(note))
    ensures forall key :: key != FINAL_SCORE && key != JUSTIFICATION ==>
              Lookup(ValidationWrites(v, final, note), key) == Lookup(v, key)
    ensures ValidationWrites(ValidationWrites(v, final, note), final, note) == ValidationWrites(v, final, note)
  {
    var w := ValidationWrites(v, final, note);
    StoreLookup(Store(v, FINAL_SCORE, JNum(final)), JUSTIFICATION, JStr(note), FINAL_SCORE);
    StoreLookup(v, FINAL_SCORE, JNum(final), FINAL_SCORE);
    forall key | key != FINAL_SCORE && key != JUSTIFICATION
      ensures Lookup(w, key) == Lookup(v, key)
    {
      StoreLookup(v, FINAL_SCORE, JNum(final), key);
      StoreLookup(Store(v, FINAL_SCORE, JNum(final)), JUSTIFICATION, JStr(note), key);
    }
    StoreSame(w, FINAL_SCORE, JNum(final));
    StoreSame(w, JUSTIFICATION, JStr(note));
  }

  /** What the writes leave at each key, one level down at a time. */
  lemma {:induction false} WriteBackReads(top: Fields, p: Plan, key: string)
    ensures var ev := if Get(top, EVALUATION, JObj([])).JObj? then Get(top, EVALUATION, JObj([])).fields else [];
            var validation := Get(ev, VALIDATION, JObj([]));
            var written := HasKey(ev, VALIDATION) && validation.JObj?;
            var out := WriteBack(top, p);
            && (key != EVALUATION && key != RESULT ==> Lookup(out, key) == Lookup(top, key))
            && (written ==> Lookup(out, EVALUATION) == Some(JObj(Store(ev, VALIDATION, JObj(ValidationWrites(validation.fields, p.final, p.note))))))
            && (!written ==> Lookup(out, EVALUATION) == Lookup(top, EVALUATION))
            && (Get(top, RESULT, JObj([])).JObj? && HasKey(top, RESULT) ==>
                  Lookup(out, RESULT) == Some(JObj(ResultWrites(Get(top, RESULT, JObj([])).fields, p.final, p.bonus))))
            && (!(Get(top, RESULT, JObj([])).JObj? && HasKey(top, RESULT)) ==> Lookup(out, RESULT) == Lookup(top, RESULT))
  {
    var evaluation := Get(top, EVALUATION, JObj([]));
    var ev := if evaluation.JObj? then evaluation.fields else [];
    var validation := Get(ev, VALIDATION, JObj([]));
    var result := Get(top, RESULT, JObj([]));
    var top1 := top;
    if HasKey(ev, VALIDATION) && validation.JObj? {
      var ev1 := JObj(Store(ev, VALIDATION, JObj(ValidationWrites(validation.fields, p.final, p.note))));
      top1 := Store(top, EVALUATION, ev1);
      StoreLookup(top, EVALUATION, ev1, key);
      StoreLookup(top, EVALUATION, ev1, RESULT);
    }
    if result.JObj? && HasKey(top, RESULT) {
      var r1 := JObj(ResultWrites(result.fields, p.final, p.bonus));
      StoreLookup(top1, RESULT, r1, key);
      StoreLookup(top1, RESULT, r1, EVALUATION);
    }
  }

  /**
   * The validation block of a document the bonus applies to holds the capped
   * sum and its justification, even when a later write into the result block
   * raises.
   */
  lemma {:induction false} ValidationWritten(podaci: Json, items: seq<Json>, pf: Fields, v: Fields)
    requires Applies(podaci, items, pf, v)
    ensures var final := FinalScore(items, pf);
            var note := BonusNote(TallyOf(items));
            var out := BonusOutcome(podaci);
            && At(out, [EVALUATION, VALIDATION]) == Some(JObj(ValidationWrites(v, final, note)))
            && At(out, [EVALUATION, VALIDATION, FINAL_SCORE]) == Some(JNum(final))
            && At(out, [EVALUATION, VALIDATION, JUSTIFICATION]) == Some(JStr(note))
  {
    AppliedPlan(podaci, items, pf, v);
    AtSteps(podaci, EVALUATION, VALIDATION, VALIDATION);
    var p := BonusPlan(podaci).value;
    var ev := Lookup(podaci.fields, EVALUATION).value.fields;
    WriteBackReads(podaci.fields, p, EVALUATION);
    StoreLookup(ev, VALIDATION, JObj(ValidationWrites(v, p.final, p.note)), VALIDATION);
    ValidationWritesRead(v, p.final, p.note);
    var out := BonusOutcome(podaci);
    AtSteps(out, EVALUATION, VALIDATION, FINAL_SCORE);
    AtSteps(out, EVALUATION, VALIDATION, JUSTIFICATION);
  }

  /**
   * With a result block present as well, it shows the final score rounded
   * half to even, as a number and as "n/100", and a string summary gains the
   * bonus sentence.
   */
  lemma {:induction false} ResultWritten(podaci: Json, items: seq<Json>, pf: Fields, v: Fields, r: Fields)
    requires Applies(podaci, items, pf, v)
    requires At(podaci, [RESULT]) == Some(JObj(r))
    ensures var final := FinalScore(items, pf);
            var bonus := BonusPoints(TallyOf(items));
            var out := BonusOutcome(podaci);
            && At(out, [RESULT]) == Some(JObj(ResultWrites(r, final, bonus)))
            && At(out, [RESULT, NUMERIC]) == Some(JNum(100 * RoundHalfEven(final)))
            && At(out, [RESULT, TEXTUAL]) == Some(JStr(IntToString(RoundHalfEven(final)) + "/100"))
            && (forall s :: Lookup(r, SUMMARY) == Some(JStr(s)) ==>
                  At(out, [RESULT, SUMMARY]) == Some(JStr(s + SummarySuffix(bonus))))
  {
    AppliedPlan(podaci, items, pf, v);
    AtSteps(podaci, RESULT, NUMERIC, NUMERIC);
    var p := BonusPlan(podaci).value;
    WriteBackReads(podaci.fields, p, RESULT);
    ResultWritesRead(r, p.final, p.bonus);
    var out := BonusOutcome(podaci);
    AtSteps(out, RESULT, NUMERIC, NUMERIC);
    AtSteps(out, RESULT, TEXTUAL, NUMERIC);
    AtSteps(out, RESULT, SUMMARY, NUMERIC);
  }

  /**
   * The adjuster writes only the score fields: every other key, at the top,
   * in the evaluation, in the validation block and in the result block, reads
   * as before; a result entry that is not a dict is left as it is.
   */
  lemma {:induction false} OnlyScoreFieldsChange(podaci: Json, key: string)
    ensures BonusOutcome(podaci).JObj? == podaci.JObj?
    ensures key != EVALUATION && key != RESULT ==> At(BonusOutcome(podaci), [key]) == At(podaci, [key])
    ensures key != VALIDATION ==> At(BonusOutcome(podaci), [EVALUATION, key]) == At(podaci, [EVALUATION, key])
    ensures key != FINAL_SCORE && key != JUSTIFICATION ==>
              At(BonusOutcome(podaci), [EVALUATION, VALIDATION, key]) == At(podaci, [EVALUATION, VALIDATION, key])
    ensures key != NUMERIC && key != TEXTUAL && key != SUMMARY ==>
              At(BonusOutcome(podaci), [RESULT, key]) == At(podaci, [RESULT, key])
    ensures At(podaci, [RESULT]).Some? && !At(podaci, [RESULT]).value.JObj? ==>
              At(BonusOutcome(podaci), [RESULT]) == At(podaci, [RESULT])
  {
    if key != EVALUATION && key != RESULT {
      KeptAtTop(podaci, key);
    }
    if key != VALIDATION {
      KeptInEvaluation(podaci, key);
    }
    if key != FINAL_SCORE && key != JUSTIFICATION {
      KeptInValidation(podaci, key);
    }
    KeptInResult(podaci, key);
  }

  lemma KeptAtTop(podaci: Json, key: string)
    requires key != EVALUATION && key != RESULT
    ensures At(BonusOutcome(podaci), [key]) == At(podaci, [key])
  {
    AtSteps(podaci, key, key, key);
    AtSteps(BonusOutcome(podaci), key, key, key);
    if BonusPlan(podaci).Some? {
      WriteBackReads(podaci.fields, BonusPlan(podaci).value, key);
    }
  }

  lemma KeptInEvaluation(podaci: Json, key: string)
    requires key != VALIDATION
    ensures At(BonusOutcome(podaci), [EVALUATION, key]) == At(podaci, [EVALUATION, key])
  {
    AtSteps(podaci, EVALUATION, key, key);
    AtSteps(BonusOutcome(podaci), EVALUATION, key, key);
    if BonusPlan(podaci).Some? {
      var p := BonusPlan(podaci).value;
      var top := podaci.fields;
      WriteBackReads(top, p, key);
      var evaluation := Get(top, EVALUATION, JObj([]));
      var ev := if evaluation.JObj? then evaluation.fields else [];
      var validation := Get(ev, VALIDATION, JObj([]));
      if HasKey(ev, VALIDATION) && validation.JObj? {
        StoreLookup(ev, VALIDATION, JObj(ValidationWrites(validation.fields, p.final, p.note)), key);
      }
    }
  }

  lemma KeptInValidation(podaci: Json, key: string)
    requires key != FINAL_SCORE && key != JUSTIFICATION
    ensures At(BonusOutcome(podaci), [EVALUATION, VALIDATION, key]) == At(podaci, [EVALUATION, VALIDATION, key])
  {
    AtSteps(podaci, EVALUATION, VALIDATION, key);
    AtSteps(BonusOutcome(podaci), EVALUATION, VALIDATION, key);
    if BonusPlan(podaci).Some? {
      var p := BonusPlan(podaci).value;
      var top := podaci.fields;
      WriteBackReads(top, p, key);
      var evaluation := Get(top, EVALUATION, JObj([]));
      var ev := if evaluation.JObj? then evaluation.fields else [];
      var validation := Get(ev, VALIDATION, JObj([]));
      if HasKey(ev, VALIDATION) && validation.JObj? {
        StoreLookup(ev, VALIDATION, JObj(ValidationWrites(validation.fields, p.final, p.note)), VALIDATION);
        ValidationWritesRead(validation.fields, p.final, p.note);
      }
    }
  }

  lemma KeptInResult(podaci: Json, key: string)
    ensures key != NUMERIC && key != TEXTUAL && key != SUMMARY ==>
              At(BonusOutcome(podaci), [RESULT, key]) == At(podaci, [RESULT, key])
    ensures At(podaci, [RESULT]).Some? && !At(podaci, [RESULT]).value.JObj? ==>
              At(BonusOutcome(podaci), [RESULT]) == At(podaci, [RESULT])
  {
    AtSteps(podaci, RESULT, key, key);
    AtSteps(BonusOutcome(podaci), RESULT, key, key);
    if BonusPlan(podaci).Some? {
      var p := BonusPlan(podaci).value;
      var top := podaci.fields;
      WriteBackReads(top, p, key);
      var result := Get(top, RESULT, JObj([]));
      if result.JObj? && HasKey(top, RESULT) {
        ResultWritesRead(result.fields, p.final, p.bonus);
      }
    }
  }

  /**
   * Running the adjuster a second time leaves the scores where the first run
   * put them, but a string summary gains the bonus sentence once more.
   */
  lemma {:induction false} ReapplyKeepsScores(podaci: Json, items: seq<Json>, pf: Fields, v: Fields, r: Fields)
    requires Applies(podaci, items, pf, v)
    requires At(podaci, [RESULT]) == Some(JObj(r))
    ensures var once := BonusOutcome(podaci);
            var twice := BonusOutcome(once);
            && At(twice, [EVALUATION, VALIDATION]) == At(once, [EVALUATION, VALIDATION])
            && At(twice, [RESULT, NUMERIC]) == At(once, [RESULT, NUMERIC])
            && At(twice, [RESULT, TEXTUAL]) == At(once, [RESULT, TEXTUAL])
            && (forall s :: Lookup(r, SUMMARY) == Some(JStr(s)) ==>
                  At(twice, [RESULT, SUMMARY]) == Some(JStr(s + SummarySuffix(BonusPoints(TallyOf(items))) + SummarySuffix(BonusPoints(TallyOf(items))))))
  {
    var once := BonusOutcome(podaci);
    var final := FinalScore(items, pf);
    var note := BonusNote(TallyOf(items));
    var bonus := BonusPoints(TallyOf(items));
    ValidationWritten(podaci, items, pf, v);
    ResultWritten(podaci, items, pf, v, r);
    OnlyScoreFieldsChange(podaci, ITEMS);
    OnlyScoreFieldsChange(podaci, PRELIMINARY);
    var v1 := ValidationWrites(v, final, note);
    var r1 := ResultWrites(r, final, bonus);
    assert Applies(once, items, pf, v1);
    ValidationWritten(once, items, pf, v1);
    ValidationWritesRead(v, final, note);
    ResultWritten(once, items, pf, v1, r1);
    ResultWritesRead(r, final, bonus);
    forall s | Lookup(r, SUMMARY) == Some(JStr(s))
      ensures At(BonusOutcome(once), [RESULT, SUMMARY]) == Some(JStr(s + SummarySuffix(bonus) + SummarySuffix(bonus)))
    {
      assert Lookup(r1, SUMMARY) == Some(JStr(s + SummarySuffix(bonus)));
    }
  }
}
