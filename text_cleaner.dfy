/**
 * `ocisti_tekst`: text extracted from a PDF is cleaned in four steps. It is
 * Unicode-normalised (a parameter here), the private-use symbol glyphs of the
 * substitution table are replaced by their ASCII spellings, every character
 * that is not a word character, whitespace or basic punctuation is removed,
 * and whitespace runs become single spaces before the final strip.
 */
module TextCleaner {
  import opened PyStrings

  /** The substitution table, in its insertion (and so iteration) order. */
  const SUBSTITUTIONS: seq<(char, string)> := [
    ('\U{F0B9}', "!="), ('\U{F0A3}', "<="), ('\U{F0B3}', ">="),
    ('\U{F0D9}', " AND "), ('\U{F0DA}', " OR "), ('\U{F0D8}', " NOT "),
    ('\U{F0CE}', " pripada "), ('\U{F0CF}', " ne pripada ")]

  /** The punctuation the filter keeps besides word characters and whitespace. */
  const PUNCTUATION := ".,!?;:\"'()[]{}<>=+/\\-"

  // ---------------------------------------------------------------
  // Substitution
  // ---------------------------------------------------------------

  /** `s.replace(c, r)` for a one-character `c`. */
  function ReplaceChar(s: string, c: char, r: string): (out: string)
    ensures c !in r ==> c !in out
    ensures forall i :: 0 <= i < |out| ==> out[i] in s || out[i] in r
  {
    if s == [] then []
    else
      var rest := ReplaceChar(s[1..], c, r);
      assert forall i :: 0 <= i < |rest| ==> rest[i] in s || rest[i] in r;
      (if s[0] == c then r else [s[0]]) + rest
  }

  /** Nothing to replace, nothing changes. */
  lemma {:induction false} ReplaceAbsent(s: string, c: char, r: string)
    requires c !in s
    ensures ReplaceChar(s, c, r) == s
  {
    if s != [] {
      ReplaceAbsent(s[1..], c, r);
    }
  }

  /** A string that does not start with the separator splits with its first character on the first piece. */
  lemma SplitCons(a: char, t: string, c: char)
    requires a != c
    ensures Split([a] + t, [c]) == [[a] + Split(t, [c])[0]] + Split(t, [c])[1..]
  {
    assert !Contains([a], [c]) by {
      MissingCharNotContained([a], [c], 0);
    }
    FindPastPrefix([a], t, [c]);
    match Find(t, [c])
    case None =>
    case Some(i) =>
      var s := [a] + t;
      SplitAt(s, [c], i + 1);
      SplitAt(t, [c], i);
      assert s[..i + 1] == [a] + t[..i];
      assert s[i + 2..] == t[i + 1..];
  }

  /** A string that starts with the separator splits with an empty first piece. */
  lemma SplitAtHead(c: char, t: string)
    ensures Split([c] + t, [c]) == [[]] + Split(t, [c])
  {
    assert !Contains([], [c]);
    SplitAfterFreePrefix([], [c], t);
    assert [] + [c] + t == [c] + t;
  }

  /** Joining with a character put in front of the first piece puts it in front of the join. */
  lemma JoinOntoHead(a: char, pieces: seq<string>, r: string)
    requires |pieces| >= 1
    ensures Join([[a] + pieces[0]] + pieces[1..], r) == [a] + Join(pieces, r)
  {
    if |pieces| == 1 {
      assert [[a] + pieces[0]] + pieces[1..] == [[a] + pieces[0]];
    } else {
      JoinCons([a] + pieces[0], pieces[1..], r);
      assert pieces == [pieces[0]] + pieces[1..];
      JoinCons(pieces[0], pieces[1..], r);
    }
  }

  /** `s.replace(c, r)` is `r.join(s.split(c))`, the reference definition of `str.replace`. */
  lemma {:induction false} ReplaceIsSplitJoin(s: string, c: char, r: string)
    ensures ReplaceChar(s, c, r) == Join(Split(s, [c]), r)
  {
    if s == [] {
      assert Find([], [c]).None?;
    } else {
      var t := s[1..];
      ReplaceIsSplitJoin(t, c, r);
      assert s == [s[0]] + t;
      if s[0] == c {
        SplitAtHead(c, t);
        JoinCons([], Split(t, [c]), r);
      } else {
        SplitCons(s[0], t, c);
        JoinOntoHead(s[0], Split(t, [c]), r);
      }
    }
  }

  /** The table applied entry by entry, in order. */
  function ApplyTable(s: string, table: seq<(char, string)>): string {
    if table == [] then s
    else
      var last := table[|table| - 1];
      ReplaceChar(ApplyTable(s, table[..|table| - 1]), last.0, last.1)
  }

  /** No replacement of the table spells any of its symbols. */
  predicate SymbolsNotReplaced(table: seq<(char, string)>) {
    forall k, l :: 0 <= k < |table| && 0 <= l < |table| ==> table[k].0 !in table[l].1
  }

  /** Applying a table whose replacements spell none of its symbols leaves none of them. */
  lemma {:induction false} TableRemovesSymbols(s: string, table: seq<(char, string)>)
    requires SymbolsNotReplaced(table)
    ensures forall k :: 0 <= k < |table| ==> table[k].0 !in ApplyTable(s, table)
  {
    if table != [] {
      var init := table[..|table| - 1];
      var last := table[|table| - 1];
      assert forall k :: 0 <= k < |init| ==> init[k] == table[k];
      TableRemovesSymbols(s, init);
      var before := ApplyTable(s, init);
      var after := ReplaceChar(before, last.0, last.1);
      forall k | 0 <= k < |table| ensures table[k].0 !in after {
        var d := table[k].0;
        assert d !in last.1;
        if k < |init| {
          assert d !in before;
        }
      }
    }
  }

  /** The symbols are private-use characters and the replacements ASCII. */
  lemma SubstitutionsAscii()
    ensures SymbolsNotReplaced(SUBSTITUTIONS)
  {
    forall k, l | 0 <= k < |SUBSTITUTIONS| && 0 <= l < |SUBSTITUTIONS|
      ensures SUBSTITUTIONS[k].0 !in SUBSTITUTIONS[l].1
    {
      assert SUBSTITUTIONS[k].0 as int >= 0xF000;
      assert forall j :: 0 <= j < |SUBSTITUTIONS[l].1| ==> SUBSTITUTIONS[l].1[j] as int < 128;
    }
  }

  /** After the substitution step none of the table's symbols is left. */
  lemma NoSymbolsLeft(s: string)
    ensures forall k :: 0 <= k < |SUBSTITUTIONS| ==> SUBSTITUTIONS[k].0 !in ApplyTable(s, SUBSTITUTIONS)
  {
    SubstitutionsAscii();
    TableRemovesSymbols(s, SUBSTITUTIONS);
  }

  // ---------------------------------------------------------------
  // Filter and collapse
  // ---------------------------------------------------------------

  /** What the class `[\w\s.,!?;:"'()\[\]{}<>=+/\\-]` matches. */
  predicate Allowed(c: char) {
    IsWordChar(c) || IsSpace(c) || c in PUNCTUATION
  }

  predicate AllAllowed(s: string) {
    forall i :: 0 <= i < |s| ==> Allowed(s[i])
  }

  /** `re.sub(r'[^\w\s...]', '', s)`: every character outside the class is removed. */
  function Filter(s: string): (r: string)
    ensures |r| <= |s|
    ensures AllAllowed(r)
  {
    if s == [] then [] else (if Allowed(s[0]) then [s[0]] else []) + Filter(s[1..])
  }

  /** The filter keeps every allowed character, in order: on allowed text it changes nothing. */
  lemma {:induction false} FilterKeepsAllowed(s: string)
    requires AllAllowed(s)
    ensures Filter(s) == s
  {
    if s != [] {
      assert AllAllowed(s[1..]) by {
        forall i | 0 <= i < |s[1..]| ensures Allowed(s[1..][i]) {
          assert s[1..][i] == s[i + 1];
        }
      }
      FilterKeepsAllowed(s[1..]);
    }
  }

  /** Every whitespace character is a plain space and no two whitespace characters are adjacent. */
  predicate Collapsed(s: string) {
    && (forall i :: 0 <= i < |s| && IsSpace(s[i]) ==> s[i] == ' ')
    && (forall i :: 0 <= i < |s| - 1 ==> !IsSpace(s[i]) || !IsSpace(s[i + 1]))
  }

  /** `re.sub(r'\s+', ' ', s)`: each maximal whitespace run becomes one space. */
  function Collapse(s: string): (r: string)
    decreases |s|
    ensures |r| <= |s|
    ensures r == [] <==> s == []
    ensures r != [] ==> (IsSpace(r[0]) <==> IsSpace(s[0]))
    ensures Collapsed(r)
  {
    if s == [] then []
    else if IsSpace(s[0]) then LStripDrops(s[1..]); [' '] + Collapse(LStrip(s[1..]))
    else [s[0]] + Collapse(s[1..])
  }

  /** Collapsing introduces no character but the space. */
  lemma {:induction false} CollapseAllowed(s: string)
    requires AllAllowed(s)
    ensures AllAllowed(Collapse(s))
    decreases |s|
  {
    if s != [] {
      var t := if IsSpace(s[0]) then LStrip(s[1..]) else s[1..];
      assert AllAllowed(t) by {
        assert t == s[|s| - |t|..];
        forall i | 0 <= i < |t| ensures Allowed(t[i]) {
          assert t[i] == s[|s| - |t| + i];
        }
      }
      CollapseAllowed(t);
      var head := if IsSpace(s[0]) then ' ' else s[0];
      assert Collapse(s) == [head] + Collapse(t);
    }
  }

  /** On collapsed text the collapse changes nothing. */
  lemma {:induction false} CollapseCollapsed(s: string)
    requires Collapsed(s)
    ensures Collapse(s) == s
    decreases |s|
  {
    if s != [] {
      var t := s[1..];
      assert Collapsed(t) by {
        forall i | 0 <= i < |t| ensures t[i] == s[i + 1] { }
      }
      CollapseCollapsed(t);
      if IsSpace(s[0]) {
        if t != [] {
          assert t[0] == s[1] && !IsSpace(s[1]);
        }
        assert LStrip(t) == t;
        assert Collapse(s) == [' '] + Collapse(t);
        assert s[0] == ' ';
      } else {
        assert Collapse(s) == [s[0]] + Collapse(t);
      }
      assert s == [s[0]] + t;
    }
  }

  /** Collapsing only rewrites whitespace: the other characters stay, in order. */
  function NonSpace(s: string): string {
    if s == [] then [] else (if IsSpace(s[0]) then [] else [s[0]]) + NonSpace(s[1..])
  }

  lemma {:induction false} NonSpaceLeadingRun(s: string)
    ensures NonSpace(LStrip(s)) == NonSpace(s)
  {
    if s != [] && IsSpace(s[0]) {
      NonSpaceLeadingRun(s[1..]);
    }
  }

  lemma {:induction false} CollapseKeepsText(s: string)
    ensures NonSpace(Collapse(s)) == NonSpace(s)
    decreases |s|
  {
    if s != [] {
      if IsSpace(s[0]) {
        var t := LStrip(s[1..]);
        CollapseKeepsText(t);
        NonSpaceLeadingRun(s[1..]);
        assert Collapse(s) == [' '] + Collapse(t);
        assert NonSpace([' '] + Collapse(t)) == NonSpace(Collapse(t)) by {
          assert ([' '] + Collapse(t))[1..] == Collapse(t);
        }
      } else {
        CollapseKeepsText(s[1..]);
        assert ([s[0]] + Collapse(s[1..]))[1..] == Collapse(s[1..]);
      }
    }
  }

  /** A piece of collapsed, allowed text is collapsed and allowed. */
  lemma StripKeeps(s: string)
    requires Collapsed(s) && AllAllowed(s)
    ensures Collapsed(Strip(s)) && AllAllowed(Strip(s))
  {
    var t := Strip(s);
    var k := |s| - |LStrip(s)|;
    StripSlice(s);
    assert t == s[k..k + |t|];
    SliceKeeps(s, k, k + |t|);
  }

  /** Any contiguous piece of collapsed, allowed text is collapsed and allowed. */
  lemma SliceKeeps(s: string, a: nat, b: nat)
    requires a <= b <= |s|
    requires Collapsed(s) && AllAllowed(s)
    ensures Collapsed(s[a..b]) && AllAllowed(s[a..b])
  {
    var t := s[a..b];
    assert forall i :: 0 <= i < |t| ==> t[i] == s[a + i];
  }

  /** Step 4: collapse the whitespace, then strip. */
  function Normalised(s: string): string {
    Strip(Collapse(s))
  }

  /** Steps 3 and 4, the filter and the whitespace normalisation. */
  function FilterAndCollapse(s: string): string {
    Normalised(Filter(s))
  }

  /**
   * The filter-and-collapse stage leaves only allowed characters, no
   * whitespace at either end, only single plain spaces inside, and is never
   * longer than its input.
   */
  lemma FilterAndCollapseShape(s: string)
    ensures var r := FilterAndCollapse(s);
            && AllAllowed(r) && Collapsed(r) && |r| <= |s|
            && (r != [] ==> !IsSpace(r[0]) && !IsSpace(r[|r| - 1]))
  {
    var f := Filter(s);
    var c := Collapse(f);
    CollapseAllowed(f);
    StripKeeps(c);
    StripTrims(c);
    StripSlice(c);
  }

  /** Running the stage again changes nothing. */
  lemma FilterAndCollapseIdempotent(s: string)
    ensures FilterAndCollapse(FilterAndCollapse(s)) == FilterAndCollapse(s)
  {
    var r := FilterAndCollapse(s);
    FilterAndCollapseShape(s);
    FilterKeepsAllowed(r);
    CollapseCollapsed(r);
    StripPadded([], r, []);
    assert [] + r + [] == r;
  }

  /** Text that is empty or only whitespace after filtering comes out empty. */
  lemma BlankAfterFilter(s: string)
    requires AllSpace(Filter(s))
    ensures FilterAndCollapse(s) == []
  {
    var f := Filter(s);
    if f != [] {
      var t := LStrip(f[1..]);
      assert AllSpace(f[1..]) by {
        forall i | 0 <= i < |f[1..]| ensures IsSpace(f[1..][i]) {
          assert f[1..][i] == f[i + 1];
        }
      }
      LStripAllSpace(f[1..]);
      assert t == [];
      assert Collapse(f) == [' '];
      StripTrims([' ']);
    }
  }

  // ---------------------------------------------------------------
  // The whole cleaner
  // ---------------------------------------------------------------

  /** The cleaned text for already normalised input. */
  function CleanedText(normalised: string): string {
    FilterAndCollapse(ApplyTable(normalised, SUBSTITUTIONS))
  }

  /**
   * `ocisti_tekst` step by step as the source writes it, with the NFKC
   * normalisation as a parameter. The result is the cleaned text, holds only
   * allowed characters and single plain spaces, and is stripped.
   */
  method CleanText(text: string, normalize: string -> string) returns (cleaned: string)
    ensures cleaned == CleanedText(normalize(text))
    ensures AllAllowed(cleaned) && Collapsed(cleaned)
    ensures cleaned != [] ==> !IsSpace(cleaned[0]) && !IsSpace(cleaned[|cleaned| - 1])
  {
    var t := normalize(text);
    var n := t;
    for i := 0 to |SUBSTITUTIONS|
      invariant t == ApplyTable(n, SUBSTITUTIONS[..i])
    {
      assert SUBSTITUTIONS[..i + 1][..i] == SUBSTITUTIONS[..i];
      t := ReplaceChar(t, SUBSTITUTIONS[i].0, SUBSTITUTIONS[i].1);
    }
    assert SUBSTITUTIONS[..|SUBSTITUTIONS|] == SUBSTITUTIONS;
    FilterAndCollapseShape(t);
    t := Filter(t);
    cleaned := Strip(Collapse(t));
  }
}
